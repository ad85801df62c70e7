/** The dequeue loops from the bytes of a packet: which packets have a frame, which frame that is,
    and what becomes of a packet that is alone in its queue. */
module FrameBytes {
  import opened Wrappers
  import opened Words
  import opened Frames
  import opened Cursors
  import opened UplinkMessages
  import opened Dequeue

  /** The message id is in the third and fourth byte; a shorter packet has the id 0xFFFF. */
  lemma IdBytes(m: Message)
    ensures MessageId(m) == if |m.data| >= 4 then Number16(m.data[2..]) else 0xFFFF
  {
  }

  /** The packets that have a frame: those of the uplink indications that are long enough. */
  lemma HasFrame(air: Air, m: Message)
    ensures FrameWord(air, m).Some? <==>
      var id := if |m.data| >= 4 then Number16(m.data[2..]) else 0xFFFF;
      if air.Lte? then |m.data| >= 18 && (0x85 <= id <= 0x88 || id == 0x8A || id == 0x8B)
      else |m.data| >= 20 && 0x85 <= id <= 0x89
  {
    IdBytes(m);
  }

  /** An LTE packet carries the frame word as it is. */
  lemma LteFrame(m: Message, word: uint16)
    requires FrameWord(Lte, m).Some? && |m.data| >= 18 && m.data[16..18] == Bytes16(word)
    ensures FrameWord(Lte, m) == Some(word)
  {
    assert m.data[16] == m.data[16..18][0] && m.data[17] == m.data[16..18][1];
  }

  /** An NR packet carries the frame and then the slot, of which ten and six bits count. */
  lemma NrFrame(m: Message, sfn: uint16, slot: uint16)
    requires FrameWord(Nr, m).Some? && |m.data| >= 20 && m.data[16..20] == Bytes16(sfn) + Bytes16(slot)
    ensures FrameWord(Nr, m) == Some(sfn % 1024 * 64 + slot % 64)
    ensures sfn < 1024 && slot < 20 ==> FrameWord(Nr, m) == Some(Nr.Pack(sfn, slot))
  {
    var s := m.data[16..20];
    assert s[0] == m.data[16] && s[1] == m.data[17] && s[2] == m.data[18] && s[3] == m.data[19];
    Number16Bytes(sfn, Bytes16(slot));
    Number16Bytes(slot, []);
    assert Bytes16(sfn) == [s[0], s[1]] && Bytes16(slot) == [s[2], s[3]];
  }

  lemma {:induction false} NothingQueued(qs: seq<seq<Message>>, n: nat)
    requires n <= |qs| && forall j :: 0 <= j < n ==> qs[j] == []
    ensures Total(qs, n) == 0
  {
    if n > 0 {
      NothingQueued(qs, n - 1);
    }
  }

  /** The first packet that a call meets, alone in its queue. */
  lemma DrainAlone(air: Air, tx: uint16, qs: seq<seq<Message>>, i: nat, m: Message)
    requires i < |qs| && qs[i] == [m] && forall j :: 0 <= j < i ==> qs[j] == []
    requires WellFormed(air, m)
    ensures var d, late := Drain(air, tx, qs)[i], air.Delta(tx, FrameWord(air, m).value) > Window(air);
      d.queue == [] && d.row == (if late then [] else [m]) && d.freed == (if late then [m] else [])
  {
    hide FrameWord, Air.Delta, DrainMany;
    NothingQueued(qs, i);
    DrainAt(air, tx, qs, |qs|, i);
    NoMasterYet(air, tx, qs, i);
    assert [m][1..] == [] && [] + [m] == [m];
  }

  /** In LTE it is batched exactly when it is not more than 200 subframes behind, by the plain
      difference of the counts. */
  lemma LteAlone(tx: uint16, qs: seq<seq<Message>>, i: nat, m: Message, word: uint16)
    requires i < |qs| && qs[i] == [m] && forall j :: 0 <= j < i ==> qs[j] == []
    requires FrameWord(Lte, m).Some? && |m.data| >= 18 && m.data[16..18] == Bytes16(word)
    ensures var behind := (tx / 16 * 10 + tx % 16) - (word / 16 * 10 + word % 16);
      Drain(Lte, tx, qs)[i].row == if behind <= 200 then [m] else []
  {
    LteFrame(m, word);
    DrainAlone(Lte, tx, qs, i, m);
  }

  /** In NR exactly when it is not more than 400 slots behind. */
  lemma NrAlone(txSfn: uint16, txSlot: uint16, qs: seq<seq<Message>>, i: nat, m: Message, sfn: uint16, slot: uint16)
    requires txSfn < 1024 && txSlot < 20 && sfn < 1024 && slot < 20
    requires i < |qs| && qs[i] == [m] && forall j :: 0 <= j < i ==> qs[j] == []
    requires FrameWord(Nr, m).Some? && |m.data| >= 20 && m.data[16..20] == Bytes16(sfn) + Bytes16(slot)
    ensures var behind := (txSfn * 20 + txSlot) - (sfn * 20 + slot);
      Drain(Nr, Nr.Pack(txSfn, txSlot), qs)[i].row == if behind <= 400 then [m] else []
  {
    NrFrame(m, sfn, slot);
    DrainAlone(Nr, Nr.Pack(txSfn, txSlot), qs, i, m);
  }
}
