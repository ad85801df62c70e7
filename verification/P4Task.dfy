/** nfapi_p4_message_pack and nfapi_p4_message_unpack on byte buffers, proved against P4.Pack and
    P4.Unpack. */
module P4Task {
  import opened Wrappers
  import opened Words
  import opened Cursors
  import opened Formats
  import opened ValueCodec
  import opened Tlv
  import opened TlvTask
  import opened P4Kinds
  import opened P4

  /** The first k calls have been made. */
  ghost predicate Packing(table: seq<Entry>, slots: seq<Slot>, calls: seq<Call>, k: nat, written: seq<byte>,
                          slots': seq<Slot>)
    requires SlotsFit(table, slots) && CallsMatch(table, calls) && k <= |calls|
  {
    && PackList(false, table, slots, calls) == Append(Some(written), PackList(false, table, slots, calls[k..]))
    && Delivered(table, slots, calls[..k], slots, slots')
  }

  lemma StartPacking(table: seq<Entry>, slots: seq<Slot>, calls: seq<Call>)
    requires SlotsFit(table, slots) && CallsMatch(table, calls)
    ensures Packing(table, slots, calls, 0, [], slots)
  {
    assert calls[0..] == calls;
    AppendNothing(PackList(false, table, slots, calls));
  }

  /** What one more call adds. */
  lemma StepPacking(table: seq<Entry>, slots: seq<Slot>, calls: seq<Call>, k: nat, written: seq<byte>,
                    slots': seq<Slot>)
    requires SlotsFit(table, slots) && CallsMatch(table, calls) && k < |calls|
    requires Packing(table, slots, calls, k, written, slots')
    ensures |slots'| == |table| && SlotFits(calls[k].tag, calls[k].format, slots[calls[k].at])
    ensures var all, one := PackList(false, table, slots, calls), PackOne(false, calls[k], slots[calls[k].at]);
      && (one.None? ==> all.None?)
      && (one.Some? ==>
          && Packing(table, slots, calls, k + 1, written + one.value, After(table, slots, calls[k], slots'))
          && (all.Some? ==> |all.value| >= |written| + |one.value|))
  {
    hide PackList, PackOne;
    CallFits(table, slots, calls[k]);
    StepPackList(table, slots, calls, k, written);
    if PackOne(false, calls[k], slots[calls[k].at]).Some? {
      assert calls[..k + 1] == calls[..k] + [calls[k]];
      DeliveredSnoc(table, slots, calls[..k], calls[k], slots');
    }
  }

  lemma StepPackList(table: seq<Entry>, slots: seq<Slot>, calls: seq<Call>, k: nat, written: seq<byte>)
    requires SlotsFit(table, slots) && CallsMatch(table, calls) && k < |calls|
    requires SlotFits(calls[k].tag, calls[k].format, slots[calls[k].at])
    requires PackList(false, table, slots, calls) == Append(Some(written), PackList(false, table, slots, calls[k..]))
    ensures var all, one := PackList(false, table, slots, calls), PackOne(false, calls[k], slots[calls[k].at]);
      && (one.None? ==> all.None?)
      && (one.Some? ==>
          && all == Append(Some(written + one.value), PackList(false, table, slots, calls[k + 1..]))
          && (all.Some? ==> |all.value| >= |written| + |one.value|))
  {
    assert calls[k..][0] == calls[k] && calls[k..][1..] == calls[k + 1..];
    var one := PackOne(false, calls[k], slots[calls[k].at]);
    if one.Some? {
      StepItems(written, one.value, PackList(false, table, slots, calls[k + 1..]));
    }
  }

  lemma DeliveredSnoc(table: seq<Entry>, slots: seq<Slot>, calls: seq<Call>, call: Call, slots': seq<Slot>)
    requires SlotsFit(table, slots) && CallsMatch(table, calls + [call]) && Matches(table, call)
    requires CallsMatch(table, calls) && SlotFits(call.tag, call.format, slots[call.at])
    requires PackOne(false, call, slots[call.at]).Some? && Delivered(table, slots, calls, slots, slots')
    ensures Delivered(table, slots, calls + [call], slots, After(table, slots, call, slots'))
  {
    var more, now := calls + [call], After(table, slots, call, slots');
    assert more[|calls|] == call;
    forall k | 0 <= k < |calls|
      ensures Got(table, slots, more[k], now)
    {
      assert more[k] == calls[k] && Got(table, slots, calls[k], slots');
    }
    forall i | 0 <= i < |table| && !(Called(more, i) && Present(table, slots, i))
      ensures now[i] == slots[i]
    {
      if Called(calls, i) {
        var k :| 0 <= k < |calls| && calls[k].at == i;
        assert more[k].at == i;
      }
      assert i == call.at ==> Called(more, i);
    }
  }

  /** A pack_tlv call. */
  method PackSlot(call: Call, slot: Slot, c: Cursor) returns (ok: bool, slot': Slot)
    requires SlotFits(call.tag, call.format, slot) && c.Writable() && c.pos <= c.end
    modifies c`pos, c.buf
    ensures c.Writable() && Packed(PackOne(false, call, slot), old(c.Done()), c.end, ok, c.Done())
    ensures ok ==> c.pos <= c.end && slot' == if slot.tag == call.tag then Sent(call.format, slot) else slot
  {
    ok, slot' := PackTlv(false, call, slot, c);
    assert slot.tag != call.tag ==> c.Done() == c.Done() + [];
  }

  /** The k-th pack_tlv call. */
  method PackRow(table: seq<Entry>, slots: seq<Slot>, calls: seq<Call>, k: nat, c: Cursor, slots': seq<Slot>,
                 ghost before: seq<byte>, ghost written: seq<byte>)
    returns (ok: bool, slots'': seq<Slot>, ghost written': seq<byte>)
    requires SlotsFit(table, slots) && CallsMatch(table, calls) && k < |calls|
    requires Packing(table, slots, calls, k, written, slots')
    requires c.Writable() && c.pos <= c.end && c.Done() == before + written
    modifies c`pos, c.buf
    ensures c.Writable()
    ensures ok ==> c.pos <= c.end && c.Done() == before + written'
    ensures ok ==> Packing(table, slots, calls, k + 1, written', slots'')
    ensures !ok ==> var all := PackList(false, table, slots, calls); all.None? || |before| + |all.value| > c.end
  {
    hide PackList, PackOne, Packing;
    var i := calls[k].at;
    StepPacking(table, slots, calls, k, written, slots');
    var slot;
    ok, slot := PackSlot(calls[k], slots[i], c);
    slots'', written' := slots', written;
    if ok {
      ghost var one := PackOne(false, calls[k], slots[i]).value;
      written' := written + one;
      assert before + written + one == before + written';
      if slots[i].tag == calls[k].tag {
        slots'' := slots'[i := slot];
      }
    }
  }

  /** The pack_tlv calls of a message. The lengths go into the slots that are packed. */
  method PackTlvs(table: seq<Entry>, slots: seq<Slot>, calls: seq<Call>, c: Cursor)
    returns (ok: bool, slots': seq<Slot>)
    requires SlotsFit(table, slots) && CallsMatch(table, calls) && c.Writable() && c.pos <= c.end
    modifies c`pos, c.buf
    ensures c.Writable() && Packed(PackList(false, table, slots, calls), old(c.Done()), c.end, ok, c.Done())
    ensures ok ==> Delivered(table, slots, calls, slots, slots')
  {
    ok, slots' := true, slots;
    ghost var before, written: seq<byte> := c.Done(), [];
    StartPacking(table, slots, calls);
    var k := 0;
    while k < |calls|
      invariant 0 <= k <= |calls| && c.Writable() && c.pos <= c.end && c.Done() == before + written
      invariant Packing(table, slots, calls, k, written, slots')
    {
      ok, slots', written := PackRow(table, slots, calls, k, c, slots', before, written);
      if !ok {
        return;
      }
      k := k + 1;
    }
    assert calls[..k] == calls && calls[k..] == [] && written + [] == written;
    ok := true;
  }

  method PackPrefix(p: Prefix, n: nat, c: Cursor) returns (ok: bool)
    requires PrefixFits(p, n) && c.Writable() && c.pos <= c.end
    modifies c`pos, c.buf
    ensures c.Writable() && Packed(Some(PrefixBytes(p, n)), old(c.Done()), c.end, ok, c.Done())
  {
    match p {
      case NoPrefix => ok := true;
      case RatType => ok := c.Push8(n);
      case ErrorCode => ok := c.Push32(n);
    }
  }

  method PackMessageHeader(m: Message, c: Cursor) returns (ok: bool)
    requires c.Writable()
    modifies c`pos, c.buf
    ensures c.Writable() && (ok <==> old(c.pos) + HEADER_LENGTH <= c.end)
    ensures ok ==> c.Done() == old(c.Done()) + MessageHeader(m, 0)
  {
    ok := c.Push16(m.phyId);
    if ok { ok := c.Push16(m.id); }
    if ok { ok := c.Push16(0); }
    if ok { ok := c.Push16(m.spare); }
  }

  /** The slots of the message afterwards: those that were sent have their lengths filled in. */
  ghost predicate Updated(k: Kind, m: Message, slots': seq<Slot>)
    requires MessageFits(k, m)
  {
    KindCalls(k, m.prefix);
    Delivered(k.table, m.slots, k.Calls(m.prefix), m.slots, slots')
  }

  /** A message's own pack function: what stands between the header and the end. */
  method PackContent(k: Kind, m: Message, c: Cursor) returns (ok: bool, slots': seq<Slot>)
    requires MessageFits(k, m) && c.Writable() && c.pos <= c.end
    modifies c`pos, c.buf
    ensures c.Writable() && Packed(Content(k, m), old(c.Done()), c.end, ok, c.Done())
    ensures ok ==> Updated(k, m, slots')
  {
    hide PackList, Delivered;
    KindCalls(k, m.prefix);
    slots' := m.slots;
    ok := PackPrefix(k.prefix, m.prefix, c);
    if ok {
      ok, slots' := PackTlvs(k.table, m.slots, k.Calls(m.prefix), c);
    }
  }

  /** The rest of nfapi_p4_message_pack once the header is there. The length field is filled in
      last. */
  method PackAfterHeader(k: Kind, m: Message, c: Cursor) returns (result: int, slots': seq<Slot>)
    requires MessageFits(k, m) && c.Writable() && c.pos <= c.end && c.Done() == MessageHeader(m, 0)
    modifies c`pos, c.buf
    ensures c.Writable()
    ensures var s := Pack(k, m);
      if s.None? || |s.value| > c.end then result == -1
      else result == |s.value| && c.Done() == s.value && Updated(k, m, slots')
  {
    var ok;
    ok, slots' := PackContent(k, m, c);
    result := -1;
    if ok && c.pos <= 0xFFFF {
      c.Patch16(4, c.pos);
      LengthPatched(m, c.pos, Content(k, m).value);
      result := c.pos;
    }
  }

  /** nfapi_p4_message_pack: the number of bytes packed, or -1. */
  method MessagePack(m: Message, buf: array<byte>, packedBufLen: nat) returns (result: int, slots': seq<Slot>)
    requires packedBufLen <= buf.Length
    requires Fitting(m)
    modifies buf
    ensures var s := PackMessage(m);
      if s.None? || |s.value| > packedBufLen then result == -1
      else
        && KindOf(m.id).Some? && result == |s.value| && buf[..result] == s.value
        && Updated(KindOf(m.id).value, m, slots')
  {
    result, slots' := -1, m.slots;
    var c := new Cursor(buf, 0, packedBufLen);
    var ok := PackMessageHeader(m, c);
    var kind := KindOf(m.id);
    if ok && kind.Some? {
      assert [] + MessageHeader(m, 0) == MessageHeader(m, 0);
      result, slots' := PackAfterHeader(kind.value, m, c);
    }
  }

  lemma LengthPatched(m: Message, length: uint16, content: seq<byte>)
    ensures var s := MessageHeader(m, 0) + content;
      s[..4] + Bytes16(length) + s[6..] == MessageHeader(m, length) + content
  {
    var s := MessageHeader(m, 0) + content;
    assert s[..4] == Bytes16(m.phyId) + Bytes16(m.id) && s[6..] == Bytes16(m.spare) + content;
  }

  method UnpackPrefix(p: Prefix, c: Cursor) returns (n: Option<nat>)
    requires c.Valid() && c.pos <= c.end
    modifies c`pos
    ensures c.pos <= c.end && Unpacked(PrefixOf(p, old(c.Unread())), n, c.Unread())
  {
    match p {
      case NoPrefix => n := Some(0);
      case RatType =>
        var b := c.Pull8();
        n := if b.Some? then Some(b.value) else None;
      case ErrorCode =>
        var w := c.Pull32();
        n := if w.Some? then Some(w.value) else None;
    }
  }

  /** A message's own unpack function, on slots that memset has blanked. */
  method UnpackMessageContent(k: Kind, c: Cursor) returns (r: Option<(nat, seq<Slot>)>)
    requires c.Valid() && c.pos <= c.end
    modifies c`pos
    ensures r == UnpackContent(k, old(c.Unread()))
  {
    r := None;
    var prefix := UnpackPrefix(k.prefix, c);
    if prefix.Some? {
      var result, slots := ParseTlvList(false, false, k.table, Blank(k.table), c);
      if result == 1 && |slots| == |k.table| && k.Accepts(prefix.value, slots) {
        r := Some((prefix.value, slots));
      }
    }
  }

  /** nfapi_p4_message_unpack: 1 and the message, or -1. */
  method MessageUnpack(buf: array<byte>, messageBufLen: nat) returns (result: int, m: Option<Message>)
    requires messageBufLen <= buf.Length
    ensures m == Unpack(buf[..messageBufLen])
    ensures result == if m.Some? then 1 else -1
  {
    result, m := -1, None;
    if messageBufLen < HEADER_LENGTH {
      return;
    }
    var c := new Cursor(buf, 0, messageBufLen);
    ghost var s := buf[..messageBufLen];
    assert c.Unread() == s;
    var phyId := c.Pull16();
    var id := c.Pull16();
    var length := c.Pull16();
    var spare := c.Pull16();
    assert s[2..][2..] == s[4..] && s[4..][2..] == s[6..] && s[6..][2..] == s[8..];
    var kind := KindOf(id.value);
    if kind.None? {
      return;
    }
    var r := UnpackMessageContent(kind.value, c);
    if r.Some? {
      result, m := 1, Some(Message(phyId.value, id.value, length.value, spare.value, r.value.0, r.value.1));
    }
  }
}
