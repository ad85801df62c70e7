/** Which batches mix frames. The dequeue loops of src/nfapi_pnf.c take 0xFFFF both for a frame
    word and for "no master yet", so packets that carry it are batched without setting the
    master, and packets of one other frame can join them. */
module BatchFrames {
  import opened Wrappers
  import opened Words
  import opened Frames
  import opened UplinkMessages
  import opened Dequeue

  ghost predicate InWindow(air: Air, tx: uint16, word: uint16) { air.Delta(tx, word) <= Window(air) }

  /** No packet of frame word 0xFFFF is ever late. */
  lemma NoMasterInWindow(air: Air, tx: uint16)
    ensures InWindow(air, tx, NO_MASTER)
  {
  }

  /** The frame word of the first well-formed packet that does not carry 0xFFFF. */
  function FirstOther(air: Air, q: seq<Message>): Option<uint16> {
    if q == [] then None
    else if WellFormed(air, q[0]) && FrameWord(air, q[0]) != Some(NO_MASTER) then FrameWord(air, q[0])
    else FirstOther(air, q[1..])
  }

  /** How many well-formed packets, which all carry 0xFFFF, are before that one. */
  function Lead(air: Air, q: seq<Message>): nat {
    if q == [] then 0
    else if !WellFormed(air, q[0]) then Lead(air, q[1..])
    else if FrameWord(air, q[0]) == Some(NO_MASTER) then 1 + Lead(air, q[1..])
    else 0
  }

  /** A packet of frame word w, which is not 0xFFFF, comes from UE k into the batch if it is not
      late: its well-formed packets start with that frame, or it is the first UE that has
      another word than 0xFFFF, and that comes among its first eight. */
  ghost predicate Joins(air: Air, qs: seq<seq<Message>>, k: nat, w: uint16)
    requires k < |qs|
  {
    && FirstOther(air, qs[k]) == Some(w)
    && (Lead(air, qs[k]) == 0
        || (Lead(air, qs[k]) < 8 && FirstOther(air, Flat(qs, k)).None?))
  }

  // ---- Heads and concatenations -----------------------------------------------------------

  lemma FirstWordHead(air: Air, q: seq<Message>)
    requires q != []
    ensures FirstWord(air, q) == if WellFormed(air, q[0]) then FrameWord(air, q[0]) else FirstWord(air, q[1..])
  {
    assert q == [q[0]] + q[1..];
    FirstWordConcat(air, [q[0]], q[1..]);
    assert [q[0]][..0] == [];
  }

  lemma {:induction false} FirstOtherConcat(air: Air, s: seq<Message>, t: seq<Message>)
    ensures FirstOther(air, s + t) == if FirstOther(air, s).Some? then FirstOther(air, s) else FirstOther(air, t)
  {
    if s == [] {
      assert s + t == t;
    } else {
      assert (s + t)[1..] == s[1..] + t;
      FirstOtherConcat(air, s[1..], t);
    }
  }

  lemma {:induction false} OtherIsNotNone(air: Air, q: seq<Message>)
    ensures FirstOther(air, q) != Some(NO_MASTER)
  {
    if q != [] {
      OtherIsNotNone(air, q[1..]);
    }
  }

  /** A queue starts with frame w exactly when w is its first other word and nothing leads. */
  lemma {:induction false} StartsWithOther(air: Air, q: seq<Message>, w: uint16)
    requires w != NO_MASTER
    ensures FirstWord(air, q) == Some(w) <==> FirstOther(air, q) == Some(w) && Lead(air, q) == 0
    ensures FirstWord(air, q) == Some(w) ==> FirstOther(air, q).Some?
    ensures FirstOther(air, q).None? ==> FirstWord(air, q) == None || FirstWord(air, q) == Some(NO_MASTER)
  {
    if q != [] {
      FirstWordHead(air, q);
      StartsWithOther(air, q[1..], w);
    }
  }

  lemma HasWordConcat(air: Air, s: seq<Message>, t: seq<Message>, w: uint16)
    ensures HasWord(air, s + t, w) <==> HasWord(air, s, w) || HasWord(air, t, w)
  {
    assert forall m :: m in s + t <==> m in s || m in t;
    if HasWord(air, s, w) {
      var m :| m in s && WellFormed(air, m) && FrameWord(air, m) == Some(w);
      assert m in s + t;
    }
    if HasWord(air, t, w) {
      var m :| m in t && WellFormed(air, m) && FrameWord(air, m) == Some(w);
      assert m in s + t;
    }
  }

  lemma HasWordOne(air: Air, s: seq<Message>, m: Message, w: uint16)
    ensures HasWord(air, s + [m], w) <==> HasWord(air, s, w) || (WellFormed(air, m) && FrameWord(air, m) == Some(w))
  {
    HasWordConcat(air, s, [m], w);
    assert m in [m];
  }

  // ---- One UE -----------------------------------------------------------------------------

  /** Once a frame is the master, a UE's drain adds packets of that frame, and none of 0xFFFF,
      exactly when its well-formed packets start with it and it is in the window. */
  lemma {:induction false} MasteredRow(air: Air, tx: uint16, q: seq<Message>, w: uint16, row: seq<Message>,
                                       freed: seq<Message>)
    requires w != NO_MASTER && |row| <= MAX_MSGS
    ensures var d := DrainUe(air, tx, q, w, row, freed);
      && (HasWord(air, d.row, w) <==>
          HasWord(air, row, w) || (|row| < MAX_MSGS && InWindow(air, tx, w) && FirstWord(air, q) == Some(w)))
      && (HasWord(air, d.row, NO_MASTER) <==> HasWord(air, row, NO_MASTER))
    decreases |q|
  {
    if q != [] {
      FirstWordHead(air, q);
      var v := Judge(air, tx, w, |row|, q[0]);
      HasWordOne(air, row, q[0], w);
      HasWordOne(air, row, q[0], NO_MASTER);
      if v.Discard? {
        MasteredRow(air, tx, q[1..], w, row, freed + [q[0]]);
      } else if v.Keep? {
        MasteredRow(air, tx, q[1..], w, row + [q[0]], freed);
      }
    }
  }

  /** Without a master, a UE's drain sets it to the first other word. */
  lemma {:induction false} UnmasteredMaster(air: Air, tx: uint16, q: seq<Message>, row: seq<Message>,
                                            freed: seq<Message>)
    ensures var o := FirstOther(air, q);
      DrainUe(air, tx, q, NO_MASTER, row, freed).master == if o.Some? then o.value else NO_MASTER
    decreases |q|
  {
    if q != [] {
      var v := Judge(air, tx, NO_MASTER, |row|, q[0]);
      var row', freed' := if v.Keep? then row + [q[0]] else row, if v.Keep? then freed else freed + [q[0]];
      if v.master == NO_MASTER {
        UnmasteredMaster(air, tx, q[1..], row', freed');
      } else {
        DrainUeBlocked(air, tx, q[1..], v.master, row', freed');
      }
    }
  }

  /** The first other word joins the row exactly when it is in the window and there is room behind
      those that lead. */
  lemma {:induction false} UnmasteredRow(air: Air, tx: uint16, q: seq<Message>, row: seq<Message>,
                                         freed: seq<Message>, w: uint16)
    requires |row| <= MAX_MSGS && FirstOther(air, q) == Some(w)
    ensures HasWord(air, DrainUe(air, tx, q, NO_MASTER, row, freed).row, w)
      <==> HasWord(air, row, w) || (InWindow(air, tx, w) && |row| + Lead(air, q) < MAX_MSGS)
    decreases |q|
  {
    OtherIsNotNone(air, q);
    NoMasterInWindow(air, tx);
    HasWordOne(air, row, q[0], w);
    var v := Judge(air, tx, NO_MASTER, |row|, q[0]);
    if !WellFormed(air, q[0]) {
      UnmasteredRow(air, tx, q[1..], row, freed + [q[0]], w);
    } else if v.master != NO_MASTER {
      var row', freed' := if v.Keep? then row + [q[0]] else row, if v.Keep? then freed else freed + [q[0]];
      MasteredRow(air, tx, q[1..], w, row', freed');
    } else if v.Keep? {
      UnmasteredRow(air, tx, q[1..], row + [q[0]], freed, w);
    } else {
      UnmasteredRow(air, tx, q[1..], row, freed + [q[0]], w);
    }
  }

  /** Without a master, a UE's drain batches a packet of 0xFFFF exactly when its well-formed
      packets start with one. */
  lemma {:induction false} NoMasterRow(air: Air, tx: uint16, q: seq<Message>, freed: seq<Message>)
    ensures HasWord(air, DrainUe(air, tx, q, NO_MASTER, [], freed).row, NO_MASTER)
      <==> FirstWord(air, q) == Some(NO_MASTER)
    decreases |q|
  {
    if q != [] {
      FirstWordHead(air, q);
      NoMasterInWindow(air, tx);
      var v := Judge(air, tx, NO_MASTER, 0, q[0]);
      HasWordOne(air, [], q[0], NO_MASTER);
      if !WellFormed(air, q[0]) {
        NoMasterRow(air, tx, q[1..], freed + [q[0]]);
      } else if v.master != NO_MASTER {
        var row, freed' := if v.Keep? then [] + [q[0]] else [], if v.Keep? then freed else freed + [q[0]];
        MasteredRow(air, tx, q[1..], v.master, row, freed');
      } else {
        RowKeepsWord(air, tx, q[1..], NO_MASTER, [] + [q[0]], freed, NO_MASTER);
      }
    }
  }

  lemma {:induction false} RowKeepsWord(air: Air, tx: uint16, q: seq<Message>, master: uint16, row: seq<Message>,
                                        freed: seq<Message>, w: uint16)
    requires HasWord(air, row, w)
    ensures HasWord(air, DrainUe(air, tx, q, master, row, freed).row, w)
    decreases |q|
  {
    if q != [] {
      var v := Judge(air, tx, master, |row|, q[0]);
      HasWordOne(air, row, q[0], w);
      if v.Discard? {
        RowKeepsWord(air, tx, q[1..], v.master, row, freed + [q[0]], w);
      } else if v.Keep? {
        RowKeepsWord(air, tx, q[1..], v.master, row + [q[0]], freed, w);
      }
    }
  }

  /** All packets carry w or 0xFFFF. */
  ghost predicate Carries(air: Air, s: seq<Message>, w: uint16) {
    forall m :: m in s ==> WellFormed(air, m) && (FrameWord(air, m) == Some(w) || FrameWord(air, m) == Some(NO_MASTER))
  }

  lemma {:induction false} RowCarries(air: Air, tx: uint16, q: seq<Message>, master: uint16, row: seq<Message>,
                                      freed: seq<Message>)
    requires Carries(air, row, master)
    ensures var d := DrainUe(air, tx, q, master, row, freed); Carries(air, d.row, d.master)
    decreases |q|
  {
    if q != [] {
      var v := Judge(air, tx, master, |row|, q[0]);
      JudgeMaster(air, tx, master, |row|, q[0]);
      if v.Discard? {
        RowCarries(air, tx, q[1..], v.master, row, freed + [q[0]]);
      } else if v.Keep? {
        RowCarries(air, tx, q[1..], v.master, row + [q[0]], freed);
      }
    }
  }

  // ---- The whole batch --------------------------------------------------------------------

  /** The batched packets of the first n UEs. */
  function Batched(r: seq<Drained>, n: nat): seq<Message>
    requires n <= |r|
  {
    if n == 0 then [] else Batched(r, n - 1) + r[n - 1].row
  }

  lemma {:induction false} BatchedPrefix(r: seq<Drained>, d: Drained, n: nat)
    requires n <= |r|
    ensures Batched(r + [d], n) == Batched(r, n)
  {
    if n > 0 {
      BatchedPrefix(r, d, n - 1);
    }
  }

  ghost predicate SomeJoins(air: Air, qs: seq<seq<Message>>, n: nat, w: uint16)
    requires n <= |qs|
  {
    exists k :: 0 <= k < n && Joins(air, qs, k, w)
  }

  /** The words in a batch b of the first n UEs, told from what was queued. */
  ghost predicate Told(air: Air, tx: uint16, qs: seq<seq<Message>>, n: nat, b: seq<Message>, master: uint16)
    requires n <= |qs|
  {
    var o := FirstOther(air, Flat(qs, n));
    && master == (if o.Some? then o.value else NO_MASTER)
    && Carries(air, b, master)
    && (HasWord(air, b, NO_MASTER) <==> FirstWord(air, Flat(qs, n)) == Some(NO_MASTER))
    && (o.Some? ==> (HasWord(air, b, master) <==> InWindow(air, tx, master) && SomeJoins(air, qs, n, master)))
  }

  lemma SomeJoinsStep(air: Air, qs: seq<seq<Message>>, n: nat, w: uint16)
    requires n < |qs|
    ensures SomeJoins(air, qs, n + 1, w) <==> SomeJoins(air, qs, n, w) || Joins(air, qs, n, w)
  {
    if SomeJoins(air, qs, n, w) {
      var k :| 0 <= k < n && Joins(air, qs, k, w);
      assert 0 <= k < n + 1 && Joins(air, qs, k, w);
    }
  }

  lemma {:induction false} NoneJoins(air: Air, qs: seq<seq<Message>>, n: nat, w: uint16)
    requires n <= |qs| && FirstOther(air, Flat(qs, n)).None?
    ensures !SomeJoins(air, qs, n, w)
  {
    if n > 0 {
      FirstOtherConcat(air, Flat(qs, n - 1), qs[n - 1]);
      NoneJoins(air, qs, n - 1, w);
      SomeJoinsStep(air, qs, n - 1, w);
    }
  }

  /** One more UE when the master is set. */
  lemma MasteredMore(air: Air, tx: uint16, qs: seq<seq<Message>>, n: nat, b: seq<Message>, w: uint16)
    requires n < |qs| && w != NO_MASTER && FirstOther(air, Flat(qs, n)) == Some(w) && Told(air, tx, qs, n, b, w)
    ensures var d := DrainUe(air, tx, qs[n], w, [], []); Told(air, tx, qs, n + 1, b + d.row, d.master)
  {
    var q, d := qs[n], DrainUe(air, tx, qs[n], w, [], []);
    FirstOtherConcat(air, Flat(qs, n), q);
    FirstWordConcat(air, Flat(qs, n), q);
    FirstWordSome(air, Flat(qs, n));
    DrainUeBlocked(air, tx, q, w, [], []);
    RowCarries(air, tx, q, w, [], []);
    MasteredRow(air, tx, q, w, [], []);
    HasWordConcat(air, b, d.row, w);
    HasWordConcat(air, b, d.row, NO_MASTER);
    StartsWithOther(air, q, w);
    SomeJoinsStep(air, qs, n, w);
  }

  lemma {:induction false} FirstWordSome(air: Air, q: seq<Message>)
    ensures FirstOther(air, q).Some? ==> FirstWord(air, q).Some?
  {
    if q != [] {
      FirstWordHead(air, q);
      FirstWordSome(air, q[1..]);
    }
  }

  /** One more UE when there is no master. */
  lemma UnmasteredMore(air: Air, tx: uint16, qs: seq<seq<Message>>, n: nat, b: seq<Message>)
    requires n < |qs| && FirstOther(air, Flat(qs, n)).None? && Told(air, tx, qs, n, b, NO_MASTER)
    ensures var d := DrainUe(air, tx, qs[n], NO_MASTER, [], []); Told(air, tx, qs, n + 1, b + d.row, d.master)
  {
    var q, d := qs[n], DrainUe(air, tx, qs[n], NO_MASTER, [], []);
    FirstOtherConcat(air, Flat(qs, n), q);
    FirstWordConcat(air, Flat(qs, n), q);
    StartsWithOther(air, Flat(qs, n), 0);
    UnmasteredMaster(air, tx, q, [], []);
    OtherIsNotNone(air, q);
    NoMasterRow(air, tx, q, []);
    RowCarries(air, tx, q, NO_MASTER, [], []);
    HasWordConcat(air, b, d.row, NO_MASTER);
    if FirstOther(air, q).Some? {
      FirstToJoin(air, tx, qs, n, b, d.master);
    }
  }

  lemma FirstToJoin(air: Air, tx: uint16, qs: seq<seq<Message>>, n: nat, b: seq<Message>, w: uint16)
    requires n < |qs| && FirstOther(air, Flat(qs, n)).None? && Carries(air, b, NO_MASTER)
    requires FirstOther(air, qs[n]) == Some(w) && w != NO_MASTER
    ensures HasWord(air, b + DrainUe(air, tx, qs[n], NO_MASTER, [], []).row, w)
      <==> InWindow(air, tx, w) && SomeJoins(air, qs, n + 1, w)
  {
    HasWordConcat(air, b, DrainUe(air, tx, qs[n], NO_MASTER, [], []).row, w);
    UnmasteredRow(air, tx, qs[n], [], [], w);
    NoneJoins(air, qs, n, w);
    SomeJoinsStep(air, qs, n, w);
  }

  lemma MoreTold(air: Air, tx: uint16, qs: seq<seq<Message>>, n: nat, b: seq<Message>, w: uint16)
    requires n < |qs| && Told(air, tx, qs, n, b, w)
    ensures var d := DrainUe(air, tx, qs[n], w, [], []); Told(air, tx, qs, n + 1, b + d.row, d.master)
  {
    OtherIsNotNone(air, Flat(qs, n));
    if FirstOther(air, Flat(qs, n)).Some? {
      MasteredMore(air, tx, qs, n, b, w);
    } else {
      UnmasteredMore(air, tx, qs, n, b);
    }
  }

  lemma NoneTold(air: Air, tx: uint16, qs: seq<seq<Message>>)
    ensures var r := DrainMany(air, tx, qs, 0); Told(air, tx, qs, 0, Batched(r, 0), MasterAfter(r))
  {
  }

  lemma BatchedNext(r: seq<Drained>, d: Drained)
    ensures Batched(r + [d], |r| + 1) == Batched(r, |r|) + d.row
  {
    BatchedPrefix(r, d, |r|);
  }

  lemma {:induction false} BatchTold(air: Air, tx: uint16, qs: seq<seq<Message>>, n: nat)
    requires n <= |qs|
    ensures var r := DrainMany(air, tx, qs, n); Told(air, tx, qs, n, Batched(r, n), MasterAfter(r))
  {
    hide Told, DrainUe, DrainMany, MasterAfter, Batched;
    if n == 0 {
      NoneTold(air, tx, qs);
    } else {
      BatchTold(air, tx, qs, n - 1);
      var r := DrainMany(air, tx, qs, n - 1);
      DrainManyNext(air, tx, qs, n - 1);
      BatchedNext(r, DrainUe(air, tx, qs[n - 1], MasterAfter(r), [], []));
      MoreTold(air, tx, qs, n - 1, Batched(r, n - 1), MasterAfter(r));
    }
  }

  /** A batch has one frame exactly when the first well-formed packet queued does not carry
      0xFFFF, or every well-formed one does, or the first other frame is late, or none of its
      packets finds room behind those of 0xFFFF. */
  lemma BatchOneFrame(air: Air, tx: uint16, qs: seq<seq<Message>>)
    ensures var flat := Flat(qs, |qs|);
      OneFrame(air, Batched(Drain(air, tx, qs), |qs|)) <==>
        || FirstWord(air, flat) != Some(NO_MASTER)
        || FirstOther(air, flat).None?
        || !InWindow(air, tx, FirstOther(air, flat).value)
        || !SomeJoins(air, qs, |qs|, FirstOther(air, flat).value)
  {
    var r := Drain(air, tx, qs);
    var b, w := Batched(r, |qs|), MasterAfter(r);
    BatchTold(air, tx, qs, |qs|);
    OtherIsNotNone(air, Flat(qs, |qs|));
    if !HasWord(air, b, NO_MASTER) {
      assert AllWord(air, b, w);
    } else if FirstOther(air, Flat(qs, |qs|)).None? || !HasWord(air, b, w) {
      assert AllWord(air, b, NO_MASTER);
    } else {
      TwoWords(air, b, NO_MASTER, w);
    }
  }

  /** Every batched packet carries the master's frame word or 0xFFFF. */
  lemma BatchCarriesMaster(air: Air, tx: uint16, qs: seq<seq<Message>>)
    ensures var r := Drain(air, tx, qs); Carries(air, Batched(r, |qs|), MasterAfter(r))
  {
    BatchTold(air, tx, qs, |qs|);
  }
}
