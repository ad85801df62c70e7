/** The runs of Pipeline against what happens outside of it: which packets get in, which steps can
    be taken, and what becomes of a batch. */
module PipelineRuns {
  import opened Wrappers
  import opened Words
  import opened Frames
  import opened UplinkMessages
  import opened RingQueue
  import opened Dequeue
  import opened BatchFrames
  import opened Grouping
  import opened Pipeline
  import opened PipelineCalls

  // ---- Arrivals ---------------------------------------------------------------------------

  lemma FollowLast(air: Air, numUes: nat, acts: seq<Action>)
    requires acts != [] && Follow(air, numUes, acts).Some?
    ensures Follow(air, numUes, acts[..|acts| - 1]).Some?
    ensures Step(air, Follow(air, numUes, acts[..|acts| - 1]).value, acts[|acts| - 1]) == Follow(air, numUes, acts)
  {
  }

  /** The packets that are sent under UE i's id, numbered from 2 on, and are no keep-alives of four
      bytes. */
  predicate SentBy(a: Action, i: nat) {
    a.Receive? && a.nemId == i + 2 && |a.data| != 4
  }

  /** Those of a run that find fewer than 512 packets in UE i's queue, in order. */
  function Admitted(air: Air, numUes: nat, acts: seq<Action>, i: nat): seq<seq<byte>>
    requires Follow(air, numUes, acts).Some? && i < numUes
  {
    if acts == [] then []
    else
      var before, a := acts[..|acts| - 1], acts[|acts| - 1];
      Admitted(air, numUes, before, i)
        + if SentBy(a, i) && |Follow(air, numUes, before).value.queues[i]| < 512 then [a.data] else []
  }

  ghost predicate Accepts(accepted: seq<Message>, i: nat, data: seq<seq<byte>>) {
    |accepted| == |data| && forall k :: 0 <= k < |data| ==> accepted[k] == Message(Handle(i, k), data[k])
  }

  lemma StepAccepts(air: Air, s: State, a: Action, i: nat)
    requires Shaped(s) && Step(air, s, a).Some? && i < |s.queues|
    ensures Step(air, s, a).value.accepted[i] == s.accepted[i]
      + if SentBy(a, i) && |s.queues[i]| < 512 then [Message(Handle(i, |s.accepted[i]|), a.data)] else []
  {
    hide Judge;
  }

  /** In every interleaving, what is accepted from a UE is what the UE sent, in order and byte by
      byte, but for the packets that found 512 in its queue. */
  lemma {:induction false} AcceptedExactly(air: Air, numUes: nat, acts: seq<Action>, i: nat)
    requires Follow(air, numUes, acts).Some? && i < numUes
    ensures Accepts(Follow(air, numUes, acts).value.accepted[i], i, Admitted(air, numUes, acts, i))
  {
    if acts != [] {
      hide Step;
      AcceptedExactly(air, numUes, acts[..|acts| - 1], i);
      FollowLast(air, numUes, acts);
      StepAccepts(air, Follow(air, numUes, acts[..|acts| - 1]).value, acts[|acts| - 1], i);
    }
  }

  /** Everything that UE i sends in a run. */
  function SentData(acts: seq<Action>, i: nat): seq<seq<byte>> {
    if acts == [] then []
    else
      SentData(acts[..|acts| - 1], i) + if SentBy(acts[|acts| - 1], i) then [acts[|acts| - 1].data] else []
  }

  /** A UE that sends 512 packets at most has all of them accepted, whatever the others do. */
  lemma {:induction false} AllAccepted(air: Air, numUes: nat, acts: seq<Action>, i: nat)
    requires Follow(air, numUes, acts).Some? && i < numUes && |SentData(acts, i)| <= 512
    ensures Accepts(Follow(air, numUes, acts).value.accepted[i], i, SentData(acts, i))
  {
    AcceptedExactly(air, numUes, acts, i);
    NoneRefused(air, numUes, acts, i);
  }

  lemma {:induction false} NoneRefused(air: Air, numUes: nat, acts: seq<Action>, i: nat)
    requires Follow(air, numUes, acts).Some? && i < numUes && |SentData(acts, i)| <= 512
    ensures Admitted(air, numUes, acts, i) == SentData(acts, i)
  {
    if acts != [] {
      var before := acts[..|acts| - 1];
      NoneRefused(air, numUes, before, i);
      AcceptedExactly(air, numUes, before, i);
      AlwaysSafe(air, numUes, before);
      assert UeInOrder(Follow(air, numUes, before).value, i);
    }
  }

  // ---- The interleavings are there --------------------------------------------------------

  /** In every state of a run a packet can arrive; the thread can start a call exactly when it is
      between two, and go on exactly when it is not. */
  lemma CanGoOn(air: Air, numUes: nat, acts: seq<Action>, a: Action)
    requires Follow(air, numUes, acts).Some?
    ensures Follow(air, numUes, acts + [a]).Some? <==>
      match a
      case Receive(_, _) => true
      case Start(_) => Follow(air, numUes, acts).value.phase.Idle?
      case Continue => !Follow(air, numUes, acts).value.phase.Idle?
  {
    assert (acts + [a])[..|acts|] == acts;
  }

  function Alone(n: nat): seq<Action> {
    seq(n, _ => Continue)
  }

  /** From every state of a run the thread can finish its call, by its own steps. */
  lemma {:induction false} CanFinish(air: Air, numUes: nat, acts: seq<Action>) returns (n: nat)
    requires Follow(air, numUes, acts).Some?
    ensures Follow(air, numUes, acts + Alone(n)).Some? && Follow(air, numUes, acts + Alone(n)).value.phase.Idle?
    decreases Work(Follow(air, numUes, acts).value)
  {
    var s := Follow(air, numUes, acts).value;
    if s.phase.Idle? {
      n := 0;
      assert acts + Alone(0) == acts;
    } else {
      CanGoOn(air, numUes, acts, Continue);
      AlwaysSafe(air, numUes, acts);
      StepWorks(air, s, Continue);
      assert (acts + [Continue])[..|acts|] == acts;
      n := CanFinish(air, numUes, acts + [Continue]);
      assert acts + [Continue] + Alone(n) == acts + Alone(n + 1);
      n := n + 1;
    }
  }

  // ---- What becomes of a batch ------------------------------------------------------------

  /** The call has come to the end of its dequeue loop. */
  ghost predicate Collected(s: State)
    requires Shaped(s)
  {
    s.phase.Scanning? && s.phase.ue == |s.queues|
  }

  /** What a batch p is turned into: so far sent, and still to come. */
  ghost predicate SendsBatch(s: State, t: State, p: seq<Message>)
    requires Shaped(t)
  {
    if t.phase.Idle? then t.sent == s.sent + Passes(p)
    else if t.phase.Passing? then t.sent + Passes(t.phase.left) == s.sent + Passes(p)
    else Collected(t) && t.sent == s.sent && Flat(t.rows, |t.rows|) == p
  }

  lemma PassSends(air: Air, s: State)
    requires Shaped(s) && s.phase.Passing? && AllWellFormed(air, s.phase.left)
    ensures var t, left := DoPass(s), s.phase.left;
      if left == [] then t.phase.Idle? && t.sent == s.sent
      else t.phase.Passing? && t.sent + Passes(t.phase.left) == s.sent + Passes(left)
  {
    hide Matching, Others, VisitAll, FirstEight, FrameWord;
    var left := s.phase.left;
    WellFormedNonzero(air, left);
    VisitAllFilters(left);
    if left != [] {
      OthersShrink(left, MessageId(left[0]));
      var g, rest := Group(MessageId(left[0]), FirstEight(Matching(left, MessageId(left[0])))), DoPass(s).phase.left;
      assert s.sent + [g] + Passes(rest) == s.sent + ([g] + Passes(rest));
    }
  }

  lemma StepSends(air: Air, s: State, t: State, a: Action, p: seq<Message>)
    requires Safe(air, t) && SendsBatch(s, t, p) && Step(air, t, a).Some? && !a.Start?
    ensures SendsBatch(s, Step(air, t, a).value, p)
  {
    if a.Continue? && t.phase.Passing? {
      assert t.Left() == t.phase.left;
      PassSends(air, t);
      assert t.phase.left == [] ==> t.sent + [] == t.sent;
    }
  }

  lemma {:induction false} AlwaysSends(air: Air, numUes: nat, before: seq<Action>, acts: seq<Action>)
    requires Follow(air, numUes, before).Some? && Collected(Follow(air, numUes, before).value)
    requires Follow(air, numUes, before + acts).Some? && forall k :: 0 <= k < |acts| ==> !acts[k].Start?
    ensures var s, t := Follow(air, numUes, before).value, Follow(air, numUes, before + acts).value;
      SendsBatch(s, t, Flat(s.rows, |s.rows|))
    decreases |acts|
  {
    hide Follow, Step, Flat, Passes;
    if acts == [] {
      assert before + acts == before;
    } else {
      hide SendsBatch, Collected;
      var all := before + acts;
      assert all[..|all| - 1] == before + acts[..|acts| - 1];
      FollowLast(air, numUes, all);
      AlwaysSends(air, numUes, before, acts[..|acts| - 1]);
      AlwaysSafe(air, numUes, all[..|all| - 1]);
      var s := Follow(air, numUes, before).value;
      StepSends(air, s, Follow(air, numUes, all[..|all| - 1]).value, acts[|acts| - 1], Flat(s.rows, |s.rows|));
    }
  }

  /** In every interleaving, what a call hands to aggregation is the stable group-by of the batch
      that its dequeue loop has collected. */
  lemma CallSends(air: Air, numUes: nat, before: seq<Action>, acts: seq<Action>)
    requires Follow(air, numUes, before).Some? && Collected(Follow(air, numUes, before).value)
    requires Follow(air, numUes, before + acts).Some? && forall k :: 0 <= k < |acts| ==> !acts[k].Start?
    ensures var s, t := Follow(air, numUes, before).value, Follow(air, numUes, before + acts).value;
      t.phase.Idle? ==> s.sent <= t.sent && IsGroupBy(Flat(s.rows, |s.rows|), t.sent[|s.sent|..])
  {
    hide Follow, Flat, Passes, IsGroupBy;
    var s := Follow(air, numUes, before).value;
    var p := Flat(s.rows, |s.rows|);
    AlwaysSends(air, numUes, before, acts);
    PassesGroupBy(p);
    assert (s.sent + Passes(p))[|s.sent|..] == Passes(p);
  }

  // ---- A call without arrivals ------------------------------------------------------------

  lemma OneMore(air: Air, numUes: nat, acts: seq<Action>, n: nat)
    ensures var s := Follow(air, numUes, acts + Alone(n));
      Follow(air, numUes, acts + Alone(n + 1)) == if s.None? then None else Step(air, s.value, Continue)
  {
    assert acts + Alone(n + 1) == acts + Alone(n) + [Continue];
    assert (acts + Alone(n) + [Continue])[..|acts + Alone(n)|] == acts + Alone(n);
  }

  /** The thread's steps until it is done with UE i. */
  lemma {:induction false} FollowSettle(air: Air, numUes: nat, acts: seq<Action>, n: nat, i: nat) returns (m: nat)
    requires Follow(air, numUes, acts + Alone(n)).Some? && Dequeuing(Follow(air, numUes, acts + Alone(n)).value, i)
    ensures Follow(air, numUes, acts + Alone(m)) == Some(Settle(air, Follow(air, numUes, acts + Alone(n)).value, i))
    decreases var s := Follow(air, numUes, acts + Alone(n)).value;
      if s.phase.ue != i then 0 else 1 + 2 * |s.queues[i]| + if s.phase.Holding? then 1 else 0
  {
    var s := Follow(air, numUes, acts + Alone(n)).value;
    m := n;
    if s.phase.ue == i {
      OneMore(air, numUes, acts, n);
      m := FollowSettle(air, numUes, acts, n + 1, i);
    }
  }

  lemma {:induction false} FollowSettleAll(air: Air, numUes: nat, acts: seq<Action>, k: nat) returns (m: nat)
    requires Follow(air, numUes, acts).Some? && k <= numUes
    requires var s := Follow(air, numUes, acts).value; s.phase.Scanning? || s.phase.Holding?
    ensures Follow(air, numUes, acts + Alone(m)) == Some(SettleAll(air, Follow(air, numUes, acts).value, k))
  {
    hide Follow, Settle;
    if k == 0 {
      m := 0;
      assert acts + Alone(0) == acts;
    } else {
      var n := FollowSettleAll(air, numUes, acts, k - 1);
      m := FollowSettle(air, numUes, acts, n, k - 1);
    }
  }

  lemma {:induction false} RowsFlat(rows: seq<seq<Message>>, d: seq<Drained>, n: nat)
    requires n <= |rows| && n <= |d| && forall k :: 0 <= k < n ==> rows[k] == d[k].row
    ensures Flat(rows, n) == Batched(d, n)
  {
    if n > 0 {
      RowsFlat(rows, d, n - 1);
    }
  }

  /** A step into the dequeue loop or on in it sends nothing. */
  lemma CollectSends(air: Air, s: State)
    requires Shaped(s) && Step(air, s, Continue).Some?
    requires var t := Step(air, s, Continue).value; t.phase.Scanning? || t.phase.Holding?
    ensures (s.phase.Scanning? || s.phase.Holding?) && Step(air, s, Continue).value.sent == s.sent
  {
    hide Judge;
  }

  lemma {:induction false} SettledSent(air: Air, numUes: nat, acts: seq<Action>, k: nat)
    requires Follow(air, numUes, acts + Alone(k)).Some? && Follow(air, numUes, acts).Some?
    requires var s := Follow(air, numUes, acts + Alone(k)).value; s.phase.Scanning? || s.phase.Holding?
    ensures Follow(air, numUes, acts + Alone(k)).value.sent == Follow(air, numUes, acts).value.sent
  {
    hide Follow, Step;
    if k == 0 {
      assert acts + Alone(0) == acts;
    } else {
      OneMore(air, numUes, acts, k - 1);
      CollectSends(air, Follow(air, numUes, acts + Alone(k - 1)).value);
      SettledSent(air, numUes, acts, k - 1);
    }
  }

  ghost predicate OutOfLoop(s: State)
    requires Shaped(s)
  {
    Collected(s) || s.phase.Passing? || s.phase.Idle?
  }

  lemma StepStays(air: Air, s: State)
    requires Shaped(s) && OutOfLoop(s) && Step(air, s, Continue).Some?
    ensures var t := Step(air, s, Continue).value; t.queues == s.queues && OutOfLoop(t)
  {
  }

  /** Once it has collected, the thread leaves the queues alone. */
  lemma {:induction false} QueuesStay(air: Air, numUes: nat, acts: seq<Action>, m: nat)
    requires Follow(air, numUes, acts).Some? && Follow(air, numUes, acts + Alone(m)).Some?
    requires OutOfLoop(Follow(air, numUes, acts).value)
    ensures var s, t := Follow(air, numUes, acts).value, Follow(air, numUes, acts + Alone(m)).value;
      t.queues == s.queues && OutOfLoop(t)
  {
    hide Follow, Step, OutOfLoop;
    if m == 0 {
      assert acts + Alone(0) == acts;
    } else {
      OneMore(air, numUes, acts, m - 1);
      QueuesStay(air, numUes, acts, m - 1);
      StepStays(air, Follow(air, numUes, acts + Alone(m - 1)).value);
    }
  }

  /** The dequeue loop of a call that no packet interrupts. */
  lemma CollectAlone(air: Air, numUes: nat, acts: seq<Action>, tx: uint16) returns (k: nat)
    requires Follow(air, numUes, acts).Some? && Follow(air, numUes, acts).value.phase.Idle?
    ensures Follow(air, numUes, acts + [Start(tx)] + Alone(k)).Some?
    ensures var s, c := Follow(air, numUes, acts).value, Follow(air, numUes, acts + [Start(tx)] + Alone(k)).value;
      var d := Drain(air, tx, s.queues);
      Collected(c) && c.queues == Left(d) && Flat(c.rows, |c.rows|) == Batched(d, numUes) && c.sent == s.sent
  {
    hide SettleAll, DrainMany, Judge;
    var s, before := Follow(air, numUes, acts).value, acts + [Start(tx)];
    CanGoOn(air, numUes, acts, Start(tx));
    assert before[..|acts|] == acts;
    var s0 := Follow(air, numUes, before).value;
    hide Follow;
    k := FollowSettleAll(air, numUes, before, numUes);
    SettleAllDrains(air, s0, numUes);
    RowsFlat(Follow(air, numUes, before + Alone(k)).value.rows, Drain(air, tx, s.queues), numUes);
    SettledSent(air, numUes, before, k);
  }

  /** A call that no packet interrupts, from its start in any state of a run: it leaves the queues
      as the sequential model says, and sends the stable group-by of that model's batch. */
  lemma CallAlone(air: Air, numUes: nat, acts: seq<Action>, tx: uint16) returns (n: nat)
    requires Follow(air, numUes, acts).Some? && Follow(air, numUes, acts).value.phase.Idle?
    ensures Follow(air, numUes, acts + [Start(tx)] + Alone(n)).Some?
    ensures var s, t := Follow(air, numUes, acts).value, Follow(air, numUes, acts + [Start(tx)] + Alone(n)).value;
      var d := Drain(air, tx, s.queues);
      && t.phase.Idle? && t.queues == Left(d)
      && s.sent <= t.sent && IsGroupBy(Batched(d, numUes), t.sent[|s.sent|..])
  {
    hide Follow, Drain, IsGroupBy;
    var k := CollectAlone(air, numUes, acts, tx);
    var mid := acts + [Start(tx)] + Alone(k);
    var m := CanFinish(air, numUes, mid);
    CallSends(air, numUes, mid, Alone(m));
    QueuesStay(air, numUes, mid, m);
    assert mid + Alone(m) == acts + [Start(tx)] + Alone(k + m);
    n := k + m;
  }

  // ---- A packet lost to a failed requeue --------------------------------------------------

  /** The call has left the UEs that have lost a packet. */
  ghost predicate LossLeft(s: State) {
    s.phase.Scanning? || s.phase.Holding? ==> forall m :: m in s.dropped ==> m.handle.ue < s.phase.ue
  }

  lemma StepLossLeft(air: Air, s: State, a: Action)
    requires Shaped(s) && InOrder(s) && LossLeft(s) && Step(air, s, a).Some?
    ensures LossLeft(Step(air, s, a).value)
  {
    hide Judge, UeInOrder;
    if s.phase.Holding? {
      HandBelongs(s);
    }
  }

  /** After a failed requeue the call gets no further packet from that UE. */
  lemma {:induction false} AlwaysLossLeft(air: Air, numUes: nat, acts: seq<Action>)
    requires Follow(air, numUes, acts).Some?
    ensures LossLeft(Follow(air, numUes, acts).value)
  {
    if acts != [] {
      hide Step, LossLeft;
      AlwaysLossLeft(air, numUes, acts[..|acts| - 1]);
      AlwaysSafe(air, numUes, acts[..|acts| - 1]);
      StepLossLeft(air, Follow(air, numUes, acts[..|acts| - 1]).value, acts[|acts| - 1]);
    }
  }

  /** An arrival changes nothing but the queue it goes into. */
  lemma ArrivalOnly(s: State, nemId: int, data: seq<byte>)
    requires Shaped(s)
    ensures var s' := DoReceive(s, nemId, data);
      && s' == s.(queues := s'.queues, accepted := s'.accepted)
      && forall i :: 0 <= i < |s.queues| && i != nemId - 2 ==>
           s'.queues[i] == s.queues[i] && s'.accepted[i] == s.accepted[i]
  {
  }

  /** After a packet the loop gets another one from the same UE, unless the packet is well formed
      and of another frame than the master: then it goes on to the next UE, whether there is
      room to push the packet back or not. */
  lemma HandleMoves(air: Air, s: State)
    requires Shaped(s) && s.phase.Holding?
    ensures var m, master, t := s.phase.msg, s.phase.master, DoHandle(air, s);
      && t.phase.Scanning? && t.phase.tx == s.phase.tx
      && t.phase.ue == (if WellFormed(air, m) && master != 0xFFFF && FrameWord(air, m) != Some(master)
                        then s.phase.ue + 1 else s.phase.ue)
      && t.phase.master == (if master == 0xFFFF && WellFormed(air, m) then FrameWord(air, m).value else master)
  {
    hide FrameWord;
  }
}
