/** What one dequeue call does while packets arrive: which frames it takes, what it puts into the
    batch, and how long it lasts. These are results about the runs of Pipeline. */
module PipelineCalls {
  import opened Wrappers
  import opened Words
  import opened Frames
  import opened UplinkMessages
  import opened RingQueue
  import opened Dequeue
  import opened Grouping
  import opened Pipeline

  // ---- The frames that a call takes -------------------------------------------------------

  ghost predicate AllIn(s: seq<Message>, t: seq<Message>) {
    forall m :: m in s ==> m in t
  }

  /** What a call has taken and dropped so far, told by its master word: a packet is dropped only
      when there is a master, and belongs to another frame. */
  ghost predicate Told(air: Air, taken: seq<Message>, dropped: seq<Message>, master: uint16) {
    && Mastered(air, taken, master)
    && forall m :: m in dropped ==> master != NO_MASTER && WellFormed(air, m) && FrameWord(air, m) != Some(master)
  }

  /** The thread's master word tells what the call has taken and dropped, and the batch and the
      packets left to group are part of what it has taken. */
  ghost predicate OneCall(air: Air, s: State)
    requires Shaped(s)
  {
    && (exists master :: Told(air, s.taken, s.dropped, master))
    && (s.phase.Scanning? || s.phase.Holding? ==> Told(air, s.taken, s.dropped, s.phase.master))
    && (forall i :: 0 <= i < |s.rows| ==> AllIn(s.rows[i], s.taken))
    && AllIn(s.Left(), s.taken)
  }

  lemma {:induction false} FlatIn(rows: seq<seq<Message>>, n: nat, t: seq<Message>)
    requires n <= |rows| && forall i :: 0 <= i < |rows| ==> AllIn(rows[i], t)
    ensures AllIn(Flat(rows, n), t)
  {
    if n > 0 {
      FlatIn(rows, n - 1, t);
      assert AllIn(rows[n - 1], t);
    }
  }

  lemma {:induction false} OthersIn(p: seq<Message>, id: uint16)
    ensures AllIn(Others(p, id), p)
  {
    if p != [] {
      OthersIn(p[..|p| - 1], id);
    }
  }

  lemma HandleOneCall(air: Air, s: State)
    requires Shaped(s) && s.phase.Holding? && OneCall(air, s)
    ensures OneCall(air, DoHandle(air, s))
  {
    var i, m, s' := s.phase.ue, s.phase.msg, DoHandle(air, s);
    JudgeMastered(air, s.phase.tx, s.phase.master, |s.rows[i]|, s.taken, m);
    JudgeMaster(air, s.phase.tx, s.phase.master, |s.rows[i]|, m);
    assert Told(air, s'.taken, s'.dropped, s'.phase.master);
    forall k | 0 <= k < |s'.rows|
      ensures AllIn(s'.rows[k], s'.taken)
    {
      assert AllIn(s.rows[k], s.taken);
    }
  }

  lemma StepOneCall(air: Air, s: State, a: Action)
    requires Shaped(s) && OneCall(air, s) && Step(air, s, a).Some?
    ensures OneCall(air, Step(air, s, a).value)
  {
    var s' := Step(air, s, a).value;
    if a.Start? {
      assert Told(air, [], [], NO_MASTER);
    } else if a.Continue? && s.phase.Holding? {
      HandleOneCall(air, s);
    } else if a.Continue? && s.phase.Scanning? {
      FlatIn(s.rows, |s.rows|, s.taken);
    } else if a.Continue? {
      OthersIn(s.phase.left, VisitAll(Scan(0, [], []), s.phase.left).id);
    }
  }

  lemma {:induction false} AlwaysOneCall(air: Air, numUes: nat, acts: seq<Action>)
    requires Follow(air, numUes, acts).Some?
    ensures OneCall(air, Follow(air, numUes, acts).value)
  {
    if acts == [] {
      assert Told(air, [], [], NO_MASTER);
    } else {
      AlwaysOneCall(air, numUes, acts[..|acts| - 1]);
      StepOneCall(air, Follow(air, numUes, acts[..|acts| - 1]).value, acts[|acts| - 1]);
    }
  }

  /** A dropped packet is of another frame than one that was taken. */
  lemma DroppedMixes(air: Air, taken: seq<Message>, dropped: seq<Message>, master: uint16)
    requires Told(air, taken, dropped, master) && dropped != []
    ensures !OneFrame(air, taken + dropped)
  {
    var m := dropped[0];
    assert m in dropped;
    var h :| h in taken && WellFormed(air, h) && FrameWord(air, h) == Some(master);
    assert h in taken + dropped && m in taken + dropped;
    assert HasWord(air, taken + dropped, FrameWord(air, m).value);
    TwoWords(air, taken + dropped, master, FrameWord(air, m).value);
  }

  /** The words that the packets a call takes may carry: their first one is not 0xFFFF, or all
      of them are. */
  ghost predicate Unmixed(air: Air, taken: seq<Message>) {
    FirstWord(air, taken) != Some(NO_MASTER) || AllWord(air, taken, NO_MASTER)
  }

  /** In every interleaving, the well-formed packets that a call removes from the queues belong
      to one frame exactly when it has dropped none, and the first of them does not carry
      0xFFFF or all of them do. Under the second condition alone those in the batch and those
      left to group belong to one frame. */
  lemma CallOneFrame(air: Air, numUes: nat, acts: seq<Action>)
    requires Follow(air, numUes, acts).Some?
    ensures var s := Follow(air, numUes, acts).value;
      && (OneFrame(air, s.taken + s.dropped) <==> s.dropped == [] && Unmixed(air, s.taken))
      && (OneFrame(air, s.taken) <==> Unmixed(air, s.taken))
      && (Unmixed(air, s.taken) ==> OneFrame(air, Flat(s.rows, |s.rows|) + s.Left()))
  {
    AlwaysOneCall(air, numUes, acts);
    var s := Follow(air, numUes, acts).value;
    var master :| Told(air, s.taken, s.dropped, master);
    MasteredOneFrame(air, s.taken, master);
    FlatIn(s.rows, |s.rows|, s.taken);
    if s.dropped == [] {
      assert s.taken + s.dropped == s.taken;
    } else {
      DroppedMixes(air, s.taken, s.dropped, master);
    }
    if OneFrame(air, s.taken) {
      var word :| AllWord(air, s.taken, word);
      assert AllWord(air, Flat(s.rows, |s.rows|) + s.Left(), word);
    }
  }

  // ---- The batch: the first eight good packets --------------------------------------------

  /** The packets of UE i. */
  function From(s: seq<Message>, i: nat): seq<Message> {
    if s == [] then []
    else From(s[..|s| - 1], i) + if s[|s| - 1].handle.ue == i then [s[|s| - 1]] else []
  }

  lemma FromSnoc(s: seq<Message>, m: Message, i: nat)
    ensures From(s + [m], i) == From(s, i) + if m.handle.ue == i then [m] else []
  {
    assert (s + [m])[..|s|] == s;
  }

  /** While the call is dequeuing, each row holds the first eight good packets of its UE that
      have been taken. */
  ghost predicate RowsTold(air: Air, s: State)
    requires Shaped(s)
  {
    s.phase.Scanning? || s.phase.Holding? ==>
      forall i :: 0 <= i < |s.rows| ==> s.rows[i] == FirstEight(GoodOnes(air, s.phase.tx, From(s.taken, i)))
  }

  lemma FirstEightSnoc(s: seq<Message>, m: Message)
    ensures FirstEight(s + [m]) == if |FirstEight(s)| == MAX_MSGS then FirstEight(s) else FirstEight(s) + [m]
  {
    assert |s| >= MAX_MSGS ==> (s + [m])[..MAX_MSGS] == s[..MAX_MSGS];
  }

  lemma JudgeGood(air: Air, tx: uint16, master: uint16, kept: nat, m: Message)
    ensures var v := Judge(air, tx, master, kept, m);
      (v.Keep? ==> Good(air, tx, m) && kept != MAX_MSGS) && (v.Discard? ==> !Good(air, tx, m) || kept == MAX_MSGS)
  {
  }

  lemma JudgeRow(air: Air, tx: uint16, master: uint16, done: seq<Message>, m: Message)
    ensures var row := FirstEight(GoodOnes(air, tx, done));
      var v, row' := Judge(air, tx, master, |row|, m), FirstEight(GoodOnes(air, tx, done + [m]));
      (v.Discard? ==> row' == row) && (v.Keep? ==> row' == row + [m])
  {
    hide Judge, Good, GoodOnes, FirstEight;
    var good := GoodOnes(air, tx, done);
    GoodSnoc(air, tx, done, m);
    FirstEightSnoc(good, m);
    JudgeGood(air, tx, master, |FirstEight(good)|, m);
    assert good + [] == good;
  }

  lemma HandleRows(air: Air, s: State)
    requires Shaped(s) && InOrder(s) && s.phase.Holding? && RowsTold(air, s)
    ensures RowsTold(air, DoHandle(air, s))
  {
    var ue, m, s' := s.phase.ue, s.phase.msg, DoHandle(air, s);
    HandBelongs(s);
    JudgeRow(air, s.phase.tx, s.phase.master, From(s.taken, ue), m);
    forall i | 0 <= i < |s.rows|
      ensures s'.rows[i] == FirstEight(GoodOnes(air, s.phase.tx, From(s'.taken, i)))
    {
      FromSnoc(s.taken, m, i);
      assert From(s.taken, i) + [] == From(s.taken, i);
    }
  }

  /** In every interleaving, while a call is dequeuing, each UE's row of the batch holds exactly
      the first eight well-formed packets in the window that the call has taken from it. */
  lemma {:induction false} AlwaysRowsTold(air: Air, numUes: nat, acts: seq<Action>)
    requires Follow(air, numUes, acts).Some?
    ensures RowsTold(air, Follow(air, numUes, acts).value)
  {
    if acts != [] {
      var before, a := Follow(air, numUes, acts[..|acts| - 1]).value, acts[|acts| - 1];
      AlwaysRowsTold(air, numUes, acts[..|acts| - 1]);
      AlwaysSafe(air, numUes, acts[..|acts| - 1]);
      hide DoHandle, FirstEight, GoodOnes;
      if a.Continue? && before.phase.Holding? {
        HandleRows(air, before);
      }
    }
  }

  // ---- How long a call takes --------------------------------------------------------------

  lemma {:induction false} TotalUpdate(qs: seq<seq<Message>>, i: nat, q: seq<Message>, n: nat)
    requires n <= |qs| && i < |qs|
    ensures Total(qs[i := q], n) == Total(qs, n) + if i < n then |q| - |qs[i]| else 0
  {
    if n > 0 {
      TotalUpdate(qs, i, q, n - 1);
    }
  }

  lemma {:induction false} TotalGrows(qs: seq<seq<Message>>, k: nat, n: nat)
    requires k <= n <= |qs|
    ensures Total(qs, k) <= Total(qs, n)
  {
    if k < n {
      TotalGrows(qs, k, n - 1);
    }
  }

  lemma {:induction false} FlatAtMost(rows: seq<seq<Message>>, n: nat)
    requires n <= |rows| && forall i :: 0 <= i < |rows| ==> |rows[i]| <= MAX_MSGS
    ensures |Flat(rows, n)| <= MAX_MSGS * n
  {
    if n > 0 {
      FlatAtMost(rows, n - 1);
    }
  }

  /** The packets that the dequeue loop has still to get. */
  function Ahead(s: State): nat
    requires Shaped(s) && (s.phase.Scanning? || s.phase.Holding?)
  {
    TotalGrows(s.queues, s.phase.ue, |s.queues|);
    Total(s.queues, |s.queues|) - Total(s.queues, s.phase.ue)
  }

  /** A bound on the steps that the thread has still to take in this call, if no packet arrives:
      two for each packet ahead, one for each UE, and one pass for each packet in the batch. */
  function Work(s: State): nat
    requires Shaped(s)
  {
    var n := |s.queues|;
    match s.phase
    case Idle => 0
    case Scanning(_, ue, _) => 2 * Ahead(s) + (n - ue) + 1 + (MAX_MSGS * n + 1)
    case Holding(_, ue, _, _) => 2 * Ahead(s) + 1 + (n - ue) + 1 + (MAX_MSGS * n + 1)
    case Passing(left) => |left| + 1
  }

  lemma GetWorks(s: State)
    requires Shaped(s) && s.phase.Scanning?
    ensures Work(DoGet(s)) < Work(s)
  {
    var i := s.phase.ue;
    if i == |s.queues| {
      FlatAtMost(s.rows, |s.rows|);
    } else if s.queues[i] != [] {
      TotalUpdate(s.queues, i, s.queues[i][1..], |s.queues|);
      TotalUpdate(s.queues, i, s.queues[i][1..], i);
    }
  }

  lemma HandleWorks(air: Air, s: State)
    requires Shaped(s) && s.phase.Holding?
    ensures Work(DoHandle(air, s)) < Work(s)
  {
    var i, q := s.phase.ue, [s.phase.msg] + s.queues[s.phase.ue];
    TotalUpdate(s.queues, i, q, |s.queues|);
    TotalUpdate(s.queues, i, q, i + 1);
    TotalGrows(s.queues, i + 1, |s.queues|);
  }

  lemma PassWorks(air: Air, s: State)
    requires Shaped(s) && s.phase.Passing? && AllWellFormed(air, s.phase.left)
    ensures Work(DoPass(s)) < Work(s)
  {
    var left := s.phase.left;
    WellFormedNonzero(air, left);
    VisitAllFilters(left);
    if left != [] {
      OthersShrink(left, MessageId(left[0]));
    }
  }

  lemma ReceiveWorks(s: State, nemId: int, data: seq<byte>)
    requires Shaped(s)
    ensures var s', n := DoReceive(s, nemId, data), |s.queues|;
      Work(s') <= Work(s) + 2 * (Total(s'.accepted, n) - Total(s.accepted, n))
  {
    var s', i := DoReceive(s, nemId, data), nemId - MIN_UE_NEM_ID;
    if s' != s {
      TotalUpdate(s.accepted, i, s'.accepted[i], |s.queues|);
      TotalUpdate(s.queues, i, s'.queues[i], |s.queues|);
      if s.phase.Scanning? || s.phase.Holding? {
        TotalUpdate(s.queues, i, s'.queues[i], s.phase.ue);
      }
    }
  }

  /** The thread's own steps. */
  function Continues(acts: seq<Action>): nat {
    if acts == [] then 0 else Continues(acts[..|acts| - 1]) + if acts[|acts| - 1].Continue? then 1 else 0
  }

  lemma StepWorks(air: Air, s: State, a: Action)
    requires Safe(air, s) && Step(air, s, a).Some? && !a.Start?
    ensures var s', n := Step(air, s, a).value, |s.queues|;
      Work(s') + (if a.Continue? then 1 else 0) <= Work(s) + 2 * (Total(s'.accepted, n) - Total(s.accepted, n))
  {
    if a.Receive? {
      ReceiveWorks(s, a.nemId, a.data);
    } else if s.phase.Scanning? {
      GetWorks(s);
    } else if s.phase.Holding? {
      HandleWorks(air, s);
    } else {
      assert s.Left() == s.phase.left;
      PassWorks(air, s);
    }
  }

  /** The steps of a call so far, and those ahead, against the packets that were queued when it
      started and those accepted since. */
  lemma {:induction false} CallWorks(air: Air, numUes: nat, before: seq<Action>, tx: uint16, acts: seq<Action>)
    requires Follow(air, numUes, before + [Start(tx)] + acts).Some?
    requires forall k :: 0 <= k < |acts| ==> !acts[k].Start?
    ensures Follow(air, numUes, before).Some?
    ensures var s, t := Follow(air, numUes, before).value, Follow(air, numUes, before + [Start(tx)] + acts).value;
      Continues(acts) + Work(t)
        <= 2 * (Total(s.queues, numUes) + Total(t.accepted, numUes) - Total(s.accepted, numUes)) + 9 * numUes + 2
    decreases |acts|
  {
    var all := before + [Start(tx)] + acts;
    if acts == [] {
      assert all[..|all| - 1] == before;
    } else {
      assert all[..|all| - 1] == before + [Start(tx)] + acts[..|acts| - 1];
      CallWorks(air, numUes, before, tx, acts[..|acts| - 1]);
      AlwaysSafe(air, numUes, all[..|all| - 1]);
      StepWorks(air, Follow(air, numUes, all[..|all| - 1]).value, acts[|acts| - 1]);
    }
  }

  /** However packets arrive, a call gets out of its dequeue loop, and is done, within two steps
      for each packet that was queued when it started or was accepted since, and a number of
      steps for each UE. */
  lemma CallEnds(air: Air, numUes: nat, before: seq<Action>, tx: uint16, acts: seq<Action>)
    requires Follow(air, numUes, before + [Start(tx)] + acts).Some?
    requires forall k :: 0 <= k < |acts| ==> !acts[k].Start?
    ensures Follow(air, numUes, before).Some?
    ensures var s, t := Follow(air, numUes, before).value, Follow(air, numUes, before + [Start(tx)] + acts).value;
      var packets := Total(s.queues, numUes) + Total(t.accepted, numUes) - Total(s.accepted, numUes);
      && (Continues(acts) > 2 * packets + numUes ==> !t.phase.Scanning? && !t.phase.Holding?)
      && (Continues(acts) > 2 * packets + 9 * numUes + 1 ==> t.phase.Idle?)
  {
    CallWorks(air, numUes, before, tx, acts);
  }
}
