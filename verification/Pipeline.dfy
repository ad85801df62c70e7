/** The uplink pipeline of one air interface, with the UE threads and the subframe or slot thread
    interleaved in any order. Every queue operation runs under the queue's mutex and is one
    step; a packet may arrive between any two steps of that thread, also between the get_queue
    and the requeue of the same packet. */
module Pipeline {
  import opened Wrappers
  import opened Words
  import opened Frames
  import opened UplinkMessages
  import opened RingQueue
  import opened Dequeue
  import opened Grouping

  const MIN_UE_NEM_ID := 2

  /** Where the thread is: before an iteration; about to call get_queue for UE i; holding the
      packet that get_queue returned; or grouping, with these packets left in the batch. */
  datatype Phase =
    | Idle
    | Scanning(tx: uint16, ue: nat, master: uint16)
    | Holding(tx: uint16, ue: nat, master: uint16, msg: Message)
    | Passing(left: seq<Message>)

  /** accepted and gone are histories: the packets that put_queue accepted from each UE, and
      those that left its queue for good. taken and dropped are those of the present call, or the
      last one: the packets that it has batched or thrown away, and those that it has pushed
      back in vain, because others had filled the queue in between. sent is the trace of
      groups handed to aggregation, freed that of buffers freed. */
  datatype State = State(queues: seq<seq<Message>>, accepted: seq<seq<Message>>, gone: seq<seq<Message>>,
                         rows: seq<seq<Message>>, phase: Phase, taken: seq<Message>,
                         dropped: seq<Message>, sent: seq<Group>, freed: seq<Message>)
  {
    /** The packet in the thread's hands, if it is from this UE. */
    function Hand(ue: nat): seq<Message> {
      if phase.Holding? && phase.ue == ue then [phase.msg] else []
    }

    function InHand(): seq<Message> {
      if phase.Holding? then [phase.msg] else []
    }

    function Left(): seq<Message> {
      if phase.Passing? then phase.left else []
    }

    /** The buffer of this UE's packet is freed. */
    function Free(ue: nat, m: Message): State
      requires ue < |gone|
    {
      this.(freed := freed + [m], gone := gone[ue := gone[ue] + [m]])
    }
  }

  datatype Action = Receive(nemId: int, data: seq<byte>) | Start(tx: uint16) | Continue

  function Empty(n: nat): (qs: seq<seq<Message>>)
    ensures |qs| == n && forall i :: 0 <= i < n ==> qs[i] == []
  {
    seq(n, _ => [])
  }

  function Initial(numUes: nat): State {
    State(Empty(numUes), Empty(numUes), Empty(numUes), Empty(numUes), Idle, [], [], [], [])
  }

  ghost predicate Shaped(s: State) {
    && |s.accepted| == |s.gone| == |s.rows| == |s.queues|
    && (s.phase.Scanning? ==> s.phase.ue <= |s.queues|)
    && (s.phase.Holding? ==> s.phase.ue < |s.queues|)
    && (s.phase.Idle? || s.phase.Passing? ==> s.rows == Empty(|s.queues|))
    && forall i :: 0 <= i < |s.queues| ==> |s.queues[i]| <= MAX_QUEUE_SIZE && |s.rows[i]| <= MAX_MSGS
  }

  /** oai_subframe_handle_msg_from_ue and oai_slot_handle_msg_from_ue. */
  function DoReceive(s: State, nemId: int, data: seq<byte>): (s': State)
    requires Shaped(s)
    ensures Shaped(s') && |s'.queues| == |s.queues|
  {
    var i := nemId - MIN_UE_NEM_ID;
    if |data| == DUMMY_LENGTH || i < 0 || i >= |s.queues| || |s.queues[i]| >= MAX_QUEUE_SIZE then s
    else
      var m := Message(Handle(i, |s.accepted[i]|), data);
      s.(queues := s.queues[i := s.queues[i] + [m]], accepted := s.accepted[i := s.accepted[i] + [m]])
  }

  /** get_queue for the next UE, or the end of the dequeue loop. */
  function DoGet(s: State): (s': State)
    requires Shaped(s) && s.phase.Scanning?
    ensures Shaped(s') && |s'.queues| == |s.queues|
  {
    var i := s.phase.ue;
    if i == |s.queues| then
      s.(phase := Passing(Flat(s.rows, |s.rows|)), rows := Empty(|s.queues|))
    else if s.queues[i] == [] then s.(phase := Scanning(s.phase.tx, i + 1, s.phase.master))
    else
      s.(queues := s.queues[i := s.queues[i][1..]],
         phase := Holding(s.phase.tx, i, s.phase.master, s.queues[i][0]))
  }

  /** What the loop does with the packet it got. */
  function DoHandle(air: Air, s: State): (s': State)
    requires Shaped(s) && s.phase.Holding?
    ensures Shaped(s') && |s'.queues| == |s.queues| && s'.phase.Scanning?
  {
    var Holding(tx, i, master, m) := s.phase;
    match Judge(air, tx, master, |s.rows[i]|, m)
    case Discard(now) => s.Free(i, m).(taken := s.taken + [m], phase := Scanning(tx, i, now))
    case Keep(now) =>
      s.(rows := s.rows[i := s.rows[i] + [m]], gone := s.gone[i := s.gone[i] + [m]],
         taken := s.taken + [m], phase := Scanning(tx, i, now))
    case PushBack =>
      if |s.queues[i]| >= MAX_QUEUE_SIZE then
        s.Free(i, m).(dropped := s.dropped + [m], phase := Scanning(tx, i + 1, master))
      else s.(queues := s.queues[i := [m] + s.queues[i]], phase := Scanning(tx, i + 1, master))
  }

  /** One pass of the grouping: a group is sent on, and its packets and the surplus are freed. */
  function DoPass(s: State): State
    requires s.phase.Passing?
  {
    var left := s.phase.left;
    var st := VisitAll(Scan(0, [], []), left);
    if st.id == 0 then s.(phase := Idle)
    else s.(sent := s.sent + [Group(st.id, st.group)], freed := s.freed + (st.overflow + st.group),
            phase := Passing(Others(left, st.id)))
  }

  /** A step of a run, or None where it cannot be taken. */
  function Step(air: Air, s: State, a: Action): (r: Option<State>)
    requires Shaped(s)
    ensures r.Some? ==> Shaped(r.value) && |r.value.queues| == |s.queues|
  {
    match a
    case Receive(nemId, data) => Some(DoReceive(s, nemId, data))
    case Start(tx) =>
      if s.phase.Idle? then Some(s.(phase := Scanning(tx, 0, NO_MASTER), taken := [], dropped := [])) else None
    case Continue =>
      match s.phase
      case Idle => None
      case Scanning(_, _, _) => Some(DoGet(s))
      case Holding(_, _, _, _) => Some(DoHandle(air, s))
      case Passing(_) => Some(DoPass(s))
  }

  // ---- Order: every queue is first in, first out ------------------------------------------

  /** Each UE's accepted packets are those that are gone, then the one in hand, then its queue;
      and the k-th accepted packet is the one that carries ticket k. */
  ghost predicate InOrder(s: State)
    requires Shaped(s)
  {
    forall i :: 0 <= i < |s.queues| ==> UeInOrder(s, i)
  }

  ghost predicate UeInOrder(s: State, i: nat)
    requires Shaped(s) && i < |s.queues|
  {
    && s.accepted[i] == s.gone[i] + s.Hand(i) + s.queues[i]
    && forall k :: 0 <= k < |s.accepted[i]| ==> s.accepted[i][k].handle == Handle(i, k)
  }

  lemma ReceiveInOrder(s: State, nemId: int, data: seq<byte>)
    requires Shaped(s) && InOrder(s)
    ensures Shaped(DoReceive(s, nemId, data)) && InOrder(DoReceive(s, nemId, data))
  {
    var s' := DoReceive(s, nemId, data);
    forall i | 0 <= i < |s.queues|
      ensures UeInOrder(s', i)
    {
      assert UeInOrder(s, i);
    }
  }

  lemma GetInOrder(s: State)
    requires Shaped(s) && s.phase.Scanning? && InOrder(s)
    ensures InOrder(DoGet(s))
  {
    var s' := DoGet(s);
    forall i | 0 <= i < |s.queues|
      ensures UeInOrder(s', i)
    {
      assert UeInOrder(s, i);
      if s.queues[i] != [] {
        assert s.queues[i] == [s.queues[i][0]] + s.queues[i][1..];
      }
    }
  }

  lemma HandleInOrder(air: Air, s: State)
    requires Shaped(s) && s.phase.Holding? && InOrder(s)
    ensures InOrder(DoHandle(air, s))
  {
    var s' := DoHandle(air, s);
    forall i | 0 <= i < |s.queues|
      ensures UeInOrder(s', i)
    {
      assert UeInOrder(s, i);
      assert s'.Hand(i) == [];
    }
  }

  lemma StepInOrder(air: Air, s: State, a: Action)
    requires Shaped(s) && InOrder(s) && Step(air, s, a).Some?
    ensures InOrder(Step(air, s, a).value)
  {
    if a.Receive? {
      ReceiveInOrder(s, a.nemId, a.data);
    } else if a.Continue? && s.phase.Scanning? {
      GetInOrder(s);
    } else if a.Continue? && s.phase.Holding? {
      HandleInOrder(air, s);
    } else {
      var s' := Step(air, s, a).value;
      forall i | 0 <= i < |s.queues|
        ensures UeInOrder(s', i)
      {
        assert UeInOrder(s, i);
      }
    }
  }

  // ---- Ownership: every accepted packet is in one place -----------------------------------

  /** How often m occurs in s. */
  function Times(s: seq<Message>, m: Message): nat { multiset(s)[m] }

  function TimesAll(qs: seq<seq<Message>>, n: nat, m: Message): nat
    requires n <= |qs|
  {
    if n == 0 then 0 else TimesAll(qs, n - 1, m) + Times(qs[n - 1], m)
  }

  lemma TimesConcat(s: seq<Message>, t: seq<Message>, m: Message)
    ensures Times(s + t, m) == Times(s, m) + Times(t, m)
  {
  }

  lemma {:induction false} TimesUpdate(qs: seq<seq<Message>>, i: nat, q: seq<Message>, n: nat, m: Message)
    requires n <= |qs| && i < |qs|
    ensures TimesAll(qs[i := q], n, m) == TimesAll(qs, n, m) + if i < n then Times(q, m) - Times(qs[i], m) else 0
  {
    if n > 0 {
      TimesUpdate(qs, i, q, n - 1, m);
    }
  }

  lemma {:induction false} TimesFlat(qs: seq<seq<Message>>, n: nat, m: Message)
    requires n <= |qs|
    ensures Times(Flat(qs, n), m) == TimesAll(qs, n, m)
  {
    if n > 0 {
      TimesFlat(qs, n - 1, m);
      TimesConcat(Flat(qs, n - 1), qs[n - 1], m);
    }
  }

  lemma {:induction false} TimesEmpty(n: nat, k: nat, m: Message)
    requires k <= n
    ensures TimesAll(Empty(n), k, m) == 0
  {
    if k > 0 {
      TimesEmpty(n, k - 1, m);
    }
  }

  /** In how many places m is: in queues, in the thread's hands, in the batch, among the packets
      left to group, and freed. */
  function Places(s: State, m: Message): nat {
    TimesAll(s.queues, |s.queues|, m) + Times(s.InHand(), m) + TimesAll(s.rows, |s.rows|, m)
      + Times(s.Left(), m) + Times(s.freed, m)
  }

  ghost predicate Conserved(s: State, m: Message) {
    TimesAll(s.accepted, |s.accepted|, m) == Places(s, m)
  }

  lemma ReceiveConserves(s: State, nemId: int, data: seq<byte>, m: Message)
    requires Shaped(s) && Conserved(s, m)
    ensures Conserved(DoReceive(s, nemId, data), m)
  {
    var i := nemId - MIN_UE_NEM_ID;
    if |data| == DUMMY_LENGTH || i < 0 || i >= |s.queues| || |s.queues[i]| >= MAX_QUEUE_SIZE {
    } else {
      var arrived := [Message(Handle(i, |s.accepted[i]|), data)];
      TimesUpdate(s.queues, i, s.queues[i] + arrived, |s.queues|, m);
      TimesConcat(s.queues[i], arrived, m);
      TimesUpdate(s.accepted, i, s.accepted[i] + arrived, |s.accepted|, m);
      TimesConcat(s.accepted[i], arrived, m);
    }
  }

  lemma GetConserves(s: State, m: Message)
    requires Shaped(s) && s.phase.Scanning? && Conserved(s, m)
    ensures Conserved(DoGet(s), m)
  {
    var i := s.phase.ue;
    if i == |s.queues| {
      TimesEmpty(|s.queues|, |s.queues|, m);
      TimesFlat(s.rows, |s.rows|, m);
    } else if s.queues[i] != [] {
      var q := s.queues[i];
      TimesUpdate(s.queues, i, q[1..], |s.queues|, m);
      assert q == [q[0]] + q[1..];
      TimesConcat([q[0]], q[1..], m);
    }
  }

  lemma HandleConserves(air: Air, s: State, m: Message)
    requires Shaped(s) && s.phase.Holding? && Conserved(s, m)
    ensures Conserved(DoHandle(air, s), m)
  {
    var i, held := s.phase.ue, [s.phase.msg];
    var v := Judge(air, s.phase.tx, s.phase.master, |s.rows[i]|, s.phase.msg);
    if v.Keep? {
      TimesUpdate(s.rows, i, s.rows[i] + held, |s.rows|, m);
      TimesConcat(s.rows[i], held, m);
    } else if v.PushBack? && |s.queues[i]| < MAX_QUEUE_SIZE {
      TimesUpdate(s.queues, i, held + s.queues[i], |s.queues|, m);
      TimesConcat(held, s.queues[i], m);
    } else {
      TimesConcat(s.freed, held, m);
    }
  }

  /** Each row holds its own UE's packets. */
  ghost predicate OwnRows(rows: seq<seq<Message>>) {
    forall j :: 0 <= j < |rows| ==> OwnRow(rows[j], j)
  }

  ghost predicate OwnRow(row: seq<Message>, j: nat) {
    forall k :: 0 <= k < |row| ==> row[k].handle.ue == j
  }

  /** The packets in the batch and those left to group have ids that the dequeue loop let
      through, and the rows of the batch hold each UE's own packets. */
  ghost predicate BatchWellFormed(air: Air, s: State)
    requires Shaped(s)
  {
    && OwnRows(s.rows)
    && (forall i :: 0 <= i < |s.rows| ==> AllWellFormed(air, s.rows[i]))
    && AllWellFormed(air, s.Left())
  }

  ghost predicate AllWellFormed(air: Air, ms: seq<Message>) {
    forall k :: 0 <= k < |ms| ==> WellFormed(air, ms[k])
  }

  lemma WellFormedNonzero(air: Air, p: seq<Message>)
    requires AllWellFormed(air, p)
    ensures NonzeroIds(p)
  {
  }

  lemma EightParts(s: seq<Message>)
    ensures FirstEight(s) + PastEight(s) == s
  {
  }

  /** What a pass over well-formed packets takes out. */
  lemma PassSplits(air: Air, left: seq<Message>)
    requires AllWellFormed(air, left)
    ensures var st := VisitAll(Scan(0, [], []), left);
      && (st.id == 0 <==> left == [])
      && (left != [] ==> st.group + st.overflow == Matching(left, st.id))
  {
    WellFormedNonzero(air, left);
    VisitAllFilters(left);
    if left != [] {
      EightParts(Matching(left, MessageId(left[0])));
    }
  }

  lemma TimesFreed(freed: seq<Message>, overflow: seq<Message>, group: seq<Message>, m: Message)
    ensures Times(freed + (overflow + group), m) == Times(freed, m) + Times(group + overflow, m)
    ensures Times(group, m) <= Times(group + overflow, m)
  {
    TimesConcat(group, overflow, m);
    TimesConcat(overflow, group, m);
    TimesConcat(freed, overflow + group, m);
  }

  lemma TimesFiltered(p: seq<Message>, id: uint16, m: Message)
    ensures Times(p, m) == Times(Matching(p, id), m) + Times(Others(p, id), m)
  {
    FilterParts(p, id);
  }

  lemma PassTimes(air: Air, left: seq<Message>, freed: seq<Message>, m: Message)
    requires AllWellFormed(air, left)
    ensures var st := VisitAll(Scan(0, [], []), left);
      st.id != 0 ==>
        Times(Others(left, st.id), m) + Times(freed + (st.overflow + st.group), m) == Times(left, m) + Times(freed, m)
  {
    var st := VisitAll(Scan(0, [], []), left);
    PassSplits(air, left);
    TimesFiltered(left, st.id, m);
    TimesFreed(freed, st.overflow, st.group, m);
  }

  lemma PassConserves(air: Air, s: State, m: Message)
    requires Shaped(s) && s.phase.Passing? && Conserved(s, m) && BatchWellFormed(air, s)
    ensures Conserved(DoPass(s), m)
  {
    assert s.Left() == s.phase.left;
    PassSplits(air, s.phase.left);
    PassTimes(air, s.phase.left, s.freed, m);
  }

  lemma {:induction false} FlatWellFormed(air: Air, rows: seq<seq<Message>>, n: nat)
    requires n <= |rows|
    requires forall i :: 0 <= i < |rows| ==> AllWellFormed(air, rows[i])
    ensures AllWellFormed(air, Flat(rows, n))
  {
    if n > 0 {
      FlatWellFormed(air, rows, n - 1);
      assert AllWellFormed(air, rows[n - 1]);
    }
  }

  lemma {:induction false} OthersWellFormed(air: Air, p: seq<Message>, id: uint16)
    requires AllWellFormed(air, p)
    ensures AllWellFormed(air, Others(p, id))
  {
    if p != [] {
      OthersWellFormed(air, p[..|p| - 1], id);
    }
  }

  lemma HandBelongs(s: State)
    requires Shaped(s) && InOrder(s) && s.phase.Holding?
    ensures s.phase.msg.handle == Handle(s.phase.ue, |s.gone[s.phase.ue]|)
  {
    var i := s.phase.ue;
    assert UeInOrder(s, i);
    assert s.accepted[i][|s.gone[i]|] == s.phase.msg;
  }

  lemma HandleBatchWellFormed(air: Air, s: State)
    requires Shaped(s) && InOrder(s) && s.phase.Holding? && BatchWellFormed(air, s)
    ensures BatchWellFormed(air, DoHandle(air, s))
  {
    hide FrameWord;
    HandBelongs(s);
  }

  lemma StepBatchWellFormed(air: Air, s: State, a: Action)
    requires Shaped(s) && InOrder(s) && BatchWellFormed(air, s) && Step(air, s, a).Some?
    ensures BatchWellFormed(air, Step(air, s, a).value)
  {
    hide DoHandle, WellFormed;
    match a
    case Continue =>
      match s.phase {
        case Scanning(_, _, _) => FlatWellFormed(air, s.rows, |s.rows|);
        case Holding(_, _, _, _) => HandleBatchWellFormed(air, s);
        case Passing(left) =>
          assert s.Left() == left;
          OthersWellFormed(air, left, VisitAll(Scan(0, [], []), left).id);
        case Idle =>
      }
    case _ =>
      assert Step(air, s, a).value.Left() == s.Left();
  }

  /** All that holds in every state of a run. */
  ghost predicate Safe(air: Air, s: State) {
    Shaped(s) && InOrder(s) && BatchWellFormed(air, s) && forall m :: Conserved(s, m)
  }

  lemma StepConserves(air: Air, s: State, a: Action, m: Message)
    requires Safe(air, s) && Step(air, s, a).Some?
    ensures Conserved(Step(air, s, a).value, m)
  {
    assert Conserved(s, m);
    if a.Receive? {
      ReceiveConserves(s, a.nemId, a.data, m);
    } else if a.Continue? && s.phase.Scanning? {
      GetConserves(s, m);
    } else if a.Continue? && s.phase.Holding? {
      HandleConserves(air, s, m);
    } else if a.Continue? && s.phase.Passing? {
      PassConserves(air, s, m);
    }
  }

  lemma StepSafe(air: Air, s: State, a: Action)
    requires Safe(air, s) && Step(air, s, a).Some?
    ensures Safe(air, Step(air, s, a).value)
  {
    StepInOrder(air, s, a);
    StepBatchWellFormed(air, s, a);
    forall m
      ensures Conserved(Step(air, s, a).value, m)
    {
      StepConserves(air, s, a, m);
    }
  }

  /** The state after a run that starts with empty queues, or None where the steps cannot be
      taken in this order. */
  function Follow(air: Air, numUes: nat, acts: seq<Action>): (r: Option<State>)
    ensures r.Some? ==> Shaped(r.value) && |r.value.queues| == numUes
  {
    if acts == [] then Some(Initial(numUes))
    else
      match Follow(air, numUes, acts[..|acts| - 1])
      case None => None
      case Some(s) =>
        Step(air, s, acts[|acts| - 1])
  }

  lemma {:induction false} AlwaysSafe(air: Air, numUes: nat, acts: seq<Action>)
    ensures Follow(air, numUes, acts).Some? ==> Safe(air, Follow(air, numUes, acts).value)
  {
    if acts == [] {
      forall m
        ensures Conserved(Initial(numUes), m)
      {
        TimesEmpty(numUes, numUes, m);
      }
    } else {
      AlwaysSafe(air, numUes, acts[..|acts| - 1]);
      var before := Follow(air, numUes, acts[..|acts| - 1]);
      if before.Some? && Step(air, before.value, acts[|acts| - 1]).Some? {
        StepSafe(air, before.value, acts[|acts| - 1]);
      }
    }
  }

  lemma {:induction false} TimesHandles(s: seq<Message>, ue: nat, m: Message)
    requires forall k :: 0 <= k < |s| ==> s[k].handle == Handle(ue, k)
    ensures Times(s, m) == if m.handle.ue == ue && m.handle.ticket < |s| && s[m.handle.ticket] == m then 1 else 0
  {
    if s != [] {
      var rest, last := s[..|s| - 1], s[|s| - 1];
      TimesHandles(rest, ue, m);
      TimesConcat(rest, [last], m);
      assert s == rest + [last];
    }
  }

  lemma {:induction false} TimesAccepted(s: State, n: nat, m: Message)
    requires Shaped(s) && InOrder(s) && n <= |s.accepted|
    ensures TimesAll(s.accepted, n, m) ==
      if m.handle.ue < n && m in s.accepted[m.handle.ue] then 1 else 0
  {
    if n > 0 {
      TimesAccepted(s, n - 1, m);
      assert UeInOrder(s, n - 1);
      TimesHandles(s.accepted[n - 1], n - 1, m);
    }
  }

  ghost predicate Accepted(s: State, m: Message) {
    m.handle.ue < |s.accepted| && m in s.accepted[m.handle.ue]
  }

  /** In every interleaving, each accepted packet is in exactly one place: its UE's queue, the
      thread's hands, the batch, the packets left to group, or freed once. Nothing else is
      anywhere. */
  lemma ExactlyOnePlace(air: Air, numUes: nat, acts: seq<Action>, m: Message)
    requires Follow(air, numUes, acts).Some?
    ensures var s := Follow(air, numUes, acts).value;
      Places(s, m) == if Accepted(s, m) then 1 else 0
  {
    AlwaysSafe(air, numUes, acts);
    var s := Follow(air, numUes, acts).value;
    assert Conserved(s, m);
    TimesAccepted(s, |s.accepted|, m);
  }

  /** How often m has been handed to aggregation. */
  function TimesSent(sent: seq<Group>, m: Message): nat {
    if sent == [] then 0 else TimesSent(sent[..|sent| - 1], m) + Times(sent[|sent| - 1].msgs, m)
  }

  lemma PassSent(s: State, m: Message)
    requires s.phase.Passing? && TimesSent(s.sent, m) <= Times(s.freed, m)
    ensures TimesSent(DoPass(s).sent, m) <= Times(DoPass(s).freed, m)
  {
    var st := VisitAll(Scan(0, [], []), s.phase.left);
    TimesFreed(s.freed, st.overflow, st.group, m);
    assert (s.sent + [Group(st.id, st.group)])[..|s.sent|] == s.sent;
  }

  lemma HandleSent(air: Air, s: State, m: Message)
    requires Shaped(s) && s.phase.Holding?
    ensures DoHandle(air, s).sent == s.sent && Times(s.freed, m) <= Times(DoHandle(air, s).freed, m)
  {
    TimesConcat(s.freed, [s.phase.msg], m);
  }

  lemma StepSent(air: Air, s: State, a: Action, m: Message)
    requires Shaped(s) && Step(air, s, a).Some? && TimesSent(s.sent, m) <= Times(s.freed, m)
    ensures var s' := Step(air, s, a).value; TimesSent(s'.sent, m) <= Times(s'.freed, m)
  {
    if a.Continue? && s.phase.Holding? {
      HandleSent(air, s, m);
    } else if a.Continue? && s.phase.Passing? {
      PassSent(s, m);
    }
  }

  lemma {:induction false} SentFreed(air: Air, numUes: nat, acts: seq<Action>, m: Message)
    requires Follow(air, numUes, acts).Some?
    ensures var s := Follow(air, numUes, acts).value; TimesSent(s.sent, m) <= Times(s.freed, m)
  {
    if acts != [] {
      SentFreed(air, numUes, acts[..|acts| - 1], m);
      StepSent(air, Follow(air, numUes, acts[..|acts| - 1]).value, acts[|acts| - 1], m);
    }
  }

  /** A packet is aggregated at most once, and only if it has been accepted. */
  lemma AggregatedAtMostOnce(air: Air, numUes: nat, acts: seq<Action>, m: Message)
    requires Follow(air, numUes, acts).Some?
    ensures var s := Follow(air, numUes, acts).value;
      TimesSent(s.sent, m) <= if Accepted(s, m) then 1 else 0
  {
    SentFreed(air, numUes, acts, m);
    ExactlyOnePlace(air, numUes, acts, m);
  }

  /** Packets leave a UE's queue for good in the order in which they were accepted, although
      the thread pushes packets back at the head while others arrive at the tail. */
  lemma FirstInFirstOut(air: Air, numUes: nat, acts: seq<Action>, i: nat)
    requires Follow(air, numUes, acts).Some? && i < numUes
    ensures var s := Follow(air, numUes, acts).value; s.gone[i] <= s.accepted[i]
  {
    AlwaysSafe(air, numUes, acts);
    assert UeInOrder(Follow(air, numUes, acts).value, i);
  }

  // ---- Order: the packets of one UE with one id -------------------------------------------

  /** The tickets of UE i's packets with this id, in order. */
  function Picked(s: seq<Message>, i: nat, id: uint16): seq<nat> {
    if s == [] then []
    else
      var m := s[|s| - 1];
      Picked(s[..|s| - 1], i, id) + if m.handle.ue == i && MessageId(m) == id then [m.handle.ticket] else []
  }

  /** The same over the groups that have been sent. */
  function PickedSent(sent: seq<Group>, i: nat, id: uint16): seq<nat> {
    if sent == [] then []
    else PickedSent(sent[..|sent| - 1], i, id) + Picked(sent[|sent| - 1].msgs, i, id)
  }

  function Join(sent: seq<nat>, left: seq<nat>, row: seq<nat>, hand: seq<nat>, queue: seq<nat>): seq<nat> {
    sent + left + row + hand + queue
  }

  /** All of them that are still around, in the order in which they will be sent. */
  function Trail(s: State, i: nat, id: uint16): seq<nat>
    requires Shaped(s) && i < |s.queues|
  {
    Join(PickedSent(s.sent, i, id), Picked(s.Left(), i, id), Picked(s.rows[i], i, id), Picked(s.Hand(i), i, id),
         Picked(s.queues[i], i, id))
  }

  lemma {:induction false} PickedConcat(s: seq<Message>, t: seq<Message>, i: nat, id: uint16)
    ensures Picked(s + t, i, id) == Picked(s, i, id) + Picked(t, i, id)
    decreases |t|
  {
    if t == [] {
      assert s + t == s;
    } else {
      assert (s + t)[..|s + t| - 1] == s + t[..|t| - 1];
      PickedConcat(s, t[..|t| - 1], i, id);
    }
  }

  lemma PickedSnoc(s: seq<Message>, m: Message, i: nat, id: uint16)
    ensures Picked(s + [m], i, id) ==
      Picked(s, i, id) + if m.handle.ue == i && MessageId(m) == id then [m.handle.ticket] else []
  {
    assert (s + [m])[..|s|] == s;
  }

  lemma {:induction false} PickedMatching(s: seq<Message>, i: nat, id: uint16, other: uint16)
    ensures Picked(Matching(s, id), i, other) == if id == other then Picked(s, i, id) else []
  {
    if s != [] {
      var rest, last := s[..|s| - 1], s[|s| - 1];
      PickedMatching(rest, i, id, other);
      if MessageId(last) == id {
        PickedSnoc(Matching(rest, id), last, i, other);
      } else {
        assert Matching(s, id) == Matching(rest, id);
      }
    }
  }

  lemma {:induction false} PickedOthers(s: seq<Message>, i: nat, id: uint16, other: uint16)
    ensures Picked(Others(s, id), i, other) == if id == other then [] else Picked(s, i, other)
  {
    if s != [] {
      var rest, last := s[..|s| - 1], s[|s| - 1];
      PickedOthers(rest, i, id, other);
      if MessageId(last) == id {
        assert Others(s, id) == Others(rest, id);
      } else {
        PickedSnoc(Others(rest, id), last, i, other);
      }
    }
  }

  lemma {:induction false} PickedForeign(s: seq<Message>, i: nat, id: uint16)
    requires forall k :: 0 <= k < |s| ==> s[k].handle.ue != i
    ensures Picked(s, i, id) == []
  {
    if s != [] {
      PickedForeign(s[..|s| - 1], i, id);
    }
  }

  /** The tickets of each row. */
  ghost function RowPicks(rows: seq<seq<Message>>, i: nat, id: uint16): (picks: seq<seq<nat>>)
    ensures |picks| == |rows| && forall j :: 0 <= j < |rows| ==> picks[j] == Picked(rows[j], i, id)
  {
    seq(|rows|, j requires 0 <= j < |rows| => Picked(rows[j], i, id))
  }

  ghost function Joined(picks: seq<seq<nat>>, n: nat): seq<nat>
    requires n <= |picks|
  {
    if n == 0 then [] else Joined(picks, n - 1) + picks[n - 1]
  }

  lemma {:induction false} PickedJoined(rows: seq<seq<Message>>, n: nat, i: nat, id: uint16)
    requires n <= |rows|
    ensures Picked(Flat(rows, n), i, id) == Joined(RowPicks(rows, i, id), n)
  {
    if n > 0 {
      PickedJoined(rows, n - 1, i, id);
      PickedConcat(Flat(rows, n - 1), rows[n - 1], i, id);
    }
  }

  lemma {:induction false} JoinedOnly(picks: seq<seq<nat>>, n: nat, i: nat)
    requires n <= |picks| && forall j :: 0 <= j < |picks| && j != i ==> picks[j] == []
    ensures Joined(picks, n) == if i < n then picks[i] else []
  {
    if n > 0 {
      JoinedOnly(picks, n - 1, i);
    }
  }

  lemma PickedFlat(rows: seq<seq<Message>>, i: nat, id: uint16)
    requires OwnRows(rows) && i < |rows|
    ensures Picked(Flat(rows, |rows|), i, id) == Picked(rows[i], i, id)
  {
    forall j | 0 <= j < |rows| && j != i
      ensures RowPicks(rows, i, id)[j] == []
    {
      assert OwnRow(rows[j], j);
      PickedForeign(rows[j], i, id);
    }
    PickedJoined(rows, |rows|, i, id);
    JoinedOnly(RowPicks(rows, i, id), |rows|, i);
  }

  lemma IncreasingParts(a: seq<nat>, b: seq<nat>, c: seq<nat>)
    requires Increasing(a + b + c)
    ensures Increasing(a + c)
  {
    var s, t := a + b + c, a + c;
    forall k, l | 0 <= k < l < |t|
      ensures t[k] < t[l]
    {
      var k', l' := if k < |a| then k else k + |b|, if l < |a| then l else l + |b|;
      assert t[k] == s[k'] && t[l] == s[l'];
    }
  }

  /** What is still around is in ticket order, and packets to come get later tickets. */
  ghost predicate Rising(trail: seq<nat>, next: nat) { Increasing(trail + [next]) }

  lemma RisingNext(trail: seq<nat>, next: nat)
    requires Rising(trail, next)
    ensures Rising(trail, next + 1) && Rising(trail + [next], next + 1)
  {
    assert forall k :: 0 <= k < |trail| ==> trail[k] == (trail + [next])[k] < (trail + [next])[|trail|];
    assert forall k, l :: 0 <= k < l < |trail| ==> trail[k] == (trail + [next])[k] < (trail + [next])[l] == trail[l];
  }

  lemma JoinAppend(sent: seq<nat>, left: seq<nat>, row: seq<nat>, hand: seq<nat>, queue: seq<nat>, x: seq<nat>)
    ensures Join(sent, left, row, hand, queue + x) == Join(sent, left, row, hand, queue) + x
  {
  }

  /** Keeping the packet in hand, or pushing it back, moves nothing. */
  lemma JoinHand(sent: seq<nat>, left: seq<nat>, row: seq<nat>, hand: seq<nat>, queue: seq<nat>)
    ensures Join(sent, left, row + hand, [], queue) == Join(sent, left, row, hand, queue)
    ensures Join(sent, left, row, [], hand + queue) == Join(sent, left, row, hand, queue)
  {
  }

  lemma JoinDrop(sent: seq<nat>, left: seq<nat>, row: seq<nat>, hand: seq<nat>, queue: seq<nat>, next: nat)
    requires Rising(Join(sent, left, row, hand, queue), next)
    ensures Rising(Join(sent, left, row, [], queue), next)
  {
    var before := sent + left + row;
    assert Join(sent, left, row, hand, queue) + [next] == before + hand + (queue + [next]);
    IncreasingParts(before, hand, queue + [next]);
    assert Join(sent, left, row, [], queue) + [next] == before + (queue + [next]);
  }

  /** What arrives for UE i in a step that leaves everything else of it alone. */
  ghost predicate Arrived(s: State, s': State, i: nat, ms: seq<Message>)
    requires Shaped(s) && Shaped(s') && i < |s.queues| == |s'.queues|
  {
    && s'.sent == s.sent && s'.Left() == s.Left() && s'.rows[i] == s.rows[i] && s'.Hand(i) == s.Hand(i)
    && s'.queues[i] == s.queues[i] + ms && |s'.accepted[i]| == |s.accepted[i]| + |ms|
    && |ms| <= 1 && (ms != [] ==> ms[0].handle == Handle(i, |s.accepted[i]|))
  }

  /** x is the ticket of an arrival, if it has the id, and more says whether there is one. */
  lemma JoinArrive(sent: seq<nat>, left: seq<nat>, row: seq<nat>, hand: seq<nat>, queue: seq<nat>, x: seq<nat>,
                   next: nat, more: nat)
    requires Rising(Join(sent, left, row, hand, queue), next) && more <= 1 && (x == [] || (x == [next] && more == 1))
    ensures Rising(Join(sent, left, row, hand, queue + x), next + more)
  {
    var trail := Join(sent, left, row, hand, queue);
    JoinAppend(sent, left, row, hand, queue, x);
    RisingNext(trail, next);
    assert trail + [] == trail;
  }

  lemma PickedArrival(ms: seq<Message>, i: nat, id: uint16, next: nat)
    requires |ms| <= 1 && (ms != [] ==> ms[0].handle == Handle(i, next))
    ensures Picked(ms, i, id) == [] || (Picked(ms, i, id) == [next] && |ms| == 1)
  {
    assert ms != [] ==> ms[..0] == [];
  }

  lemma ArrivedTrail(s: State, s': State, i: nat, id: uint16, ms: seq<Message>)
    requires Shaped(s) && Shaped(s') && i < |s.queues| == |s'.queues| && Arrived(s, s', i, ms)
    requires Rising(Trail(s, i, id), |s.accepted[i]|)
    ensures Rising(Trail(s', i, id), |s'.accepted[i]|)
  {
    PickedConcat(s.queues[i], ms, i, id);
    PickedArrival(ms, i, id, |s.accepted[i]|);
    JoinArrive(PickedSent(s.sent, i, id), Picked(s.Left(), i, id), Picked(s.rows[i], i, id), Picked(s.Hand(i), i, id),
               Picked(s.queues[i], i, id), Picked(ms, i, id), |s.accepted[i]|, |ms|);
  }

  lemma ReceiveTrail(s: State, nemId: int, data: seq<byte>, i: nat, id: uint16)
    requires Shaped(s) && i < |s.queues| && Rising(Trail(s, i, id), |s.accepted[i]|)
    ensures var s' := DoReceive(s, nemId, data); Rising(Trail(s', i, id), |s'.accepted[i]|)
  {
    var s' := DoReceive(s, nemId, data);
    var ms := if s' != s && nemId - MIN_UE_NEM_ID == i then [Message(Handle(i, |s.accepted[i]|), data)] else [];
    assert s.queues[i] + [] == s.queues[i];
    ArrivedTrail(s, s', i, id, ms);
  }

  lemma GetTrail(air: Air, s: State, i: nat, id: uint16)
    requires Shaped(s) && s.phase.Scanning? && BatchWellFormed(air, s) && i < |s.queues|
    ensures Trail(DoGet(s), i, id) == Trail(s, i, id)
  {
    var s' := DoGet(s);
    var sent, row, queue := PickedSent(s.sent, i, id), Picked(s.rows[i], i, id), Picked(s.queues[i], i, id);
    assert Trail(s, i, id) == Join(sent, [], row, [], queue);
    if s.phase.ue == |s.queues| {
      PickedFlat(s.rows, i, id);
      assert s'.Hand(i) == [] && s'.rows[i] == [];
      JoinFlat(sent, row, queue);
    } else if s.phase.ue == i && s.queues[i] != [] {
      GetHead(s.queues[i], i, id);
      JoinHand(sent, [], row, Picked([s.queues[i][0]], i, id), Picked(s.queues[i][1..], i, id));
    } else {
      assert s'.Hand(i) == [] && s'.queues[i] == s.queues[i];
    }
  }

  lemma GetHead(q: seq<Message>, i: nat, id: uint16)
    requires q != []
    ensures Picked(q, i, id) == Picked([q[0]], i, id) + Picked(q[1..], i, id)
  {
    assert q == [q[0]] + q[1..];
    PickedConcat([q[0]], q[1..], i, id);
  }

  lemma JoinFlat(sent: seq<nat>, row: seq<nat>, queue: seq<nat>)
    ensures Join(sent, row, [], [], queue) == Join(sent, [], row, [], queue)
  {
    assert sent + row + [] == sent + [] + row;
  }

  /** What becomes of UE i's packet in hand: batched, pushed back or freed. */
  ghost predicate Handled(s: State, s': State, i: nat)
    requires Shaped(s) && Shaped(s') && i < |s.queues| == |s'.queues|
  {
    && s'.sent == s.sent && s'.Left() == s.Left() == [] && s'.accepted == s.accepted && s'.Hand(i) == []
    && ((s'.rows[i] == s.rows[i] + s.Hand(i) && s'.queues[i] == s.queues[i])
        || (s'.rows[i] == s.rows[i] && s'.queues[i] == s.Hand(i) + s.queues[i])
        || (s'.rows[i] == s.rows[i] && s'.queues[i] == s.queues[i]))
  }

  lemma HandledTrail(s: State, s': State, i: nat, id: uint16)
    requires Shaped(s) && Shaped(s') && i < |s.queues| == |s'.queues| && Handled(s, s', i)
    requires Rising(Trail(s, i, id), |s.accepted[i]|)
    ensures Rising(Trail(s', i, id), |s'.accepted[i]|)
  {
    var sent, row, queue := PickedSent(s.sent, i, id), Picked(s.rows[i], i, id), Picked(s.queues[i], i, id);
    var hand := Picked(s.Hand(i), i, id);
    PickedConcat(s.rows[i], s.Hand(i), i, id);
    PickedConcat(s.Hand(i), s.queues[i], i, id);
    JoinHand(sent, [], row, hand, queue);
    JoinDrop(sent, [], row, hand, queue, |s.accepted[i]|);
  }

  lemma HandleTrail(air: Air, s: State, i: nat, id: uint16)
    requires Shaped(s) && s.phase.Holding? && i < |s.queues| && Rising(Trail(s, i, id), |s.accepted[i]|)
    ensures var s' := DoHandle(air, s); Rising(Trail(s', i, id), |s'.accepted[i]|)
  {
    hide Judge;
    if s.phase.ue != i {
      assert s.Hand(i) == [] && s.rows[i] + [] == s.rows[i];
    }
    HandledTrail(s, DoHandle(air, s), i, id);
  }

  lemma {:induction false} PickedSentOne(sent: seq<Group>, g: Group, i: nat, id: uint16)
    ensures PickedSent(sent + [g], i, id) == PickedSent(sent, i, id) + Picked(g.msgs, i, id)
  {
    assert (sent + [g])[..|sent|] == sent;
  }

  /** What a pass takes out of the packets that are left, for one UE and id. */
  lemma PassPicks(air: Air, left: seq<Message>, i: nat, id: uint16)
    requires AllWellFormed(air, left) && left != []
    ensures var st := VisitAll(Scan(0, [], []), left);
      var group, over := Picked(st.group, i, id), Picked(st.overflow, i, id);
      var others := Picked(Others(left, st.id), i, id);
      if st.id == id then Picked(left, i, id) == group + over && others == []
      else group == [] && others == Picked(left, i, id)
  {
    var st := VisitAll(Scan(0, [], []), left);
    PassSplits(air, left);
    PickedConcat(st.group, st.overflow, i, id);
    PickedMatching(left, i, st.id, id);
    PickedOthers(left, i, st.id, id);
  }

  /** A group takes the first packets of its id out of those that are left. */
  lemma PassTrail(air: Air, s: State, i: nat, id: uint16)
    requires Shaped(s) && s.phase.Passing? && BatchWellFormed(air, s) && i < |s.queues|
    requires Rising(Trail(s, i, id), |s.accepted[i]|)
    ensures Rising(Trail(DoPass(s), i, id), |s.accepted[i]|)
  {
    var left, s' := s.phase.left, DoPass(s);
    var st := VisitAll(Scan(0, [], []), left);
    var sent, queue := PickedSent(s.sent, i, id), Picked(s.queues[i], i, id);
    PassSplits(air, left);
    assert s.Left() == left && s.rows[i] == [];
    if left != [] {
      PassPicks(air, left, i, id);
      PickedSentOne(s.sent, Group(st.id, st.group), i, id);
      var group := Picked(st.group, i, id);
      assert Trail(s', i, id) == Join(sent + group, Picked(Others(left, st.id), i, id), [], [], queue);
      if st.id == id {
        PassJoin(sent, group, Picked(st.overflow, i, id), queue, |s.accepted[i]|);
      } else {
        assert sent + [] == sent;
      }
    }
  }

  lemma PassJoin(sent: seq<nat>, group: seq<nat>, over: seq<nat>, queue: seq<nat>, next: nat)
    requires Rising(Join(sent, group + over, [], [], queue), next)
    ensures Rising(Join(sent + group, [], [], [], queue), next)
  {
    assert Join(sent, group + over, [], [], queue) + [next] == sent + group + over + (queue + [next]);
    IncreasingParts(sent + group, over, queue + [next]);
    assert Join(sent + group, [], [], [], queue) + [next] == sent + group + (queue + [next]);
  }

  lemma {:induction false} AlwaysRising(air: Air, numUes: nat, acts: seq<Action>, i: nat, id: uint16)
    requires Follow(air, numUes, acts).Some? && i < numUes
    ensures var s := Follow(air, numUes, acts).value; Rising(Trail(s, i, id), |s.accepted[i]|)
  {
    if acts != [] {
      var before, a := Follow(air, numUes, acts[..|acts| - 1]).value, acts[|acts| - 1];
      AlwaysRising(air, numUes, acts[..|acts| - 1], i, id);
      AlwaysSafe(air, numUes, acts[..|acts| - 1]);
      StepRising(air, before, a, i, id);
    }
  }

  lemma StartTrail(air: Air, s: State, a: Action, i: nat, id: uint16)
    requires Shaped(s) && a.Start? && Step(air, s, a).Some? && i < |s.queues|
    ensures Trail(Step(air, s, a).value, i, id) == Trail(s, i, id)
  {
  }

  lemma StepRising(air: Air, s: State, a: Action, i: nat, id: uint16)
    requires Shaped(s) && BatchWellFormed(air, s) && Step(air, s, a).Some? && i < |s.queues|
    requires Rising(Trail(s, i, id), |s.accepted[i]|)
    ensures var s' := Step(air, s, a).value; Rising(Trail(s', i, id), |s'.accepted[i]|)
  {
    if a.Receive? {
      ReceiveTrail(s, a.nemId, a.data, i, id);
    } else if a.Start? {
      StartTrail(air, s, a, i, id);
    } else if s.phase.Scanning? {
      GetTrail(air, s, i, id);
    } else if s.phase.Holding? {
      HandleTrail(air, s, i, id);
    } else {
      PassTrail(air, s, i, id);
    }
  }

  /** In every interleaving, the packets of one UE with one id reach aggregation in the order
      in which the UE sent them. */
  lemma AggregatedInOrder(air: Air, numUes: nat, acts: seq<Action>, i: nat, id: uint16)
    requires Follow(air, numUes, acts).Some? && i < numUes
    ensures Increasing(PickedSent(Follow(air, numUes, acts).value.sent, i, id))
  {
    AlwaysRising(air, numUes, acts, i, id);
    var s := Follow(air, numUes, acts).value;
    var trail, sent := Trail(s, i, id) + [|s.accepted[i]|], PickedSent(s.sent, i, id);
    assert forall k :: 0 <= k < |sent| ==> sent[k] == trail[k];
  }

  // ---- A call that no packet interrupts ----------------------------------------------------

  ghost predicate Dequeuing(s: State, i: nat) {
    Shaped(s) && i < |s.queues| && (s.phase.Scanning? || s.phase.Holding?)
  }

  /** The state when the thread has run on alone until it is done with UE i. */
  function Settle(air: Air, s: State, i: nat): (r: State)
    requires Dequeuing(s, i)
    ensures Shaped(r) && |r.queues| == |s.queues| && (r.phase.Scanning? || r.phase.Holding?)
    decreases if s.phase.ue != i then 0 else 1 + 2 * |s.queues[i]| + if s.phase.Holding? then 1 else 0
  {
    if s.phase.ue != i then s
    else if s.phase.Scanning? then Settle(air, DoGet(s), i)
    else Settle(air, DoHandle(air, s), i)
  }

  lemma {:induction false} SettleDrains(air: Air, s: State, i: nat)
    requires Dequeuing(s, i) && s.phase.Scanning? && s.phase.ue == i
    ensures var d, r := DrainUe(air, s.phase.tx, s.queues[i], s.phase.master, s.rows[i], s.freed), Settle(air, s, i);
      && r.queues == s.queues[i := d.queue] && r.rows == s.rows[i := d.row] && r.freed == d.freed
      && r.phase == Scanning(s.phase.tx, i + 1, d.master)
    decreases |s.queues[i]|
  {
    hide Judge;
    if s.queues[i] != [] {
      var h := DoGet(s);
      var n := DoHandle(air, h);
      assert Settle(air, s, i) == Settle(air, n, i);
      var v := Judge(air, s.phase.tx, s.phase.master, |s.rows[i]|, s.queues[i][0]);
      if v.PushBack? {
        assert [s.queues[i][0]] + s.queues[i][1..] == s.queues[i];
      } else {
        SettleDrains(air, n, i);
        assert n.queues == s.queues[i := s.queues[i][1..]];
      }
    }
  }

  /** The freed packets of earlier UEs stay in front. */
  lemma {:induction false} DrainFreed(air: Air, tx: uint16, q: seq<Message>, master: uint16, row: seq<Message>,
                                      before: seq<Message>, freed: seq<Message>)
    ensures var d := DrainUe(air, tx, q, master, row, freed);
      DrainUe(air, tx, q, master, row, before + freed) == d.(freed := before + d.freed)
    decreases |q|
  {
    if q != [] {
      var v := Judge(air, tx, master, |row|, q[0]);
      if v.Discard? {
        DrainFreed(air, tx, q[1..], v.master, row, before, freed + [q[0]]);
        assert before + (freed + [q[0]]) == before + freed + [q[0]];
      } else if v.Keep? {
        DrainFreed(air, tx, q[1..], v.master, row + [q[0]], before, freed);
      }
    }
  }

  lemma DrainAfterFreed(air: Air, tx: uint16, q: seq<Message>, master: uint16, before: seq<Message>)
    ensures var d, e := DrainUe(air, tx, q, master, [], before), DrainUe(air, tx, q, master, [], []);
      d.queue == e.queue && d.row == e.row && d.master == e.master
  {
    DrainFreed(air, tx, q, master, [], before, []);
    assert before + [] == before;
  }

  /** The same for the first n UEs. */
  function SettleAll(air: Air, s: State, n: nat): (r: State)
    requires Shaped(s) && n <= |s.queues| && (s.phase.Scanning? || s.phase.Holding?)
    ensures Shaped(r) && |r.queues| == |s.queues| && (r.phase.Scanning? || r.phase.Holding?)
  {
    if n == 0 then s else Settle(air, SettleAll(air, s, n - 1), n - 1)
  }

  /** In r the queues and the batch are as the drains d of the first UEs leave those of s. */
  ghost predicate DrainedAs(s: State, r: State, d: seq<Drained>)
    requires Shaped(s) && Shaped(r) && |d| <= |s.queues| == |r.queues| && s.phase.Scanning?
  {
    && r.phase == Scanning(s.phase.tx, |d|, MasterAfter(d))
    && (forall k :: 0 <= k < |s.queues| ==> r.queues[k] == if k < |d| then d[k].queue else s.queues[k])
    && (forall k :: 0 <= k < |s.queues| ==> r.rows[k] == if k < |d| then d[k].row else [])
  }

  lemma OneMoreDrained(air: Air, s: State, r: State, d: seq<Drained>)
    requires Shaped(s) && Shaped(r) && |d| < |s.queues| == |r.queues| && s.phase.Scanning? && DrainedAs(s, r, d)
    ensures DrainedAs(s, Settle(air, r, |d|), d + [DrainUe(air, s.phase.tx, s.queues[|d|], MasterAfter(d), [], [])])
  {
    SettleDrains(air, r, |d|);
    DrainAfterFreed(air, s.phase.tx, s.queues[|d|], MasterAfter(d), r.freed);
  }

  /** Without arrivals the steps of the thread compute Dequeue.DrainMany. */
  lemma {:induction false} SettleAllDrains(air: Air, s: State, n: nat)
    requires Shaped(s) && n <= |s.queues| && s.phase.Scanning? && s.phase.ue == 0 && s.phase.master == NO_MASTER
    requires s.rows == Empty(|s.queues|)
    ensures DrainedAs(s, SettleAll(air, s, n), DrainMany(air, s.phase.tx, s.queues, n))
  {
    if n > 0 {
      SettleAllDrains(air, s, n - 1);
      OneMoreDrained(air, s, SettleAll(air, s, n - 1), DrainMany(air, s.phase.tx, s.queues, n - 1));
    }
  }
}
