/** The barrier between oai_subframe_task and oai_slot_task in NSA mode: a mutex, a condition
    variable and the global sf_slot_tick. Each section that runs under the mutex is one step,
    so a run is a sequence of steps of the two tasks in any order. */
module Barrier {
  import opened Wrappers
  import opened Frames

  /** BOTH_LTE_NR_DONE */
  const BOTH_DONE := 3

  /** LTE_PROXY_DONE and NR_PROXY_DONE */
  function Bit(air: Air): nat { if air.Lte? then 1 else 2 }

  /** How many times a thread's clock ticks between two barrier passes: one subframe, two slots. */
  function TicksPerPass(air: Air): nat { if air.Lte? then 1 else 2 }

  function Other(air: Air): Air { if air.Lte? then Nr else Lte }

  /** Where a task is: in its loop, with so many ticks since its last pass; in
      pthread_cond_wait; or woken, with the loop condition still to be checked. */
  datatype Place = Running(ticks: nat) | Waiting | Woken

  /** overtakes counts the passes that found the tick already complete on arrival. */
  datatype Task = Task(place: Place, passes: nat, overtakes: nat, clock: (nat, nat))

  datatype State = State(lte: Task, nr: Task, tick: nat)
  {
    function Get(air: Air): Task { if air.Lte? then lte else nr }

    function With(air: Air, task: Task): State {
      if air.Lte? then this.(lte := task) else this.(nr := task)
    }
  }

  datatype Action = Tick(air: Air) | Arrive(air: Air) | Spurious(air: Air) | Recheck(air: Air)

  const START := Task(Running(0), 0, 0, (0, 0))
  const INITIAL := State(START, START, 0)

  /** tick |= bit */
  function SetBit(tick: nat, bit: nat): nat
    requires bit > 0
  {
    if tick / bit % 2 == 1 then tick else tick + bit
  }

  function Pass(task: Task): Task {
    task.(place := Running(0), passes := task.passes + 1)
  }

  /** pthread_cond_broadcast, as the other task sees it. */
  function Wake(task: Task): Task {
    if task.place.Waiting? then task.(place := Woken) else task
  }

  /** A step of a run, or None where it cannot be taken. */
  function Step(s: State, a: Action): Option<State> {
    var task, other := s.Get(a.air), s.Get(Other(a.air));
    match a
    case Tick(air) =>
      if task.place.Running? && task.place.ticks < TicksPerPass(air)
         && task.clock.0 < SFN_COUNT && task.clock.1 < air.Units() then
        Some(s.With(air, task.(place := Running(task.place.ticks + 1),
                               clock := CounterStep(air, task.clock.0, task.clock.1))))
      else None
    case Arrive(air) =>
      if task.place == Running(TicksPerPass(air)) then
        var tick := SetBit(s.tick, Bit(air));
        if tick == BOTH_DONE then
          var over := if s.tick == BOTH_DONE then 1 else 0;
          Some(s.With(air, Pass(task).(overtakes := task.overtakes + over))
                .With(Other(air), Wake(other)).(tick := tick))
        else Some(s.With(air, task.(place := Waiting)).(tick := tick))
      else None
    case Spurious(air) =>
      if task.place.Waiting? then Some(s.With(air, task.(place := Woken))) else None
    case Recheck(air) =>
      if task.place.Woken? then
        if s.tick == BOTH_DONE then Some(s.With(air, Pass(task)).(tick := 0))
        else Some(s.With(air, task.(place := Waiting)))
      else None
  }

  /** The state after a run, or None where the steps cannot be taken in this order. */
  function Follow(acts: seq<Action>): Option<State> {
    if acts == [] then Some(INITIAL)
    else
      match Follow(acts[..|acts| - 1])
      case Some(s) => Step(s, acts[|acts| - 1])
      case None => None
  }

  // ---- Invariant --------------------------------------------------------------------------

  /** At most one task is away from its loop, and the tick says which: 0 none, 1 LTE, 2 NR,
      3 one of them, and it has been woken. */
  ghost predicate TickTellsWaiter(s: State) {
    && s.tick <= BOTH_DONE
    && (s.tick == 0 ==> s.lte.place.Running? && s.nr.place.Running?)
    && (s.tick == 1 ==> !s.lte.place.Running? && s.nr.place.Running?)
    && (s.tick == 2 ==> s.lte.place.Running? && !s.nr.place.Running?)
    && (s.tick == BOTH_DONE ==> (s.lte.place.Woken? && s.nr.place.Running?)
                                || (s.lte.place.Running? && s.nr.place.Woken?))
  }

  /** LTE passes minus NR passes: the overtakes, and one for a waiter that has yet to leave. */
  ghost predicate CountingLaw(s: State) {
    s.lte.passes - s.nr.passes == s.lte.overtakes - s.nr.overtakes
      + (if s.tick != BOTH_DONE then 0 else if s.lte.place.Woken? then -1 else 1)
  }

  /** How many times a thread's clock has ticked. */
  ghost function Ticks(air: Air, task: Task): nat {
    TicksPerPass(air) * task.passes + if task.place.Running? then task.place.ticks else TicksPerPass(air)
  }

  ghost predicate ClockAgrees(air: Air, task: Task) {
    && (task.place.Running? ==> task.place.ticks <= TicksPerPass(air))
    && task.clock == CounterSteps(air, 0, 0, Ticks(air, task))
  }

  ghost predicate Safe(s: State) {
    TickTellsWaiter(s) && CountingLaw(s) && ClockAgrees(Lte, s.lte) && ClockAgrees(Nr, s.nr)
  }

  lemma StepClock(s: State, a: Action, air: Air)
    requires ClockAgrees(air, s.Get(air)) && Step(s, a).Some?
    ensures ClockAgrees(air, Step(s, a).value.Get(air))
  {
  }

  lemma StepTick(s: State, a: Action)
    requires TickTellsWaiter(s) && CountingLaw(s) && Step(s, a).Some?
    ensures TickTellsWaiter(Step(s, a).value) && CountingLaw(Step(s, a).value)
  {
  }

  lemma {:induction false} AlwaysSafe(acts: seq<Action>)
    ensures Follow(acts).Some? ==> Safe(Follow(acts).value)
  {
    if acts != [] {
      AlwaysSafe(acts[..|acts| - 1]);
      var before, a := Follow(acts[..|acts| - 1]), acts[|acts| - 1];
      if Follow(acts).Some? {
        StepTick(before.value, a);
        StepClock(before.value, a, Lte);
        StepClock(before.value, a, Nr);
      }
    }
  }

  // ---- The interleavings are there --------------------------------------------------------

  ghost predicate Enabled(s: State, a: Action) { Step(s, a).Some? }

  /** In every state of a run: a thread in its loop can tick, one subframe or two slots, and then
      arrive at the barrier; one that waits can wake spuriously; one that is woken can check
      the tick; and nothing else. So the other thread never keeps it from going on. */
  lemma CanGoOn(acts: seq<Action>, air: Air)
    requires Follow(acts).Some?
    ensures var s, place := Follow(acts).value, Follow(acts).value.Get(air).place;
      var ticks := if air.Lte? then 1 else 2;
      && (place.Running? ==> place.ticks <= ticks)
      && (Enabled(s, Tick(air)) <==> place.Running? && place.ticks < ticks)
      && (Enabled(s, Arrive(air)) <==> place == Running(ticks))
      && (Enabled(s, Spurious(air)) <==> place.Waiting?)
      && (Enabled(s, Recheck(air)) <==> place.Woken?)
  {
    AlwaysSafe(acts);
    assert ClockAgrees(air, Follow(acts).value.Get(air));
  }

  /** A tick moves the thread's clock by one unit and changes nothing else. */
  lemma TickMoves(acts: seq<Action>, air: Air)
    requires Follow(acts).Some? && Enabled(Follow(acts).value, Tick(air))
    ensures var s, t := Follow(acts).value, Step(Follow(acts).value, Tick(air)).value;
      && t.Get(Other(air)) == s.Get(Other(air)) && t.tick == s.tick
      && t.Get(air) == Task(Running(s.Get(air).place.ticks + 1), s.Get(air).passes, s.Get(air).overtakes,
                            CounterStep(air, s.Get(air).clock.0, s.Get(air).clock.1))
  {
  }

  /** An arrival passes the barrier exactly when the partner's bit is set, and then it sets all
      bits and wakes a partner that waits. Otherwise the thread waits, with its own bit, 1 for LTE
      and 2 for NR, as the tick. */
  lemma Arrival(acts: seq<Action>, air: Air)
    requires Follow(acts).Some? && Enabled(Follow(acts).value, Arrive(air))
    ensures var s, t := Follow(acts).value, Step(Follow(acts).value, Arrive(air)).value;
      var own, others := if air.Lte? then 1 else 2, if air.Lte? then 2 else 1;
      var me, partner := s.Get(air), s.Get(Other(air));
      && (s.tick == 0 || s.tick == others || s.tick == 3)
      && (s.tick == 0 <==> partner.place.Running?)
      && if s.tick == 0 then
           t.tick == own && t.Get(air) == me.(place := Waiting) && t.Get(Other(air)) == partner
         else
           && t.tick == 3 && t.Get(air).place == Running(0) && t.Get(air).passes == me.passes + 1
           && t.Get(air).clock == me.clock && t.Get(air).overtakes == me.overtakes + (if s.tick == 3 then 1 else 0)
           && t.Get(Other(air)) == partner.(place := Woken)
  {
    hide Follow, ClockAgrees, CountingLaw, CounterStep;
    AlwaysSafe(acts);
  }

  /** A wake-up, spurious or not, changes nothing else; checking the tick, the thread passes and
      clears the tick exactly when it is complete, and otherwise waits again. */
  lemma WakeUps(acts: seq<Action>, air: Air)
    requires Follow(acts).Some?
    ensures var s, me := Follow(acts).value, Follow(acts).value.Get(air);
      && (me.place.Waiting? ==> Step(s, Spurious(air)) == Some(s.With(air, me.(place := Woken))))
      && (me.place.Woken? && s.tick != 3 ==> Step(s, Recheck(air)) == Some(s.With(air, me.(place := Waiting))))
      && (me.place.Woken? && s.tick == 3 ==>
          Step(s, Recheck(air)) ==
            Some(s.With(air, me.(place := Running(0), passes := me.passes + 1)).(tick := 0)))
  {
  }

  // ---- What the barrier gives -------------------------------------------------------------

  /** The barrier never deadlocks and loses no wake-up: a task that is away from its loop can
      leave at once when the tick is complete, and otherwise its partner is in its loop and
      can go on. */
  lemma NoDeadlock(acts: seq<Action>, air: Air)
    requires Follow(acts).Some? && !Follow(acts).value.Get(air).place.Running?
    ensures var s := Follow(acts).value;
      if s.tick == BOTH_DONE then
        Enabled(s, Recheck(air)) && Step(s, Recheck(air)).value.Get(air).passes == s.Get(air).passes + 1
      else
        Enabled(s, Tick(Other(air))) || Enabled(s, Arrive(Other(air)))
  {
    AlwaysSafe(acts);
    var s := Follow(acts).value;
    var other := s.Get(Other(air));
    assert ClockAgrees(Other(air), other);
  }

  /** Whether the partner arrives while a thread is away from its loop at the end of a run. */
  ghost predicate Met(acts: seq<Action>, air: Air) {
    acts != [] && acts[|acts| - 1] != Arrive(air)
      && (acts[|acts| - 1] == Arrive(Other(air)) || Met(acts[..|acts| - 1], air))
  }

  lemma {:induction false} CompleteMeansMet(acts: seq<Action>, air: Air)
    requires Follow(acts).Some? && Follow(acts).value.tick == BOTH_DONE
    requires !Follow(acts).value.Get(air).place.Running?
    ensures Met(acts, air)
  {
    var prev, a := acts[..|acts| - 1], acts[|acts| - 1];
    AlwaysSafe(prev);
    AlwaysSafe(acts);
    if a != Arrive(Other(air)) {
      assert a != Arrive(air);
      CompleteMeansMet(prev, air);
    }
  }

  /** A task that waits leaves only after its partner has arrived during that wait. */
  lemma WaiterLeavesAfterPartner(acts: seq<Action>, air: Air)
    requires Follow(acts).Some? && Follow(acts + [Recheck(air)]).Some?
    requires Follow(acts + [Recheck(air)]).value.Get(air).place.Running?
    ensures Met(acts, air)
  {
    assert (acts + [Recheck(air)])[..|acts|] == acts;
    CompleteMeansMet(acts, air);
  }

  /** A run without overtakes: the passes of the two differ by one at most, and the clocks by four
      slots. */
  lemma NoOvertakeNoDrift(acts: seq<Action>)
    requires Follow(acts).Some?
    requires Follow(acts).value.lte.overtakes == 0 && Follow(acts).value.nr.overtakes == 0
    ensures var s := Follow(acts).value;
      && -1 <= s.lte.passes - s.nr.passes <= 1
      && -4 <= 2 * Ticks(Lte, s.lte) - Ticks(Nr, s.nr) <= 4
  {
    AlwaysSafe(acts);
  }

  /** When both tasks have passed the barrier equally often and start their next iteration,
      their clocks show the same frame, and the slot is twice the subframe. */
  lemma ClocksMeet(acts: seq<Action>)
    requires Follow(acts).Some?
    requires var s := Follow(acts).value;
      s.lte.passes == s.nr.passes && s.lte.place == Running(0) && s.nr.place == Running(0)
    ensures var s := Follow(acts).value;
      s.nr.clock.0 == s.lte.clock.0 && s.nr.clock.1 == 2 * s.lte.clock.1
  {
    AlwaysSafe(acts);
    TwoSlotsPerSubframe(Follow(acts).value.lte.passes);
  }

  lemma FollowOne(acts: seq<Action>, a: Action)
    requires Follow(acts).Some?
    ensures Follow(acts + [a]) == Step(Follow(acts).value, a)
  {
    assert (acts + [a])[..|acts|] == acts;
  }

  /** A thread's loop once round: one subframe or two slots, and the barrier. */
  function Loop(air: Air): seq<Action> {
    if air.Lte? then [Tick(Lte), Arrive(Lte)] else [Tick(Nr), Tick(Nr), Arrive(Nr)]
  }

  /** In any state of a run a thread that starts its loop can come to the barrier at once. What
      it finds there is as in Arrival. */
  lemma LoopArrives(acts: seq<Action>, air: Air)
    requires Follow(acts).Some? && Follow(acts).value.Get(air).place == Running(0)
    ensures Follow(acts + Loop(air)).Some?
    ensures var s, t := Follow(acts).value, Follow(acts + Loop(air)).value;
      var me, now, partner := s.Get(air), t.Get(air), s.Get(Other(air));
      if s.tick == 0 then
        t.tick == (if air.Lte? then 1 else 2) && now.place.Waiting? && now.passes == me.passes
        && now.overtakes == me.overtakes && t.Get(Other(air)) == partner
      else
        t.tick == 3 && now.place == Running(0) && now.passes == me.passes + 1
        && now.overtakes == me.overtakes + (if s.tick == 3 then 1 else 0)
        && t.Get(Other(air)) == partner.(place := Woken)
  {
    hide Step;
    var a1 := acts + [Tick(air)];
    CanGoOn(acts, air);
    FollowOne(acts, Tick(air));
    TickMoves(acts, air);
    CanGoOn(a1, air);
    if air.Lte? {
      FollowOne(a1, Arrive(air));
      Arrival(a1, air);
      assert acts + Loop(air) == a1 + [Arrive(air)];
    } else {
      var a2 := a1 + [Tick(air)];
      FollowOne(a1, Tick(air));
      TickMoves(a1, air);
      CanGoOn(a2, air);
      FollowOne(a2, Arrive(air));
      Arrival(a2, air);
      assert acts + Loop(air) == a2 + [Arrive(air)];
    }
  }

  /** The partner waits, then the lead comes to the barrier, and n times more before the partner,
      which has been woken, gets to run. */
  function Overtakes(lead: Air, n: nat): seq<Action> {
    if n == 0 then Loop(Other(lead)) + Loop(lead) else Overtakes(lead, n - 1) + Loop(lead)
  }

  /** The barrier is not a lock-step: either thread can get any number of passes ahead of the
      other. */
  lemma {:induction false} UnboundedDrift(lead: Air, n: nat)
    ensures Follow(Overtakes(lead, n)).Some?
    ensures var s := Follow(Overtakes(lead, n)).value;
      && s.Get(lead).passes == n + 1 && s.Get(lead).overtakes == n && s.Get(lead).place == Running(0)
      && s.Get(Other(lead)).passes == 0 && s.Get(Other(lead)).place.Woken? && s.tick == 3
  {
    if n == 0 {
      var none: seq<Action> := [];
      assert none + Loop(Other(lead)) == Loop(Other(lead));
      LoopArrives(none, Other(lead));
      LoopArrives(Loop(Other(lead)), lead);
    } else {
      UnboundedDrift(lead, n - 1);
      LoopArrives(Overtakes(lead, n - 1), lead);
    }
  }

  // ---- Progress ---------------------------------------------------------------------------

  function SpuriousCount(acts: seq<Action>): nat {
    if acts == [] then 0
    else SpuriousCount(acts[..|acts| - 1]) + if acts[|acts| - 1].Spurious? then 1 else 0
  }

  /** The steps a task can take before it waits. */
  ghost function Work(air: Air, task: Task): int {
    match task.place
    case Running(ticks) => TicksPerPass(air) - ticks + 2
    case Waiting => 0
    case Woken => 1
  }

  lemma StepWorks(s: State, a: Action)
    requires Safe(s) && Step(s, a).Some?
    ensures var s' := Step(s, a).value;
      var done, done' := s.lte.passes + s.nr.passes, s'.lte.passes + s'.nr.passes;
      4 * done' - Work(Lte, s'.lte) - Work(Nr, s'.nr)
        >= 4 * done - Work(Lte, s.lte) - Work(Nr, s.nr) + if a.Spurious? then -1 else 1
  {
  }

  lemma {:induction false} RunWorks(acts: seq<Action>)
    requires Follow(acts).Some?
    ensures var s := Follow(acts).value;
      4 * (s.lte.passes + s.nr.passes) - Work(Lte, s.lte) - Work(Nr, s.nr) + 7
        >= |acts| - 2 * SpuriousCount(acts)
  {
    if acts != [] {
      RunWorks(acts[..|acts| - 1]);
      AlwaysSafe(acts[..|acts| - 1]);
      StepWorks(Follow(acts[..|acts| - 1]).value, acts[|acts| - 1]);
    }
  }

  /** Steps turn into passes: a run of n steps, k of them spurious wake-ups, has at least
      (n - 2k - 7) / 4 passes. */
  lemma PassesHappen(acts: seq<Action>)
    requires Follow(acts).Some?
    ensures var s := Follow(acts).value;
      4 * (s.lte.passes + s.nr.passes) + 7 >= |acts| - 2 * SpuriousCount(acts)
  {
    RunWorks(acts);
    AlwaysSafe(acts);
  }
}
