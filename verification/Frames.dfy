/** Frame arithmetic of src/nfapi_pnf.c. A system frame number (SFN) runs over 0..1023 and is
    divided into 10 subframes (LTE) or 20 slots (NR). The source packs a frame number and a
    unit into one 16-bit word, shifted by 4 (LTE) or 6 (NR) bits. */
module Frames {
  import opened Words

  const SFN_COUNT := 1024

  /** The number of units in a frame, and the factor the frame number is shifted by. */
  datatype Air = Lte | Nr
  {
    function Units(): nat { if Lte? then 10 else 20 }

    function Width(): nat { if Lte? then 16 else 64 }

    /** The number of units after which the frame numbers repeat. */
    function Period(): nat { if Lte? then 10240 else 20480 }

    /** The unit count of a frame number and a unit. */
    function Count(sfn: nat, unit: nat): nat {
      if Lte? then sfn * 10 + unit else sfn * 20 + unit
    }

    /** The frame number and the unit of a packed word. */
    function SfnOf(word: uint16): nat { if Lte? then word / 16 else word / 64 }

    function UnitOf(word: uint16): nat { if Lte? then word % 16 else word % 64 }

    /** The unit count that a packed word stands for: the operand of get_sf_delta and
        get_slot_delta. */
    function Position(word: uint16): nat {
      Count(SfnOf(word), UnitOf(word))
    }

    predicate ValidWord(word: uint16) {
      SfnOf(word) < SFN_COUNT && UnitOf(word) < Units()
    }

    function Pack(sfn: nat, unit: nat): (word: uint16)
      requires sfn < SFN_COUNT && unit < Units()
      ensures SfnOf(word) == sfn && UnitOf(word) == unit
    {
      if Lte? then sfn * 16 + unit else sfn * 64 + unit
    }

    /** get_sf_delta and get_slot_delta: a plain difference, not a modular one. */
    function Delta(a: uint16, b: uint16): int {
      Position(a) - Position(b)
    }

    /** How many units b is behind a on the circle of frame numbers: negative when b is ahead. */
    function Behind(a: uint16, b: uint16): int {
      var r := Delta(a, b) % Period();
      if r <= Period() / 2 then r else r - Period()
    }
  }

  lemma PositionInRange(air: Air, word: uint16)
    requires air.ValidWord(word)
    ensures air.Position(word) < air.Period()
  {
  }

  /** A word is determined by its position. */
  lemma PositionInjective(air: Air, a: uint16, b: uint16)
    requires air.ValidWord(a) && air.ValidWord(b) && air.Position(a) == air.Position(b)
    ensures a == b
  {
    assert air.SfnOf(a) == air.SfnOf(b) && air.UnitOf(a) == air.UnitOf(b);
  }

  lemma SmallRemainder(d: int)
    ensures -10240 < d < 10240 ==> d % 10240 == if d >= 0 then d else d + 10240
    ensures -20480 < d < 20480 ==> d % 20480 == if d >= 0 then d else d + 20480
  {
  }

  /** The plain difference rejects exactly the packets that are behind by more than the window,
      unless the frame numbers wrap between the two: a packet that is ahead across the wrap
      has a large difference and is rejected, and one that is behind across the wrap by more
      than the window has a negative difference and is not. */
  lemma WindowTest(air: Air, a: uint16, b: uint16, window: nat)
    requires air.ValidWord(a) && air.ValidWord(b)
    ensures var d, half := air.Delta(a, b), air.Period() / 2;
      (d > window <==> air.Behind(a, b) > window)
      <==> (d <= half || d <= window) && !(window - air.Period() < d <= -half)
  {
    PositionInRange(air, a);
    PositionInRange(air, b);
    SmallRemainder(air.Position(a) - air.Position(b));
  }

  /** In subframe 1023.9 a packet for the next subframe, 0.0, is thrown away as late; in
      subframe 0.0 a packet that is 240 subframes late is let through. */
  lemma WindowTestFails()
    ensures Lte.Behind(0x3FF9, 0x0000) == -1 && Lte.Delta(0x3FF9, 0x0000) > 200
    ensures Lte.Behind(0x0000, 0x3E80) == 240 && Lte.Delta(0x0000, 0x3E80) <= 200
  {
  }

  /** sfn_sf_add, with the 16-bit truncation of its intermediate sum. */
  function SfnSfAdd(a: uint16, addVal: uint16): uint16 {
    var temp := (a / 16 * 10 + a % 16 + addVal) % 0x1_0000;
    temp / 10 % SFN_COUNT * 16 + temp % 10
  }

  /** sfn_sf_add moves a subframe forward by addVal on the circle of 10240 subframes exactly
      when its 16-bit intermediate sum does not overflow. */
  lemma SfnSfAddExact(a: uint16, addVal: uint16)
    requires Lte.ValidWord(a)
    ensures Lte.ValidWord(SfnSfAdd(a, addVal))
    ensures Lte.Position(SfnSfAdd(a, addVal)) == (Lte.Position(a) + addVal) % Lte.Period()
      <==> Lte.Position(a) + addVal < 0x1_0000
  {
    var sum := Lte.Position(a) + addVal;
    PackedPosition(sum % 0x1_0000);
    PositionInRange(Lte, a);
    Overflow(sum);
  }

  /** From subframe 1023.9, adding 55297 overflows: it should end in subframe 409.6. */
  lemma SfnSfAddFails()
    ensures Lte.ValidWord(0x3FF9) && Lte.Position(0x3FF9) + 55297 == 0x1_0000
    ensures SfnSfAdd(0x3FF9, 55297) == Lte.Pack(0, 0)
    ensures (Lte.Position(0x3FF9) + 55297) % Lte.Period() == Lte.Count(409, 6)
  {
  }

  /** Losing 2 to the 16th changes the position, because 10240 does not divide it. */
  lemma Overflow(sum: nat)
    requires sum < 2 * 0x1_0000
    ensures sum % 0x1_0000 % 10240 == sum % 10240 <==> sum < 0x1_0000
  {
    if sum >= 0x1_0000 {
      assert sum % 0x1_0000 == sum - 0x1_0000;
      assert (sum - 0x1_0000 + 0x1_0000) % 10240 != (sum - 0x1_0000) % 10240;
    }
  }

  lemma PackedPosition(temp: nat)
    requires temp < 0x1_0000
    ensures temp / 10 % SFN_COUNT * 16 + temp % 10 < 0x1_0000
    ensures var w := temp / 10 % SFN_COUNT * 16 + temp % 10;
      Lte.ValidWord(w) && Lte.Position(w) == temp % 10240
  {
    assert temp / 10 % 1024 * 10 + temp % 10 == temp % 10240;
  }

  /** Reducing a count modulo the period before adding to it changes nothing. */
  lemma AddModuloPeriod(air: Air, p: nat, y: nat)
    ensures (p % air.Period() + y) % air.Period() == (p + y) % air.Period()
  {
    if air.Lte? {
      AddModulo10240(p, y);
    } else {
      AddModulo20480(p, y);
    }
  }

  lemma AddModulo10240(p: nat, y: nat)
    ensures (p % 10240 + y) % 10240 == (p + y) % 10240
  {
  }

  lemma AddModulo20480(p: nat, y: nat)
    ensures (p % 20480 + y) % 20480 == (p + y) % 20480
  {
  }

  /** Two additions are one addition of the sum, up to the overflow bound. */
  lemma SfnSfAddCompose(a: uint16, x: uint16, y: uint16)
    requires Lte.ValidWord(a) && Lte.Position(a) + x + y < 0x1_0000
    ensures SfnSfAdd(SfnSfAdd(a, x), y) == SfnSfAdd(a, x + y)
  {
    hide SfnSfAdd;
    var b := SfnSfAdd(a, x);
    SfnSfAddExact(a, x);
    ModAtMost(Lte.Position(a) + x);
    SfnSfAddExact(b, y);
    SfnSfAddExact(a, x + y);
    AddModuloPeriod(Lte, Lte.Position(a) + x, y);
    PositionInjective(Lte, SfnSfAdd(b, y), SfnSfAdd(a, x + y));
  }

  lemma ModAtMost(n: nat)
    ensures n % 10240 <= n
  {
  }

  /** sfn_slot_add, whose sums are computed in int and do not overflow. */
  function SfnSlotAdd(clock: (nat, nat), addVal: uint16): (r: (nat, nat))
    ensures r.0 < SFN_COUNT && r.1 < 20
  {
    ((clock.0 + (clock.1 + addVal) / 20) % SFN_COUNT, (clock.1 + addVal) % 20)
  }

  lemma SlotRemainder(n: nat, unit: nat)
    requires unit < 20
    ensures (n * 20 + unit) % 20480 == n % 1024 * 20 + unit
  {
    var q, r := n / 1024, n % 1024;
    assert n * 20 + unit == q * 20480 + (r * 20 + unit);
  }

  /** sfn_slot_add moves a slot forward by addVal on the circle of 20480 slots. */
  lemma SfnSlotAddExact(clock: (nat, nat), addVal: uint16)
    ensures var r := SfnSlotAdd(clock, addVal);
      Nr.Count(r.0, r.1) == (Nr.Count(clock.0, clock.1) + addVal) % Nr.Period()
  {
    var c, u := clock.0, clock.1 + addVal;
    SlotRemainder(c + u / 20, u % 20);
    assert (c + u / 20) * 20 + u % 20 == c * 20 + u;
  }

  /** Two additions of slots are one addition of the sum. */
  lemma SfnSlotAddCompose(clock: (nat, nat), x: uint16, y: uint16)
    requires x + y < 0x1_0000
    ensures SfnSlotAdd(SfnSlotAdd(clock, x), y) == SfnSlotAdd(clock, x + y)
  {
    hide SfnSlotAdd;
    var once := SfnSlotAdd(clock, x);
    SfnSlotAddExact(clock, x);
    SfnSlotAddExact(once, y);
    SfnSlotAddExact(clock, x + y);
    AddModuloPeriod(Nr, Nr.Count(clock.0, clock.1) + x, y);
    SlotCountInjective(SfnSlotAdd(once, y), SfnSlotAdd(clock, x + y));
  }

  lemma SlotCountInjective(a: (nat, nat), b: (nat, nat))
    requires a.1 < 20 && b.1 < 20 && Nr.Count(a.0, a.1) == Nr.Count(b.0, b.1)
    ensures a == b
  {
  }

  /** One step of sfn_sf_counter or sfn_slot_counter. */
  function CounterStep(air: Air, sfn: nat, unit: nat): (r: (nat, nat))
    requires sfn < SFN_COUNT && unit < air.Units()
    ensures r.0 < SFN_COUNT && r.1 < air.Units()
  {
    if unit + 1 < air.Units() then (sfn, unit + 1)
    else if sfn + 1 < SFN_COUNT then (sfn + 1, 0)
    else (0, 0)
  }

  /** The counter after k steps. */
  function CounterSteps(air: Air, sfn: nat, unit: nat, k: nat): (r: (nat, nat))
    requires sfn < SFN_COUNT && unit < air.Units()
    ensures r.0 < SFN_COUNT && r.1 < air.Units()
  {
    if k == 0 then (sfn, unit)
    else
      var r := CounterSteps(air, sfn, unit, k - 1);
      CounterStep(air, r.0, r.1)
  }

  lemma OneStep(air: Air, sfn: nat, unit: nat)
    requires sfn < SFN_COUNT && unit < air.Units()
    ensures var r := CounterStep(air, sfn, unit);
      air.Count(r.0, r.1) == (air.Count(sfn, unit) + 1) % air.Period()
  {
  }

  /** k counter steps add k to the position, modulo the period. */
  lemma {:induction false} CounterStepsAdd(air: Air, sfn: nat, unit: nat, k: nat)
    requires sfn < SFN_COUNT && unit < air.Units()
    ensures var r := CounterSteps(air, sfn, unit, k);
      air.Count(r.0, r.1) == (air.Count(sfn, unit) + k) % air.Period()
  {
    if k == 0 {
      assert air.Count(sfn, unit) < air.Period();
    } else {
      CounterStepsAdd(air, sfn, unit, k - 1);
      var prev, p := CounterSteps(air, sfn, unit, k - 1), air.Count(sfn, unit) + k - 1;
      OneStep(air, prev.0, prev.1);
      AddModuloPeriod(air, p, 1);
      assert p + 1 == air.Count(sfn, unit) + k;
    }
  }

  /** LTE after k steps and NR after 2k steps show the same frame, and the slot is twice the
      subframe. */
  lemma TwoSlotsPerSubframe(k: nat)
    ensures var lte, nr := CounterSteps(Lte, 0, 0, k), CounterSteps(Nr, 0, 0, 2 * k);
      nr.0 == lte.0 && nr.1 == 2 * lte.1
  {
    CounterStepsAdd(Lte, 0, 0, k);
    CounterStepsAdd(Nr, 0, 0, 2 * k);
    assert (2 * k) % 20480 == 2 * (k % 10240);
  }

  /** The frame clock of a thread: the locals that the source passes to its counters by reference. */
  class Clock {
    const air: Air
    var sfn: uint16
    var unit: uint16

    ghost predicate Valid()
      reads this
    {
      sfn < SFN_COUNT && unit < air.Units()
    }

    constructor (air: Air)
      ensures Valid() && this.air == air && sfn == 0 && unit == 0
    {
      this.air := air;
      sfn, unit := 0, 0;
    }

    /** sfn_sf_counter and sfn_slot_counter. */
    method Tick() returns (word: uint16)
      requires Valid()
      modifies this
      ensures Valid() && (sfn as nat, unit as nat) == CounterStep(air, old(sfn), old(unit))
      ensures word == air.Pack(sfn, unit)
    {
      unit := unit + 1;
      if unit == air.Units() {
        unit := 0;
        sfn := sfn + 1;
        if sfn == SFN_COUNT {
          sfn := 0;
        }
      }
      word := sfn * air.Width() + unit;
    }

    /** sfn_slot_add */
    method SlotAdd(addVal: uint16)
      requires Valid() && air.Nr?
      modifies this
      ensures Valid() && (sfn as nat, unit as nat) == SfnSlotAdd((old(sfn), old(unit)), addVal)
    {
      sfn := (sfn + (unit + addVal) / 20) % SFN_COUNT;
      unit := (unit + addVal) % 20;
    }
  }
}
