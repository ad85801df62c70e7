/** The batch of packets that one subframe or slot collects: the source's array of
    subframe_msgs_t (or slot_msgs_t), one entry a UE, each with a count and eight slots. A slot
    becomes NULL when its packet has been grouped. */
module Batches {
  import opened Wrappers
  import opened UplinkMessages
  import opened Dequeue

  class Batch {
    const slots: array2<Option<Message>>
    const counts: array<nat>

    ghost predicate Valid()
      reads this, counts
    {
      && slots.Length0 == counts.Length
      && slots.Length1 == MAX_MSGS
      && forall i :: 0 <= i < counts.Length ==> counts[i] <= MAX_MSGS
    }

    /** The used slots of UE i. */
    ghost function Row(i: nat): (row: seq<Option<Message>>)
      requires Valid() && i < counts.Length
      reads this, counts, slots
      ensures |row| == counts[i] && forall j :: 0 <= j < counts[i] ==> row[j] == slots[i, j]
    {
      seq(counts[i],
          j requires 0 <= j < counts[i] && Valid() && i < counts.Length reads this, counts, slots => slots[i, j])
    }

    ghost function Rows(): (rows: seq<seq<Option<Message>>>)
      requires Valid()
      reads this, counts, slots
      ensures |rows| == counts.Length
    {
      seq(counts.Length, i requires 0 <= i < counts.Length && Valid() reads this, counts, slots => Row(i))
    }

    lemma RowsAt(i: nat)
      requires Valid() && i < counts.Length
      ensures Rows()[i] == Row(i)
    {
    }

    /** The memset before each dequeue call: no UE has packets. */
    constructor (numUes: nat)
      ensures Valid() && fresh(slots) && fresh(counts)
      ensures counts.Length == numUes && forall i :: 0 <= i < numUes ==> counts[i] == 0
    {
      slots := new Option<Message>[numUes, MAX_MSGS]((_, _) => None);
      counts := new nat[numUes](_ => 0);
    }

    /** The packet goes into the next slot of UE i; no other UE's slots change. */
    method Add(i: nat, m: Message)
      requires Valid() && i < counts.Length && counts[i] < MAX_MSGS
      modifies slots, counts
      ensures Valid() && Row(i) == old(Row(i)) + [Some(m)]
      ensures forall k :: 0 <= k < counts.Length && k != i ==> counts[k] == old(counts[k])
      ensures forall k, j :: 0 <= k < slots.Length0 && 0 <= j < MAX_MSGS && k != i ==>
        slots[k, j] == old(slots[k, j])
    {
      slots[i, counts[i]] := Some(m);
      counts[i] := counts[i] + 1;
    }

    /** A grouping pass takes the packet out of slot j of UE i. */
    method Clear(i: nat, j: nat)
      requires Valid() && i < counts.Length && j < counts[i]
      modifies slots
      ensures Rows() == old(Rows())[i := old(Rows()[i])[j := None]]
    {
      ghost var was := Rows();
      slots[i, j] := None;
      assert Row(i) == was[i][j := None];
      assert forall k :: 0 <= k < counts.Length && k != i ==> Row(k) == was[k];
    }
  }

  /** Slots that hold the packets of s. */
  function Present(s: seq<Message>): (row: seq<Option<Message>>)
    ensures |row| == |s| && forall j :: 0 <= j < |s| ==> row[j] == Some(s[j])
  {
    seq(|s|, j requires 0 <= j < |s| => Some(s[j]))
  }
}
