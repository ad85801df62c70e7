/** The bounded message queue of src/queue.c: a ring of 512 cells holding pointers.
    A cell is None where the source stores NULL. Every operation runs under the queue's
    mutex, so each one is a single atomic step on the sequence of queued items. */
module RingQueue {
  import opened Wrappers

  const MAX_QUEUE_SIZE := 512

  /** The index of the latest item among the last depth items of s that p accepts. */
  function LatestMatch<T>(s: seq<T>, depth: nat, p: T -> bool): (r: Option<nat>)
    ensures r.Some? ==> |s| - depth <= r.value < |s| && p(s[r.value])
    ensures r.Some? ==> forall j :: r.value < j < |s| ==> !p(s[j])
    ensures r.None? ==> forall j :: 0 <= j < |s| && |s| - depth <= j ==> !p(s[j])
  {
    if s == [] || depth == 0 then None
    else if p(s[|s| - 1]) then Some(|s| - 1)
    else
      var r := LatestMatch(s[..|s| - 1], depth - 1, p);
      assert forall j :: 0 <= j < |s| - 1 ==> s[..|s| - 1][j] == s[j];
      r
  }

  /** The source's index arithmetic, n % MAX_QUEUE_SIZE, for indices that wrap at most once;
      written without the remainder so that proofs about cells stay linear. */
  function Wrap(n: nat): nat
    requires n < 2 * MAX_QUEUE_SIZE
  {
    if n < MAX_QUEUE_SIZE then n else n - MAX_QUEUE_SIZE
  }

  lemma WrapIsRemainder(n: nat)
    requires n < 2 * MAX_QUEUE_SIZE
    ensures Wrap(n) == n % MAX_QUEUE_SIZE
  {
  }

  /** The ring cell k places after cell head. */
  ghost function Cell(head: nat, k: nat): nat
    requires head < MAX_QUEUE_SIZE && k <= MAX_QUEUE_SIZE
  {
    Wrap(head + k)
  }

  /** How many places ring cell c is after cell head: the inverse of Cell. */
  ghost function Offset(head: nat, c: nat): nat
    requires head < MAX_QUEUE_SIZE && c < MAX_QUEUE_SIZE
  {
    if head <= c then c - head else c + MAX_QUEUE_SIZE - head
  }

  /** The ring cells that store s from cell head on. */
  ghost predicate Stores<T>(cells: seq<Option<T>>, head: nat, s: seq<T>) {
    && |cells| == MAX_QUEUE_SIZE && head < MAX_QUEUE_SIZE && |s| <= MAX_QUEUE_SIZE
    && (forall k :: 0 <= k < |s| ==> cells[Cell(head, k)] == Some(s[k]))
    && (forall k :: |s| <= k < MAX_QUEUE_SIZE ==> cells[Cell(head, k)] == None)
  }

  /** What cell c holds when s is stored from cell head on and the items after position pos
      have been moved one place down as far as position k. */
  ghost function Shifted<T>(s: seq<T>, head: nat, pos: nat, k: nat, c: nat): Option<T>
    requires head < MAX_QUEUE_SIZE && c < MAX_QUEUE_SIZE && k < |s|
  {
    var o := Offset(head, c);
    if |s| <= o then None
    else if pos <= o < k then Some(s[o + 1])
    else Some(s[o])
  }

  ghost predicate ShiftedTo<T>(cells: seq<Option<T>>, head: nat, s: seq<T>, pos: nat, k: nat) {
    && |cells| == MAX_QUEUE_SIZE && head < MAX_QUEUE_SIZE && pos <= k < |s| <= MAX_QUEUE_SIZE
    && forall c :: 0 <= c < MAX_QUEUE_SIZE ==> cells[c] == Shifted(s, head, pos, k, c)
  }

  lemma NothingShifted<T>(cells: seq<Option<T>>, head: nat, s: seq<T>, pos: nat)
    requires Stores(cells, head, s) && pos < |s|
    ensures ShiftedTo(cells, head, s, pos, pos)
  {
    forall c | 0 <= c < MAX_QUEUE_SIZE
      ensures cells[c] == Shifted(s, head, pos, pos, c)
    {
      assert Cell(head, Offset(head, c)) == c;
    }
  }

  lemma ShiftOne<T>(cells: seq<Option<T>>, head: nat, s: seq<T>, pos: nat, k: nat)
    requires k + 1 < |s| && ShiftedTo(cells, head, s, pos, k)
    ensures ShiftedTo(cells[Cell(head, k) := cells[Cell(head, k + 1)]], head, s, pos, k + 1)
  {
  }

  /** When the shift has reached the last item and the tail cell is freed, what remains is s
      without the item at pos. */
  lemma AllShifted<T>(cells: seq<Option<T>>, head: nat, s: seq<T>, pos: nat)
    requires pos < |s| && ShiftedTo(cells, head, s, pos, |s| - 1)
    ensures Stores(cells[Cell(head, |s| - 1) := None], head, s[..pos] + s[pos + 1..])
  {
    forall k | 0 <= k < MAX_QUEUE_SIZE
      ensures cells[Cell(head, |s| - 1) := None][Cell(head, k)] ==
        if k < |s| - 1 then Some((s[..pos] + s[pos + 1..])[k]) else None
    {
      assert Offset(head, Cell(head, k)) == k;
    }
  }

  class Queue<T> {
    const items: array<Option<T>>
    var readIndex: nat
    var writeIndex: nat
    var numItems: nat

    /** Occupied cells hold an item, free cells are None, and the indices agree. */
    ghost predicate Valid()
      reads this, items
    {
      && items.Length == MAX_QUEUE_SIZE
      && readIndex < MAX_QUEUE_SIZE
      && numItems <= MAX_QUEUE_SIZE
      && writeIndex == Cell(readIndex, numItems)
      && (forall k :: 0 <= k < numItems ==> items[Cell(readIndex, k)].Some?)
      && (forall k :: numItems <= k < MAX_QUEUE_SIZE ==> items[Cell(readIndex, k)].None?)
    }

    /** The queued items, head first. */
    ghost function Contents(): (s: seq<T>)
      requires Valid()
      reads this, items
      ensures |s| == numItems
      ensures forall k :: 0 <= k < numItems ==> items[Cell(readIndex, k)] == Some(s[k])
    {
      var cells, head, n := items[..], readIndex, numItems;
      seq(n, k requires 0 <= k < n && cells[Cell(head, k)].Some? => cells[Cell(head, k)].value)
    }

    lemma ContentsStored()
      requires Valid()
      ensures Stores(items[..], readIndex, Contents())
    {
    }

    lemma StoredContents(s: seq<T>)
      requires items.Length == MAX_QUEUE_SIZE && Stores(items[..], readIndex, s)
      requires numItems == |s| && writeIndex == Cell(readIndex, numItems)
      ensures Valid() && Contents() == s
    {
      assert forall k :: 0 <= k < MAX_QUEUE_SIZE ==> items[..][Cell(readIndex, k)] == items[Cell(readIndex, k)];
    }

    constructor ()
      ensures Valid() && fresh(items)
      ensures Contents() == []
    {
      items := new Option<T>[MAX_QUEUE_SIZE](_ => None);
      readIndex, writeIndex, numItems := 0, 0, 0;
    }

    /** put_queue: append at the tail unless the ring is full. */
    method Put(item: T) returns (queued: bool)
      requires Valid()
      modifies this, items
      ensures Valid()
      ensures queued <==> |old(Contents())| < 512
      ensures Contents() == if queued then old(Contents()) + [item] else old(Contents())
    {
      if numItems >= MAX_QUEUE_SIZE {
        return false;
      }
      assert items[Cell(readIndex, numItems)].None?;
      items[writeIndex] := Some(item);
      writeIndex := Wrap(writeIndex + 1);
      numItems := numItems + 1;
      queued := true;
    }

    /** get_queue: remove the head. */
    method Get() returns (item: Option<T>)
      requires Valid()
      modifies this, items
      ensures Valid()
      ensures item.None? <==> old(Contents()) == []
      ensures item.Some? ==> old(Contents()) == [item.value] + Contents()
      ensures item.None? ==> Contents() == old(Contents())
    {
      item := None;
      if numItems > 0 {
        assert Cell(readIndex, 0) == readIndex;
        item := items[readIndex];
        assert item.Some?;
        items[readIndex] := None;
        readIndex := Wrap(readIndex + 1);
        numItems := numItems - 1;
        assert forall k :: 0 <= k < MAX_QUEUE_SIZE - 1 ==> Cell(readIndex, k) == Cell(old(readIndex), k + 1);
        assert Cell(readIndex, MAX_QUEUE_SIZE - 1) == Cell(old(readIndex), 0);
      }
    }

    /** requeue: put an item back at the head unless the ring is full. */
    method Requeue(item: T) returns (queued: bool)
      requires Valid()
      modifies this, items
      ensures Valid()
      ensures queued <==> |old(Contents())| < 512
      ensures Contents() == if queued then [item] + old(Contents()) else old(Contents())
    {
      if numItems >= MAX_QUEUE_SIZE {
        return false;
      }
      readIndex := Wrap(readIndex + MAX_QUEUE_SIZE - 1);
      assert readIndex == Cell(old(readIndex), MAX_QUEUE_SIZE - 1);
      assert items[readIndex].None?;
      items[readIndex] := Some(item);
      numItems := numItems + 1;
      queued := true;
      assert Cell(readIndex, 0) == readIndex;
      assert forall k :: 1 <= k < MAX_QUEUE_SIZE ==> Cell(readIndex, k) == Cell(old(readIndex), k - 1);
    }

    /** unqueue: remove the tail. */
    method Unqueue() returns (item: Option<T>)
      requires Valid()
      modifies this, items
      ensures Valid()
      ensures item.None? <==> old(Contents()) == []
      ensures item.Some? ==> old(Contents()) == Contents() + [item.value]
      ensures item.None? ==> Contents() == old(Contents())
    {
      item := None;
      if numItems > 0 {
        writeIndex := Wrap(writeIndex + MAX_QUEUE_SIZE - 1);
        assert writeIndex == Cell(readIndex, numItems - 1);
        item := items[writeIndex];
        items[writeIndex] := None;
        numItems := numItems - 1;
      }
    }

    /** The shift loop of unqueue_matching: every cell after position pos takes the place of
        the one before it, and the last one is freed. */
    method RemoveAt(endi: nat, ghost pos: nat)
      requires Valid() && pos < numItems && endi == Cell(readIndex, pos)
      modifies this, items
      ensures Valid()
      ensures Contents() == old(Contents()[..pos] + Contents()[pos + 1..])
    {
      ghost var s := Contents();
      ContentsStored();
      NothingShifted(items[..], readIndex, s, pos);
      ShiftDown(endi, pos, s);
      StoredContents(s[..pos] + s[pos + 1..]);
    }

    method ShiftDown(start: nat, ghost pos: nat, ghost s: seq<T>)
      requires items.Length == MAX_QUEUE_SIZE && readIndex < MAX_QUEUE_SIZE
      requires pos < |s| == numItems <= MAX_QUEUE_SIZE && start == Cell(readIndex, pos)
      requires writeIndex == Cell(readIndex, |s|)
      requires ShiftedTo(items[..], readIndex, s, pos, pos)
      modifies this`writeIndex, this`numItems, items
      ensures numItems == |s| - 1 && writeIndex == Cell(readIndex, |s| - 1)
      ensures Stores(items[..], readIndex, s[..pos] + s[pos + 1..])
    {
      var endi := start;
      ghost var k, cells := pos, items[..];
      while true
        invariant pos <= k < |s| == numItems && endi == Cell(readIndex, k)
        invariant writeIndex == Cell(readIndex, |s|)
        invariant items[..] == cells && ShiftedTo(cells, readIndex, s, pos, k)
        decreases |s| - k
      {
        var j := Wrap(endi + 1);
        if j == writeIndex {
          AllShifted(cells, readIndex, s, pos);
          items[endi] := None;
          assert items[..] == cells[endi := None];
          writeIndex := endi;
          numItems := numItems - 1;
          break;
        }
        assert j == Cell(readIndex, k + 1);
        ShiftOne(cells, readIndex, s, pos, k);
        items[endi] := items[j];
        cells := cells[endi := cells[j]];
        assert items[..] == cells;
        endi, k := j, k + 1;
      }
    }

    /** unqueue_matching: remove the latest item that the matcher accepts, looking at no more
        than the last maxDepth items. */
    method UnqueueMatching(maxDepth: nat, matcher: T -> bool) returns (item: Option<T>)
      requires Valid()
      modifies this, items
      ensures Valid()
      ensures item.Some? <==> LatestMatch(old(Contents()), maxDepth, matcher).Some?
      ensures item.None? ==> Contents() == old(Contents())
      ensures item.Some? ==>
        var s, at := old(Contents()), LatestMatch(old(Contents()), maxDepth, matcher).value;
        item.value == s[at] && Contents() == s[..at] + s[at + 1..]
    {
      hide LatestMatch;
      item := None;
      ghost var s := Contents();
      var endi, depth, i := writeIndex, maxDepth, 0;
      while i < numItems
        invariant 0 <= i <= numItems && i + depth == maxDepth && endi == Cell(readIndex, numItems - i)
        invariant forall j :: numItems - i <= j < numItems ==> !matcher(s[j])
      {
        if depth == 0 {
          break;
        }
        depth := depth - 1;
        endi := Wrap(endi + MAX_QUEUE_SIZE - 1);
        assert endi == Cell(readIndex, numItems - i - 1);
        var candidate := items[endi].value;
        if matcher(candidate) {
          item := Some(candidate);
          RemoveAt(endi, numItems - i - 1);
          break;
        }
        i := i + 1;
      }
    }
  }
}
