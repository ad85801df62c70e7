/** dequeue_ue_msgs and dequeue_ue_slot_msgs in place: they take packets off the ring queues
    and fill the batch. Proved against Dequeue.Drain, for the case that no packet arrives
    during the call; Pipeline treats arrivals at any point. */
module DequeueTask {
  import opened Wrappers
  import opened Words
  import opened Frames
  import opened UplinkMessages
  import opened RingQueue
  import opened Dequeue
  import opened Batches

  /** Every queue is valid, no two share an object, and repr holds all their objects. */
  ghost predicate Separate(queues: seq<Queue<Message>>, repr: set<object>)
    reads repr
  {
    && (forall i :: 0 <= i < |queues| ==> queues[i] in repr && queues[i].items in repr && queues[i].Valid())
    && (forall i, j :: 0 <= i < j < |queues| ==> queues[i] != queues[j] && queues[i].items != queues[j].items)
  }

  ghost function AllContents(queues: seq<Queue<Message>>, repr: set<object>): (qs: seq<seq<Message>>)
    requires Separate(queues, repr)
    reads repr
    ensures |qs| == |queues| && forall i :: 0 <= i < |queues| ==> qs[i] == queues[i].Contents()
  {
    seq(|queues|, i requires 0 <= i < |queues| && Separate(queues, repr) reads repr => queues[i].Contents())
  }

  /** One turn of the inner loop. */
  lemma DrainUeHead(air: Air, tx: uint16, q: seq<Message>, master: uint16, row: seq<Message>, freed: seq<Message>)
    ensures var d := DrainUe(air, tx, q, master, row, freed);
      if q == [] then d == Drained([], master, row, freed, false)
      else
        var v := Judge(air, tx, master, |row|, q[0]);
        if v.Discard? then d == DrainUe(air, tx, q[1..], v.master, row, freed + [q[0]])
        else if v.Keep? then d == DrainUe(air, tx, q[1..], v.master, row + [q[0]], freed)
        else d == Drained(q, master, row, freed, true)
  {
  }

  /** The inner loop, for one UE. */
  method DequeueOne(air: Air, tx: uint16, q: Queue<Message>, master: uint16, batch: Batch, i: nat)
    returns (now: uint16, empty: bool, freed: seq<Message>)
    requires q.Valid() && batch.Valid() && i < batch.counts.Length && batch.counts[i] == 0
    modifies q, q.items, batch.slots, batch.counts
    ensures q.Valid() && batch.Valid()
    ensures var d := DrainUe(air, tx, old(q.Contents()), master, [], []);
      && q.Contents() == d.queue && now == d.master && freed == d.freed && empty == !d.blocked
      && batch.Row(i) == Present(d.row)
    ensures forall k :: 0 <= k < batch.counts.Length && k != i ==> batch.counts[k] == old(batch.counts[k])
    ensures forall k, j :: 0 <= k < batch.slots.Length0 && 0 <= j < MAX_MSGS && k != i ==>
      batch.slots[k, j] == old(batch.slots[k, j])
  {
    hide FrameWord, Air.Delta, Window, DrainUe;
    now, empty, freed := master, true, [];
    ghost var row: seq<Message> := [];
    while true
      invariant q.Valid() && batch.Valid()
      invariant batch.Row(i) == Present(row)
      invariant DrainUe(air, tx, old(q.Contents()), master, [], []) == DrainUe(air, tx, q.Contents(), now, row, freed)
      invariant forall k :: 0 <= k < batch.counts.Length && k != i ==> batch.counts[k] == old(batch.counts[k])
      invariant forall k, j :: 0 <= k < batch.slots.Length0 && 0 <= j < MAX_MSGS && k != i ==>
        batch.slots[k, j] == old(batch.slots[k, j])
      decreases q.numItems
    {
      DrainUeHead(air, tx, q.Contents(), now, row, freed);
      var got := q.Get();
      if got.None? {
        break;
      }
      var msg := got.value;
      if |msg.data| == DUMMY_LENGTH {
        freed := freed + [msg];
        continue;
      }
      var word := FrameWord(air, msg);
      if word.None? {
        freed := freed + [msg];
        continue;
      }
      if now == NO_MASTER {
        now := word.value;
      }
      if now != word.value {
        var queued := q.Requeue(msg);
        if !queued {
          freed := freed + [msg];
        }
        empty := false;
        break;
      }
      if air.Delta(tx, word.value) > Window(air) {
        freed := freed + [msg];
        continue;
      }
      if batch.counts[i] == MAX_MSGS {
        freed := freed + [msg];
        continue;
      }
      batch.Add(i, msg);
      row := row + [msg];
    }
  }

  /** The first |r| UEs have been drained with results r; the others are as in qs. */
  ghost predicate DrainedSoFar(queues: seq<Queue<Message>>, repr: set<object>, batch: Batch, qs: seq<seq<Message>>,
                               r: seq<Drained>, freed: seq<seq<Message>>)
    reads repr, batch, batch.slots, batch.counts
  {
    && Separate(queues, repr) && batch.slots !in repr && batch.counts !in repr && batch.Valid()
    && |r| == |freed| <= |queues| == |qs| == batch.counts.Length
    && (forall k :: 0 <= k < |r| ==> queues[k].Contents() == r[k].queue)
    && (forall k :: 0 <= k < |r| ==> batch.Row(k) == Present(r[k].row) && freed[k] == r[k].freed)
    && (forall k :: |r| <= k < |queues| ==> queues[k].Contents() == qs[k] && batch.counts[k] == 0)
  }

  /** The same step, seen as a change to one of several queues. */
  method DequeueNext(air: Air, tx: uint16, queues: seq<Queue<Message>>, ghost repr: set<object>, master: uint16,
                     batch: Batch, i: nat, freed: seq<seq<Message>>, ghost qs: seq<seq<Message>>, ghost r: seq<Drained>)
    returns (now: uint16, empty: bool, freed': seq<seq<Message>>)
    requires DrainedSoFar(queues, repr, batch, qs, r, freed) && i == |r| < |queues|
    modifies repr, batch.slots, batch.counts
    ensures var d := DrainUe(air, tx, qs[i], master, [], []);
      && DrainedSoFar(queues, repr, batch, qs, r + [d], freed')
      && now == d.master && empty == !d.blocked
  {
    var dropped;
    now, empty, dropped := DequeueOne(air, tx, queues[i], master, batch, i);
    freed' := freed + [dropped];
    forall k | 0 <= k < |queues| && k != i
      ensures queues[k].Valid() && queues[k].Contents() == old(queues[k].Contents())
    {
      assert queues[k] != queues[i] && queues[k].items != queues[i].items;
    }
    assert forall k :: 0 <= k < |queues| && k != i ==> batch.Row(k) == old(batch.Row(k));
  }

  /** No UE's drain stopped at a packet of another frame. */
  ghost predicate NoneBlocked(r: seq<Drained>) {
    forall k :: 0 <= k < |r| ==> !r[k].blocked
  }

  /** Which is when the source's result, that all queues are empty, is right. */
  lemma NoneBlockedEmpty(air: Air, tx: uint16, qs: seq<seq<Message>>)
    ensures NoneBlocked(Drain(air, tx, qs)) <==> forall i :: 0 <= i < |qs| ==> Drain(air, tx, qs)[i].queue == []
  {
    forall i | 0 <= i < |qs|
      ensures Drain(air, tx, qs)[i].blocked <==> Drain(air, tx, qs)[i].queue != []
    {
      DequeueAccounts(air, tx, qs, i);
    }
  }

  lemma NoneBlockedExtend(r: seq<Drained>, d: Drained)
    ensures NoneBlocked(r + [d]) <==> NoneBlocked(r) && !d.blocked
  {
    assert (r + [d])[|r|] == d && forall k :: 0 <= k < |r| ==> (r + [d])[k] == r[k];
  }

  lemma DrainManyFirst(air: Air, tx: uint16, qs: seq<seq<Message>>)
    ensures DrainMany(air, tx, qs, 0) == [] && MasterAfter([]) == NO_MASTER
  {
  }

  lemma NoneDrained(queues: seq<Queue<Message>>, repr: set<object>, batch: Batch)
    requires Separate(queues, repr) && batch.slots !in repr && batch.counts !in repr
    requires batch.Valid() && batch.counts.Length == |queues|
    requires forall i :: 0 <= i < |queues| ==> batch.counts[i] == 0
    ensures DrainedSoFar(queues, repr, batch, AllContents(queues, repr), [], [])
  {
  }

  /** The whole call: one pass over the UEs, with one master frame word. */
  method DequeueMessages(air: Air, tx: uint16, queues: seq<Queue<Message>>, ghost repr: set<object>, batch: Batch)
    returns (allEmpty: bool, freed: seq<seq<Message>>)
    requires Separate(queues, repr) && batch.slots !in repr && batch.counts !in repr
    requires batch.Valid() && batch.counts.Length == |queues|
    requires forall i :: 0 <= i < |queues| ==> batch.counts[i] == 0
    modifies repr, batch.slots, batch.counts
    ensures var qs := old(AllContents(queues, repr));
      && DrainedSoFar(queues, repr, batch, qs, Drain(air, tx, qs), freed)
      && (allEmpty <==> NoneBlocked(Drain(air, tx, qs)))
  {
    hide DrainedSoFar, DrainUe, DrainMany, MasterAfter;
    ghost var qs := AllContents(queues, repr);
    ghost var r: seq<Drained> := [];
    NoneDrained(queues, repr, batch);
    DrainManyFirst(air, tx, qs);
    var master := NO_MASTER;
    allEmpty, freed := true, [];
    var i := 0;
    while i < |queues|
      invariant 0 <= i <= |queues| && |r| == i
      invariant DrainedSoFar(queues, repr, batch, qs, r, freed)
      invariant r == DrainMany(air, tx, qs, i) && master == MasterAfter(r)
      invariant allEmpty <==> NoneBlocked(r)
    {
      ghost var d := DrainUe(air, tx, qs[i], master, [], []);
      var empty;
      master, empty, freed := DequeueNext(air, tx, queues, repr, master, batch, i, freed, qs, r);
      NoneBlockedExtend(r, d);
      DrainManyNext(air, tx, qs, i);
      r := r + [d];
      if !empty {
        allEmpty := false;
      }
      i := i + 1;
    }
  }
}
