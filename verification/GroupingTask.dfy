/** oai_subframe_aggregate_messages and oai_slot_aggregate_messages in place: the passes over
    the batch's slots, proved against Grouping.Passes. */
module GroupingTask {
  import opened Wrappers
  import opened Words
  import opened Frames
  import opened UplinkMessages
  import opened Dequeue
  import opened Batches
  import opened Grouping

  // ---- Slots as sequences -----------------------------------------------------------------

  /** The packets of a row of slots that are still there. */
  function Live(row: seq<Option<Message>>): seq<Message> {
    if row == [] then []
    else Live(row[..|row| - 1]) + if row[|row| - 1].Some? then [row[|row| - 1].value] else []
  }

  /** The packets that are still there in the first n rows, in (UE, slot) order. */
  function LiveAll(rows: seq<seq<Option<Message>>>, n: nat): seq<Message>
    requires n <= |rows|
  {
    if n == 0 then [] else LiveAll(rows, n - 1) + Live(rows[n - 1])
  }

  /** A slot after a pass for this id. */
  function Strip(slot: Option<Message>, id: uint16): Option<Message> {
    if slot.Some? && MessageId(slot.value) == id then None else slot
  }

  ghost predicate Stripped(row: seq<Option<Message>>, was: seq<Option<Message>>, id: uint16) {
    |row| == |was| && forall j :: 0 <= j < |row| ==> row[j] == Strip(was[j], id)
  }

  ghost predicate AllStripped(rows: seq<seq<Option<Message>>>, was: seq<seq<Option<Message>>>, id: uint16) {
    |rows| == |was| && forall i :: 0 <= i < |rows| ==> Stripped(rows[i], was[i], id)
  }

  lemma {:induction false} StrippedLive(row: seq<Option<Message>>, was: seq<Option<Message>>, id: uint16)
    requires Stripped(row, was, id)
    ensures Live(row) == Others(Live(was), id)
    decreases |row|
  {
    if row != [] {
      var n := |row| - 1;
      assert Stripped(row[..n], was[..n], id);
      StrippedLive(row[..n], was[..n], id);
      if was[n].Some? {
        assert (Live(was[..n]) + [was[n].value])[..|Live(was[..n])|] == Live(was[..n]);
      } else {
        assert Live(was) == Live(was[..n]);
      }
    }
  }

  lemma {:induction false} OthersConcat(s: seq<Message>, t: seq<Message>, id: uint16)
    ensures Others(s + t, id) == Others(s, id) + Others(t, id)
    decreases |t|
  {
    if t == [] {
      assert s + t == s;
    } else {
      assert (s + t)[..|s + t| - 1] == s + t[..|t| - 1];
      OthersConcat(s, t[..|t| - 1], id);
    }
  }

  lemma {:induction false} AllStrippedLive(rows: seq<seq<Option<Message>>>, was: seq<seq<Option<Message>>>,
                                           id: uint16, n: nat)
    requires AllStripped(rows, was, id) && n <= |rows|
    ensures LiveAll(rows, n) == Others(LiveAll(was, n), id)
  {
    if n > 0 {
      AllStrippedLive(rows, was, id, n - 1);
      StrippedLive(rows[n - 1], was[n - 1], id);
      OthersConcat(LiveAll(was, n - 1), Live(was[n - 1]), id);
    }
  }

  lemma {:induction false} VisitAllConcat(st: Scan, s: seq<Message>, t: seq<Message>)
    ensures VisitAll(st, s + t) == VisitAll(VisitAll(st, s), t)
    decreases |t|
  {
    if t == [] {
      assert s + t == s;
    } else {
      assert (s + t)[..|s + t| - 1] == s + t[..|t| - 1];
      VisitAllConcat(st, s, t[..|t| - 1]);
    }
  }

  ghost predicate NonzeroRow(row: seq<Option<Message>>) {
    forall j :: 0 <= j < |row| && row[j].Some? ==> MessageId(row[j].value) != 0
  }

  lemma {:induction false} NonzeroLive(row: seq<Option<Message>>)
    requires NonzeroRow(row)
    ensures NonzeroIds(Live(row))
  {
    if row != [] {
      NonzeroLive(row[..|row| - 1]);
    }
  }

  lemma {:induction false} NonzeroLiveAll(rows: seq<seq<Option<Message>>>, n: nat)
    requires n <= |rows| && forall i :: 0 <= i < |rows| ==> NonzeroRow(rows[i])
    ensures NonzeroIds(LiveAll(rows, n))
  {
    if n > 0 {
      NonzeroLiveAll(rows, n - 1);
      NonzeroLive(rows[n - 1]);
    }
  }

  // ---- The loops --------------------------------------------------------------------------

  /** The first j slots have been visited in a pass that is now looking for this id. */
  ghost predicate Visited(row: seq<Option<Message>>, was: seq<Option<Message>>, j: nat, id: uint16) {
    && |row| == |was| && j <= |was|
    && (id == 0 ==> forall k :: 0 <= k < j ==> was[k].None?)
    && (forall k :: 0 <= k < j ==> row[k] == Strip(was[k], id))
    && (forall k :: j <= k < |was| ==> row[k] == was[k])
  }

  lemma LiveStep(was: seq<Option<Message>>, j: nat)
    requires j < |was|
    ensures Live(was[..j + 1]) == if was[j].Some? then Live(was[..j]) + [was[j].value] else Live(was[..j])
  {
    assert was[..j + 1][..j] == was[..j];
    assert Live(was[..j]) + [] == Live(was[..j]);
  }

  lemma VisitAllStep(base: Scan, ms: seq<Message>, m: Message)
    ensures VisitAll(base, ms + [m]) == Visit(VisitAll(base, ms), m)
  {
    assert (ms + [m])[..|ms|] == ms;
  }

  /** The slots before j stay stripped when the pass settles on an id. */
  lemma VisitedStep(row: seq<Option<Message>>, was: seq<Option<Message>>, j: nat, id: uint16, now: uint16)
    requires Visited(row, was, j, id) && j < |was| && (id != 0 ==> now == id)
    requires was[j].Some? ==> now != 0
    ensures row[j] == was[j]
    ensures Visited(row[j := Strip(was[j], now)], was, j + 1, now)
  {
    forall k | 0 <= k < j
      ensures row[k] == Strip(was[k], now) && (now == 0 ==> was[k].None?)
    {
      assert id == 0 ==> was[k].None?;
    }
  }

  /** Visiting one more slot. */
  lemma VisitSlot(row: seq<Option<Message>>, was: seq<Option<Message>>, j: nat, st: Scan, base: Scan)
    requires Visited(row, was, j, st.id) && j < |was| && NonzeroRow(was) && st == VisitAll(base, Live(was[..j]))
    ensures row[j] == was[j]
    ensures var now := if was[j].Some? then Visit(st, was[j].value) else st;
      && VisitAll(base, Live(was[..j + 1])) == now
      && Visited(row[j := Strip(was[j], now.id)], was, j + 1, now.id)
  {
    hide VisitAll, Live;
    LiveStep(was, j);
    if was[j].Some? {
      VisitAllStep(base, Live(was[..j]), was[j].value);
      assert MessageId(was[j].value) != 0;
      VisitedStep(row, was, j, st.id, Visit(st, was[j].value).id);
    } else {
      VisitedStep(row, was, j, st.id, st.id);
    }
  }

  /** The body of the scan: one slot. */
  method ScanSlot(batch: Batch, i: nat, j: nat, st: Scan) returns (st': Scan)
    requires batch.Valid() && i < batch.counts.Length && j < batch.counts[i]
    modifies batch.slots
    ensures var row := old(batch.Rows()[i]);
      && st' == (if row[j].Some? then Visit(st, row[j].value) else st)
      && batch.Rows() == old(batch.Rows())[i :=
           if row[j].Some? && st'.id == MessageId(row[j].value) then row[j := None] else row]
  {
    st' := st;
    batch.RowsAt(i);
    var slot := batch.slots[i, j];
    if slot.Some? {
      var msg := slot.value;
      var id := MessageId(msg);
      if st'.id == 0 {
        st' := st'.(id := id);
      }
      if st'.id == id {
        batch.Clear(i, j);
        if |st'.group| == MAX_MSGS {
          st' := st'.(overflow := st'.overflow + [msg]);
        } else {
          st' := st'.(group := st'.group + [msg]);
        }
      }
    }
  }

  /** The scan has reached slot j of row i, and row i is the only one that it has changed. */
  ghost predicate Scanning(rows: seq<seq<Option<Message>>>, was: seq<seq<Option<Message>>>, i: nat, j: nat,
                           st: Scan, base: Scan) {
    && i < |was| && |rows| == |was| && rows == was[i := rows[i]]
    && Visited(rows[i], was[i], j, st.id)
    && st == VisitAll(base, Live(was[i][..j]))
    && (base.id != 0 ==> st.id == base.id)
  }

  lemma ScanningStep(rows: seq<seq<Option<Message>>>, was: seq<seq<Option<Message>>>, i: nat, j: nat,
                     st: Scan, base: Scan, row: seq<Option<Message>>, st': Scan)
    requires Scanning(rows, was, i, j, st, base) && NonzeroRow(was[i]) && j < |rows[i]|
    requires st' == if rows[i][j].Some? then Visit(st, rows[i][j].value) else st
    requires row == if rows[i][j].Some? && st'.id == MessageId(rows[i][j].value) then rows[i][j := None] else rows[i]
    ensures Scanning(rows[i := row], was, i, j + 1, st', base)
  {
    VisitSlot(rows[i], was[i], j, st, base);
    assert row == rows[i][j := Strip(was[i][j], st'.id)];
  }

  /** The scan of one UE's slots in a pass. */
  method ScanRow(batch: Batch, i: nat, st: Scan) returns (st': Scan)
    requires batch.Valid() && i < batch.counts.Length && NonzeroRow(batch.Rows()[i])
    modifies batch.slots
    ensures Scanning(batch.Rows(), old(batch.Rows()), i, |old(batch.Rows()[i])|, st', st)
  {
    st' := st;
    ghost var was := batch.Rows();
    batch.RowsAt(i);
    var j := 0;
    while j < batch.counts[i]
      invariant 0 <= j <= batch.counts[i] == |was[i]|
      invariant Scanning(batch.Rows(), was, i, j, st', st)
    {
      ghost var rows, prev := batch.Rows(), st';
      st' := ScanSlot(batch, i, j, st');
      ScanningStep(rows, was, i, j, prev, st, batch.Rows()[i], st');
      j := j + 1;
    }
  }

  /** The first n rows have been visited in a pass that is now looking for this id. */
  ghost predicate RowsVisited(rows: seq<seq<Option<Message>>>, was: seq<seq<Option<Message>>>, n: nat, id: uint16) {
    && |rows| == |was| && n <= |was|
    && (forall i :: 0 <= i < n ==> Visited(rows[i], was[i], |was[i]|, id))
    && (forall i :: n <= i < |was| ==> rows[i] == was[i])
  }

  lemma VisitRow(rows: seq<seq<Option<Message>>>, was: seq<seq<Option<Message>>>, i: nat, row: seq<Option<Message>>,
                 id: uint16, now: uint16)
    requires RowsVisited(rows, was, i, id) && i < |was| && Visited(row, was[i], |was[i]|, now)
    requires id != 0 ==> now == id
    ensures RowsVisited(rows[i := row], was, i + 1, now)
  {
    forall k | 0 <= k < i
      ensures Visited(rows[k], was[k], |was[k]|, now)
    {
      if id == 0 {
        assert forall j :: 0 <= j < |was[k]| ==> was[k][j].None?;
      }
    }
  }

  ghost predicate NonzeroRows(rows: seq<seq<Option<Message>>>) {
    forall i :: 0 <= i < |rows| ==> NonzeroRow(rows[i])
  }

  /** The scan of the next UE's slots, told in terms of the rows as they were before the pass. */
  method ScanNext(batch: Batch, i: nat, st: Scan, ghost was: seq<seq<Option<Message>>>, ghost start: Scan)
    returns (st': Scan)
    requires batch.Valid() && i < batch.counts.Length == |was| && NonzeroRow(was[i])
    requires st == VisitAll(start, LiveAll(was, i)) && RowsVisited(batch.Rows(), was, i, st.id)
    modifies batch.slots
    ensures st' == VisitAll(start, LiveAll(was, i + 1)) && RowsVisited(batch.Rows(), was, i + 1, st'.id)
  {
    ghost var rows := batch.Rows();
    assert rows[i] == was[i] && was[i][..|was[i]|] == was[i];
    VisitAllConcat(start, LiveAll(was, i), Live(was[i]));
    st' := ScanRow(batch, i, st);
    VisitRow(rows, was, i, batch.Rows()[i], st.id, st'.id);
  }

  /** One pass over the whole batch. */
  method ScanBatch(batch: Batch) returns (st: Scan)
    requires batch.Valid() && NonzeroRows(batch.Rows())
    modifies batch.slots
    ensures var was := old(batch.Rows());
      && st == VisitAll(Scan(0, [], []), LiveAll(was, |was|))
      && RowsVisited(batch.Rows(), was, |was|, st.id)
  {
    ghost var was := batch.Rows();
    st := Scan(0, [], []);
    ghost var start := st;
    var i := 0;
    while i < batch.counts.Length
      invariant 0 <= i <= batch.counts.Length == |was|
      invariant st == VisitAll(start, LiveAll(was, i))
      invariant RowsVisited(batch.Rows(), was, i, st.id)
    {
      st := ScanNext(batch, i, st, was, start);
      i := i + 1;
    }
  }

  lemma RowsVisitedStripped(rows: seq<seq<Option<Message>>>, was: seq<seq<Option<Message>>>, id: uint16)
    requires RowsVisited(rows, was, |was|, id) && NonzeroRows(was)
    ensures AllStripped(rows, was, id) && NonzeroRows(rows)
  {
    forall i | 0 <= i < |rows|
      ensures Stripped(rows[i], was[i], id) && NonzeroRow(rows[i])
    {
      assert Visited(rows[i], was[i], |was[i]|, id);
    }
  }

  lemma PassParts(p: seq<Message>, st: Scan)
    requires NonzeroIds(p) && st == VisitAll(Scan(0, [], []), p)
    ensures st.id == 0 <==> p == []
    ensures p != [] ==>
      && |Others(p, st.id)| < |p|
      && Passes(p) == [Group(st.id, st.group)] + Passes(Others(p, st.id))
      && multiset(st.overflow + st.group) + multiset(Others(p, st.id)) == multiset(p)
  {
    VisitAllFilters(p);
    if p != [] {
      FilterParts(p, st.id);
      OthersShrink(p, st.id);
      assert Matching(p, st.id) == st.group + st.overflow;
    }
  }

  /** What one pass does to the packets that are left. */
  lemma PassEffect(rows: seq<seq<Option<Message>>>, was: seq<seq<Option<Message>>>, st: Scan)
    requires NonzeroRows(was) && st == VisitAll(Scan(0, [], []), LiveAll(was, |was|))
    requires RowsVisited(rows, was, |was|, st.id)
    ensures |rows| == |was| && NonzeroRows(rows)
    ensures LiveAll(rows, |rows|) == Others(LiveAll(was, |was|), st.id)
  {
    RowsVisitedStripped(rows, was, st.id);
    AllStrippedLive(rows, was, st.id, |was|);
  }

  /** What dequeueing puts into a row has ids that its filter let through: the mark for "none
      found" is not among them. */
  lemma DequeuedNonzero(air: Air, tx: uint16, qs: seq<seq<Message>>, i: nat)
    requires i < |qs|
    ensures NonzeroRow(Present(Drain(air, tx, qs)[i].row))
  {
    var d := Drain(air, tx, qs)[i];
    var good := GoodOnes(air, tx, Removed(qs[i], d));
    DequeueAccounts(air, tx, qs, i);
    GoodOnesGood(air, tx, Removed(qs[i], d));
    forall j | 0 <= j < |d.row|
      ensures MessageId(d.row[j]) != 0
    {
      assert d.row[j] == good[j] && good[j] in good;
    }
  }

  /** The packets left in the batch. */
  ghost function Remaining(batch: Batch): seq<Message>
    requires batch.Valid()
    reads batch, batch.slots, batch.counts
  {
    LiveAll(batch.Rows(), |batch.Rows()|)
  }

  /** A pass takes one group and its overflow out of the batch, or finds the batch empty. */
  method OnePass(batch: Batch) returns (st: Scan)
    requires batch.Valid() && NonzeroRows(batch.Rows())
    modifies batch.slots
    ensures NonzeroRows(batch.Rows())
    ensures var left := old(Remaining(batch));
      && (st.id == 0 <==> left == [])
      && (left == [] ==> Remaining(batch) == [])
      && (left != [] ==>
          && |Remaining(batch)| < |left|
          && Passes(left) == [Group(st.id, st.group)] + Passes(Remaining(batch))
          && multiset(st.overflow + st.group) + multiset(Remaining(batch)) == multiset(left))
  {
    ghost var rows := batch.Rows();
    ghost var left := Remaining(batch);
    NonzeroLiveAll(rows, |rows|);
    st := ScanBatch(batch);
    PassEffect(batch.Rows(), rows, st);
    PassParts(left, st);
    assert left == [] ==> Others(left, st.id) == [];
  }

  /** What the passes so far leave: the groups to come, and the packets not yet freed. */
  ghost predicate PassesLeft(p: seq<Message>, groups: seq<Group>, freed: seq<Message>, left: seq<Message>) {
    && groups + Passes(left) == Passes(p)
    && multiset(freed) + multiset(left) == multiset(p)
  }

  lemma MultisetAssoc<T>(a: multiset<T>, b: multiset<T>, c: multiset<T>)
    ensures a + b + c == a + (b + c)
  {
  }

  lemma PassesLeftStep(p: seq<Message>, groups: seq<Group>, freed: seq<Message>, left: seq<Message>,
                       g: Group, gone: seq<Message>, left': seq<Message>)
    requires PassesLeft(p, groups, freed, left)
    requires Passes(left) == [g] + Passes(left') && multiset(gone) + multiset(left') == multiset(left)
    ensures PassesLeft(p, groups + [g], freed + gone, left')
  {
    assert groups + [g] + Passes(left') == groups + ([g] + Passes(left'));
    MultisetAssoc(multiset(freed), multiset(gone), multiset(left'));
  }

  lemma PassesDone(p: seq<Message>, groups: seq<Group>, freed: seq<Message>)
    requires NonzeroIds(p) && PassesLeft(p, groups, freed, [])
    ensures IsGroupBy(p, groups) && multiset(freed) == multiset(p)
  {
    PassesGroupBy(p);
    assert groups == Passes(p);
  }

  /** The whole call: passes until none finds a packet. The groups are the stable group-by of
      the batch, no packet stays in a slot, and every packet is freed once. */
  method AggregateMessages(batch: Batch) returns (groups: seq<Group>, freed: seq<Message>)
    requires batch.Valid() && NonzeroRows(batch.Rows())
    modifies batch.slots
    ensures IsGroupBy(old(Remaining(batch)), groups)
    ensures multiset(freed) == multiset(old(Remaining(batch)))
    ensures Remaining(batch) == []
  {
    groups, freed := [], [];
    ghost var p := Remaining(batch);
    NonzeroLiveAll(batch.Rows(), |batch.Rows()|);
    ghost var left := p;
    while true
      invariant NonzeroRows(batch.Rows()) && left == Remaining(batch)
      invariant PassesLeft(p, groups, freed, left)
      decreases |left|
    {
      var st := OnePass(batch);
      if st.id == 0 {
        break;
      }
      PassesLeftStep(p, groups, freed, left, Group(st.id, st.group), st.overflow + st.group, Remaining(batch));
      left := Remaining(batch);
      groups := groups + [Group(st.id, st.group)];
      freed := freed + (st.overflow + st.group);
    }
    PassesDone(p, groups, freed);
  }
}
