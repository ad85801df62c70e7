/** Grouping a batch by message id: oai_subframe_aggregate_messages and
    oai_slot_aggregate_messages of src/nfapi_pnf.c. Each pass takes the id of the first packet
    that is left and removes every packet with that id; at most eight of them form the group
    that is sent on, and the rest are freed. */
module Grouping {
  import opened Wrappers
  import opened Words
  import opened Frames
  import opened UplinkMessages
  import opened Dequeue

  datatype Group = Group(id: uint16, msgs: seq<Message>)

  function Matching(p: seq<Message>, id: uint16): seq<Message> {
    if p == [] then []
    else Matching(p[..|p| - 1], id) + if MessageId(p[|p| - 1]) == id then [p[|p| - 1]] else []
  }

  function Others(p: seq<Message>, id: uint16): seq<Message> {
    if p == [] then []
    else Others(p[..|p| - 1], id) + if MessageId(p[|p| - 1]) == id then [] else [p[|p| - 1]]
  }

  /** The groups that the passes send on. */
  function Passes(p: seq<Message>): seq<Group>
    decreases |p|
  {
    if p == [] then []
    else
      var id := MessageId(p[0]);
      OthersShrink(p, id);
      [Group(id, FirstEight(Matching(p, id)))] + Passes(Others(p, id))
  }

  // ---- One pass ---------------------------------------------------------------------------

  /** The locals of a pass: found_msg_id, msgs_by_id, and the packets freed as too many. */
  datatype Scan = Scan(id: uint16, group: seq<Message>, overflow: seq<Message>)

  /** The body of the scan for a slot that is not NULL. */
  function Visit(st: Scan, m: Message): Scan {
    var id := if st.id == 0 then MessageId(m) else st.id;
    if id != MessageId(m) then st.(id := id)
    else if |st.group| == MAX_MSGS then Scan(id, st.group, st.overflow + [m])
    else Scan(id, st.group + [m], st.overflow)
  }

  function VisitAll(st: Scan, ms: seq<Message>): Scan {
    if ms == [] then st else Visit(VisitAll(st, ms[..|ms| - 1]), ms[|ms| - 1])
  }

  /** No packet carries id 0, the source's mark for "none found". */
  ghost predicate NonzeroIds(p: seq<Message>) {
    forall k :: 0 <= k < |p| ==> MessageId(p[k]) != 0
  }

  /** A packet of the id that the scan looks for. */
  lemma VisitMatch(id: uint16, ms: seq<Message>, m: Message)
    requires id != 0 && MessageId(m) == id
    ensures Visit(Scan(id, FirstEight(ms), PastEight(ms)), m)
      == Scan(id, FirstEight(ms + [m]), PastEight(ms + [m]))
  {
    assert |ms| >= MAX_MSGS ==> (ms + [m])[MAX_MSGS..] == ms[MAX_MSGS..] + [m];
  }

  lemma VisitFirst(m: Message)
    requires MessageId(m) != 0
    ensures VisitAll(Scan(0, [], []), [m]) == Scan(MessageId(m), [m], [])
    ensures Matching([m], MessageId(m)) == [m]
  {
    assert [m][..0] == [];
  }

  lemma {:induction false} VisitAllFilters(p: seq<Message>)
    requires NonzeroIds(p)
    ensures var st := VisitAll(Scan(0, [], []), p);
      && (p == [] ==> st == Scan(0, [], []))
      && (p != [] ==> st == Scan(MessageId(p[0]), FirstEight(Matching(p, MessageId(p[0]))),
                                 PastEight(Matching(p, MessageId(p[0])))))
  {
    if |p| == 1 {
      assert p == [p[0]];
      VisitFirst(p[0]);
    } else if p != [] {
      var q, m, id := p[..|p| - 1], p[|p| - 1], MessageId(p[0]);
      VisitAllFilters(q);
      if MessageId(m) == id {
        VisitMatch(id, Matching(q, id), m);
      }
    }
  }

  // ---- Stable group-by --------------------------------------------------------------------

  lemma {:induction false} OthersShrink(p: seq<Message>, id: uint16)
    ensures |Others(p, id)| + |Matching(p, id)| == |p|
    ensures p != [] && MessageId(p[0]) == id ==> |Others(p, id)| < |p|
  {
    if p != [] {
      OthersShrink(p[..|p| - 1], id);
    }
  }

  lemma {:induction false} FilterParts(p: seq<Message>, id: uint16)
    ensures multiset(Matching(p, id)) + multiset(Others(p, id)) == multiset(p)
  {
    if p != [] {
      var q, m := p[..|p| - 1], p[|p| - 1];
      FilterParts(q, id);
      assert p == q + [m];
      if MessageId(m) == id {
        assert Others(p, id) == Others(q, id) && Matching(p, id) == Matching(q, id) + [m];
      } else {
        assert Matching(p, id) == Matching(q, id) && Others(p, id) == Others(q, id) + [m];
      }
    }
  }

  /** The position of the first packet with this id, or the length of p. */
  function FirstIndex(p: seq<Message>, id: uint16): nat {
    if p == [] then 0 else if MessageId(p[0]) == id then 0 else 1 + FirstIndex(p[1..], id)
  }

  ghost predicate Occurs(p: seq<Message>, id: uint16) {
    exists k :: 0 <= k < |p| && MessageId(p[k]) == id
  }

  /** Removing one id keeps the order in which the other ids first occur. */
  lemma {:induction false} FirstIndexOrder(p: seq<Message>, gone: uint16, a: uint16, b: uint16)
    requires a != gone && b != gone && FirstIndex(Others(p, gone), a) < FirstIndex(Others(p, gone), b)
    ensures FirstIndex(p, a) < FirstIndex(p, b)
  {
    if p != [] {
      OthersHead(p, gone);
      if MessageId(p[0]) == gone {
        assert [] + Others(p[1..], gone) == Others(p[1..], gone);
        FirstIndexOrder(p[1..], gone, a, b);
      } else if MessageId(p[0]) != a && MessageId(p[0]) != b {
        assert ([p[0]] + Others(p[1..], gone))[1..] == Others(p[1..], gone);
        FirstIndexOrder(p[1..], gone, a, b);
      }
    }
  }

  lemma {:induction false} OthersHead(p: seq<Message>, id: uint16)
    requires p != []
    ensures Others(p, id) == (if MessageId(p[0]) == id then [] else [p[0]]) + Others(p[1..], id)
    decreases |p|
  {
    var q, m := p[..|p| - 1], p[|p| - 1];
    if q == [] {
      assert p[1..] == [] && Others(q, id) == [] && Others(p[1..], id) == [];
    } else {
      OthersHead(q, id);
      var head, last := if MessageId(p[0]) == id then [] else [p[0]], if MessageId(m) == id then [] else [m];
      assert Others(p, id) == head + Others(q[1..], id) + last;
      assert p[1..][..|p| - 2] == q[1..];
      assert Others(p[1..], id) == Others(q[1..], id) + last;
      assert head + Others(q[1..], id) + last == head + (Others(q[1..], id) + last);
    }
  }

  lemma {:induction false} MatchingAfterOthers(p: seq<Message>, gone: uint16, id: uint16)
    requires id != gone
    ensures Matching(Others(p, gone), id) == Matching(p, id)
  {
    if p != [] {
      var q, m := p[..|p| - 1], p[|p| - 1];
      MatchingAfterOthers(q, gone, id);
      if MessageId(m) != gone {
        assert (Others(q, gone) + [m])[..|Others(q, gone)|] == Others(q, gone);
      } else {
        assert Others(q, gone) + [] == Others(q, gone);
      }
    }
  }

  lemma {:induction false} OccursInOthers(p: seq<Message>, gone: uint16, id: uint16)
    ensures Occurs(Others(p, gone), id) <==> Occurs(p, id) && id != gone
  {
    if p != [] {
      var q, m := p[..|p| - 1], p[|p| - 1];
      OccursInOthers(q, gone, id);
      assert p == q + [m];
      var rest := Others(q, gone);
      if Occurs(rest, id) {
        var k :| 0 <= k < |rest| && MessageId(rest[k]) == id;
        assert MessageId(Others(p, gone)[k]) == id;
      }
      if Occurs(q, id) {
        var k :| 0 <= k < |q| && MessageId(q[k]) == id;
        assert MessageId(p[k]) == id;
      }
      if MessageId(m) == id && id != gone {
        assert MessageId(Others(p, gone)[|rest|]) == id;
      }
    }
  }

  /** What a stable group-by of p is: one group for each id that occurs, in the order of their
      first occurrences, each holding the first eight packets of that id in order. */
  ghost predicate IsGroupBy(p: seq<Message>, groups: seq<Group>) {
    && HoldFirstEight(p, groups)
    && InFirstOccurrenceOrder(p, groups)
    && CoverIds(p, groups)
  }

  ghost predicate HoldFirstEight(p: seq<Message>, groups: seq<Group>) {
    forall k :: 0 <= k < |groups| ==>
      Occurs(p, groups[k].id) && groups[k].msgs == FirstEight(Matching(p, groups[k].id))
  }

  ghost predicate InFirstOccurrenceOrder(p: seq<Message>, groups: seq<Group>) {
    forall k, l :: 0 <= k < l < |groups| ==> FirstIndex(p, groups[k].id) < FirstIndex(p, groups[l].id)
  }

  ghost predicate CoverIds(p: seq<Message>, groups: seq<Group>) {
    forall i :: 0 <= i < |p| ==> HasGroup(groups, MessageId(p[i]))
  }

  ghost predicate HasGroup(groups: seq<Group>, id: uint16) {
    exists k :: 0 <= k < |groups| && groups[k].id == id
  }

  /** The repeated destructive passes compute the stable group-by. */
  lemma {:induction false} PassesGroupBy(p: seq<Message>)
    ensures IsGroupBy(p, Passes(p))
    decreases |p|
  {
    if p != [] {
      var id := MessageId(p[0]);
      var rest := Others(p, id);
      OthersShrink(p, id);
      PassesGroupBy(rest);
      PrependGroup(p, Group(id, FirstEight(Matching(p, id))), Passes(rest));
    }
  }

  /** The group of the first packet's id, put before a group-by of the other packets. */
  lemma PrependGroup(p: seq<Message>, head: Group, tail: seq<Group>)
    requires p != [] && head == Group(MessageId(p[0]), FirstEight(Matching(p, MessageId(p[0]))))
    requires IsGroupBy(Others(p, head.id), tail)
    ensures IsGroupBy(p, [head] + tail)
  {
    assert Occurs(p, head.id);
    PrependHold(p, head, tail);
    PrependOrder(p, head, tail);
    PrependCover(p, head, tail);
  }

  lemma PrependHold(p: seq<Message>, head: Group, tail: seq<Group>)
    requires Occurs(p, head.id) && head.msgs == FirstEight(Matching(p, head.id))
    requires HoldFirstEight(Others(p, head.id), tail)
    ensures HoldFirstEight(p, [head] + tail)
    ensures forall k :: 0 <= k < |tail| ==> tail[k].id != head.id
  {
    forall k | 0 <= k < |tail|
      ensures tail[k].id != head.id
      ensures Occurs(p, tail[k].id) && tail[k].msgs == FirstEight(Matching(p, tail[k].id))
    {
      OccursInOthers(p, head.id, tail[k].id);
      MatchingAfterOthers(p, head.id, tail[k].id);
    }
  }

  lemma PrependOrder(p: seq<Message>, head: Group, tail: seq<Group>)
    requires p != [] && head.id == MessageId(p[0])
    requires forall k :: 0 <= k < |tail| ==> tail[k].id != head.id
    requires InFirstOccurrenceOrder(Others(p, head.id), tail)
    ensures InFirstOccurrenceOrder(p, [head] + tail)
  {
    forall k, l | 0 <= k < l < |tail|
      ensures FirstIndex(p, tail[k].id) < FirstIndex(p, tail[l].id)
    {
      FirstIndexOrder(p, head.id, tail[k].id, tail[l].id);
    }
  }

  lemma PrependCover(p: seq<Message>, head: Group, tail: seq<Group>)
    requires CoverIds(Others(p, head.id), tail)
    ensures CoverIds(p, [head] + tail)
  {
    var groups := [head] + tail;
    forall i | 0 <= i < |p|
      ensures HasGroup(groups, MessageId(p[i]))
    {
      if MessageId(p[i]) == head.id {
        assert groups[0].id == head.id;
      } else {
        assert Occurs(p, MessageId(p[i]));
        OccursInOthers(p, head.id, MessageId(p[i]));
        var j :| 0 <= j < |Others(p, head.id)| && MessageId(Others(p, head.id)[j]) == MessageId(p[i]);
        assert HasGroup(tail, MessageId(p[i]));
        var k :| 0 <= k < |tail| && tail[k].id == MessageId(p[i]);
        assert groups[k + 1].id == MessageId(p[i]);
      }
    }
  }

  lemma {:induction false} MatchingIds(p: seq<Message>, id: uint16)
    ensures forall k :: 0 <= k < |Matching(p, id)| ==> MessageId(Matching(p, id)[k]) == id
    ensures Occurs(p, id) ==> Matching(p, id) != []
  {
    if p != [] {
      MatchingIds(p[..|p| - 1], id);
      if Occurs(p, id) && MessageId(p[|p| - 1]) != id {
        var k :| 0 <= k < |p| && MessageId(p[k]) == id;
        assert MessageId(p[..|p| - 1][k]) == id;
      }
    }
  }

  /** What the aggregation functions assert about the group they are given. */
  lemma GroupsWellFormed(p: seq<Message>, groups: seq<Group>, k: nat)
    requires IsGroupBy(p, groups) && k < |groups|
    ensures 0 < |groups[k].msgs| <= 8
    ensures forall j :: 0 <= j < |groups[k].msgs| ==> MessageId(groups[k].msgs[j]) == groups[k].id
  {
    MatchingIds(p, groups[k].id);
  }

  ghost predicate Increasing(s: seq<nat>) {
    forall k, l :: 0 <= k < l < |s| ==> s[k] < s[l]
  }

  ghost predicate Within(s: seq<nat>, t: seq<nat>) {
    forall k :: 0 <= k < |s| ==> s[k] in t
  }

  lemma HeadWithin(s: seq<nat>, t: seq<nat>)
    requires Increasing(t) && Within(s, t) && s != []
    ensures t != [] && t[0] <= s[0]
  {
    assert s[0] in t;
    var k :| 0 <= k < |t| && t[k] == s[0];
  }

  lemma TailWithin(s: seq<nat>, t: seq<nat>)
    requires Increasing(s) && Within(s, t) && s != [] && t != [] && t[0] == s[0]
    ensures Within(s[1..], t[1..])
  {
    forall k | 0 <= k < |s[1..]|
      ensures s[1..][k] in t[1..]
    {
      assert s[k + 1] in t && s[k + 1] != s[0];
      var l :| 0 <= l < |t| && t[l] == s[k + 1];
      assert t[1..][l - 1] == s[1..][k];
    }
  }

  lemma IncreasingTail(s: seq<nat>)
    requires Increasing(s) && s != []
    ensures Increasing(s[1..])
  {
  }

  lemma {:induction false} IncreasingUnique(s: seq<nat>, t: seq<nat>)
    requires Increasing(s) && Increasing(t) && Within(s, t) && Within(t, s)
    ensures s == t
    decreases |s|
  {
    if s != [] {
      HeadWithin(s, t);
      HeadWithin(t, s);
      TailWithin(s, t);
      TailWithin(t, s);
      IncreasingTail(s);
      IncreasingTail(t);
      IncreasingUnique(s[1..], t[1..]);
      assert s == [s[0]] + s[1..] && t == [t[0]] + t[1..];
    } else if t != [] {
      HeadWithin(t, s);
    }
  }

  /** Where the ids of a group-by first occur. */
  function Starts(p: seq<Message>, groups: seq<Group>): (s: seq<nat>)
    ensures |s| == |groups| && forall k :: 0 <= k < |s| ==> s[k] == FirstIndex(p, groups[k].id)
  {
    seq(|groups|, k requires 0 <= k < |groups| => FirstIndex(p, groups[k].id))
  }

  lemma {:induction false} FirstIndexCarries(p: seq<Message>, id: uint16)
    requires Occurs(p, id)
    ensures FirstIndex(p, id) < |p| && MessageId(p[FirstIndex(p, id)]) == id
  {
    if MessageId(p[0]) != id {
      var k :| 0 <= k < |p| && MessageId(p[k]) == id;
      assert MessageId(p[1..][k - 1]) == id;
      FirstIndexCarries(p[1..], id);
    }
  }

  lemma StartsWithin(p: seq<Message>, a: seq<Group>, b: seq<Group>)
    requires IsGroupBy(p, a) && IsGroupBy(p, b)
    ensures Within(Starts(p, a), Starts(p, b))
  {
    forall k | 0 <= k < |a|
      ensures Starts(p, a)[k] in Starts(p, b)
    {
      FirstIndexCarries(p, a[k].id);
      assert HasGroup(b, MessageId(p[FirstIndex(p, a[k].id)]));
      var l :| 0 <= l < |b| && b[l].id == a[k].id;
      assert Starts(p, b)[l] == Starts(p, a)[k];
    }
  }

  /** A stable group-by is unique. */
  lemma GroupByUnique(p: seq<Message>, a: seq<Group>, b: seq<Group>)
    requires IsGroupBy(p, a) && IsGroupBy(p, b)
    ensures a == b
  {
    var s, t := Starts(p, a), Starts(p, b);
    StartsWithin(p, a, b);
    StartsWithin(p, b, a);
    IncreasingUnique(s, t);
    forall k | 0 <= k < |a|
      ensures a[k] == b[k]
    {
      FirstIndexCarries(p, a[k].id);
      FirstIndexCarries(p, b[k].id);
      assert s[k] == t[k];
    }
  }
}
