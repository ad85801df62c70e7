/** Merging a group into one indication: the oai_subframe_aggregate_*_ind and
    oai_slot_aggregate_*_ind functions of src/nfapi_pnf.c, one model for all of them but the
    RACH forwarders. They differ in how they unpack, in which indications they refuse, and in
    the width of the count field; those are parameters. */
module Aggregation {
  import opened Wrappers
  import opened Words
  import opened Frames
  import opened UplinkMessages
  import opened Dequeue
  import opened Grouping

  /** NFAPI_CRC_IND_MAX_PDU and the other caps, all of them 100. */
  const MAX_PDUS := 100

  type positive = x: nat | x > 0 witness 1

  /** A number stored in an unsigned field with this many values. */
  function Field(total: nat, values: positive): nat { total % values }

  lemma FieldValue(total: nat, values: positive)
    ensures total < values ==> Field(total, values) == total
    ensures values <= total < 2 * values ==> Field(total, values) == total - values
  {
    if total < values {
      assert total / values == 0;
    } else if total < 2 * values {
      assert total == values * 1 + (total - values);
      assert total / values == 1;
    }
  }

  /** What unpacking a packet yields; header also stands for the frame, slot and tl fields. */
  datatype Indication<H, P> = Indication(header: H, pdus: seq<P>)

  datatype Outcome<H, P> =
    | Sent(header: H, count: nat, cells: seq<P>)
    | Suppressed
    | Aborted

  /** How one aggregator unpacks packets, which indications make it abort, and the number of
      values of its count field. */
  datatype Aggregator<!H, !P> = Aggregator(unpack: Message -> Option<Indication<H, P>>,
                                           fatal: Indication<H, P> -> bool, counts: positive)
  {
    /** A packet that lets the scan go on. */
    ghost predicate Usable(m: Message) {
      unpack(m).Some? && !fatal(unpack(m).value)
    }

    /** A packet's PDU number comes from a field of the same width as the sum. */
    ghost predicate Fits(m: Message) {
      unpack(m).Some? ==> |unpack(m).value.pdus| < counts
    }

    ghost predicate Valid(msgs: seq<Message>) {
      MAX_PDUS < counts && forall k :: 0 <= k < |msgs| ==> Fits(msgs[k])
    }

    /** The PDUs of the first n packets, one after the other. */
    ghost function Gathered(msgs: seq<Message>, n: nat): seq<P>
      requires n <= |msgs|
    {
      if n == 0 then []
      else Gathered(msgs, n - 1) + if unpack(msgs[n - 1]).Some? then unpack(msgs[n - 1]).value.pdus else []
    }

    /** The scan comes to packet n: those before it are usable and leave room. */
    ghost predicate Reaches(msgs: seq<Message>, n: nat)
      requires n <= |msgs|
    {
      |Gathered(msgs, n)| < MAX_PDUS && forall k :: 0 <= k < n ==> Usable(msgs[k])
    }

    /** The packet that the scan ends at: it is not usable, or fills the list, or is the last. */
    ghost predicate EndsAt(msgs: seq<Message>, e: nat)
      requires e < |msgs|
    {
      && Reaches(msgs, e)
      && (e + 1 < |msgs| ==> !Reaches(msgs, e + 1))
    }

    /** What is made of the group when the scan ends at packet e. */
    ghost predicate Yields(msgs: seq<Message>, e: nat, out: Outcome<H, P>, blank: P)
      requires e < |msgs|
    {
      && EndsAt(msgs, e)
      && if unpack(msgs[e]).None? then out.Suppressed?
         else if fatal(unpack(msgs[e]).value) then out.Aborted?
         else
           var all := Gathered(msgs, e + 1);
           out == Sent(unpack(msgs[e]).value.header, Field(|all|, counts), Padded(all, blank))
    }
  }

  /** The indications whose aggregator aborts when one of them is empty. */
  predicate RefusesEmpty(air: Air, id: uint16) {
    if air.Lte? then id == NFAPI_RX_ULSCH_INDICATION || id == NFAPI_RX_CQI_INDICATION
    else id == NR_RX_DATA_INDICATION || id == NR_UCI_INDICATION
  }

  /** How many values the count field of an indication has: the SRS field has eight bits. */
  function CountValues(air: Air, id: uint16): positive {
    if air.Nr? && id == NR_SRS_INDICATION then 0x100 else 0x1_0000
  }

  /** The aggregator that the dispatch picks for a message id other than RACH. The UCI
      aggregator also aborts when it finds no RNTI in the first PDU. */
  function Dispatch<H, P>(air: Air, id: uint16, unpack: Message -> Option<Indication<H, P>>, noRnti: P -> bool)
    : Aggregator<H, P>
  {
    Aggregator(
      unpack,
      (ind: Indication<H, P>) => RefusesEmpty(air, id)
        && (ind.pdus == [] || (air.Nr? && id == NR_UCI_INDICATION && noRnti(ind.pdus[0]))),
      CountValues(air, id))
  }

  /** The list array once the PDUs of s have been copied into it, as far as it goes. */
  function Padded<P>(s: seq<P>, blank: P): (cells: seq<P>)
    ensures |cells| == 100
    ensures forall k :: 0 <= k < 100 ==> cells[k] == if k < |s| then s[k] else blank
  {
    seq(MAX_PDUS, k requires 0 <= k => if k < |s| then s[k] else blank)
  }

  function Min(a: nat, b: nat): nat { if a < b then a else b }

  /** The inner loop: it copies PDUs until they run out or the array is full. */
  method CopyPdus<P>(list: array<P>, pduIndex: nat, pdus: seq<P>, ghost before: seq<P>, ghost blank: P)
    returns (index: nat)
    requires list.Length == MAX_PDUS && pduIndex == |before| < MAX_PDUS
    requires list[..] == Padded(before, blank)
    modifies list
    ensures index == Min(|before + pdus|, MAX_PDUS)
    ensures list[..] == Padded(before + pdus, blank)
  {
    index := pduIndex;
    var i := 0;
    while i < |pdus|
      invariant 0 <= i <= |pdus| && index == |before| + i <= MAX_PDUS
      invariant list[..] == Padded(before + pdus[..i], blank)
    {
      if index == MAX_PDUS {
        break;
      }
      list[index] := pdus[i];
      index := index + 1;
      i := i + 1;
    }
    assert list[..] == Padded(before + pdus, blank);
  }

  /** The outer loop and the send. The result is that of the packet the scan ends at. */
  method Aggregate<H, P>(how: Aggregator<H, P>, msgs: seq<Message>, zero: H, blank: P)
    returns (out: Outcome<H, P>)
    requires msgs != [] && how.Valid(msgs)
    ensures exists e: nat :: e < |msgs| && how.Yields(msgs, e, out, blank)
  {
    var list := new P[MAX_PDUS](_ => blank);
    var header, count, pduIndex := zero, 0, 0;
    var n := 0;
    while n < |msgs|
      invariant 0 <= n <= |msgs|
      invariant n < |msgs| ==> how.Reaches(msgs, n) && count == pduIndex == |how.Gathered(msgs, n)|
      invariant list[..] == Padded(how.Gathered(msgs, n), blank)
      invariant n > 0 ==> how.Usable(msgs[n - 1]) && header == how.unpack(msgs[n - 1]).value.header
      invariant n == |msgs| ==>
        how.Reaches(msgs, n - 1) && how.Usable(msgs[n - 1]) && count == Field(|how.Gathered(msgs, n)|, how.counts)
    {
      var ind := how.unpack(msgs[n]);
      if ind.None? {
        out := Suppressed;
        assert how.Yields(msgs, n, out, blank);
        return;
      }
      if how.fatal(ind.value) {
        out := Aborted;
        assert how.Yields(msgs, n, out, blank);
        return;
      }
      header := ind.value.header;
      assert how.Fits(msgs[n]);
      count := Field(count + |ind.value.pdus|, how.counts);
      FieldValue(|how.Gathered(msgs, n + 1)|, how.counts);
      pduIndex := CopyPdus(list, pduIndex, ind.value.pdus, how.Gathered(msgs, n), blank);
      n := n + 1;
      if pduIndex == MAX_PDUS {
        break;
      }
    }
    out := Sent(header, count, list[..]);
    assert how.Yields(msgs, n - 1, out, blank);
  }

  // ---- What the result means --------------------------------------------------------------

  lemma {:induction false} GatheredPrefix<H, P>(how: Aggregator<H, P>, msgs: seq<Message>, m: nat, n: nat)
    requires m <= n <= |msgs|
    ensures how.Gathered(msgs, m) <= how.Gathered(msgs, n)
  {
    if m < n {
      GatheredPrefix(how, msgs, m, n - 1);
    }
  }

  lemma ReachesDown<H, P>(how: Aggregator<H, P>, msgs: seq<Message>, m: nat, n: nat)
    requires m <= n <= |msgs| && how.Reaches(msgs, n)
    ensures how.Reaches(msgs, m)
  {
    GatheredPrefix(how, msgs, m, n);
  }

  /** The scan ends at one packet only. */
  lemma EndUnique<H, P>(how: Aggregator<H, P>, msgs: seq<Message>, e: nat, f: nat)
    requires e < |msgs| && f < |msgs| && how.EndsAt(msgs, e) && how.EndsAt(msgs, f)
    ensures e == f
  {
    if e < f {
      ReachesDown(how, msgs, e + 1, f);
    } else if f < e {
      ReachesDown(how, msgs, f + 1, e);
    }
  }

  /** What is sent is the first hundred PDUs of the whole group: ending the scan early loses
      nothing that would have been kept. */
  lemma SentFirstHundred<H, P>(how: Aggregator<H, P>, msgs: seq<Message>, e: nat, out: Outcome<H, P>, blank: P)
    requires e < |msgs| && how.Yields(msgs, e, out, blank) && out.Sent?
    ensures out.cells == Padded(how.Gathered(msgs, |msgs|), blank)
  {
    GatheredPrefix(how, msgs, e + 1, |msgs|);
    var part, all := how.Gathered(msgs, e + 1), how.Gathered(msgs, |msgs|);
    if e + 1 < |msgs| {
      assert |part| >= MAX_PDUS;
    }
    assert forall k :: 0 <= k < MAX_PDUS && k < |part| ==> part[k] == all[k];
  }

  /** The count that is sent is the number of list entries in use exactly when the packets
      that were scanned hold at most a hundred PDUs, even though the count field wraps. */
  lemma CountExact<H, P>(how: Aggregator<H, P>, msgs: seq<Message>, e: nat, out: Outcome<H, P>, blank: P)
    requires e < |msgs| && how.Valid(msgs) && how.Yields(msgs, e, out, blank) && out.Sent?
    ensures out.count == Min(|how.Gathered(msgs, e + 1)|, 100) <==> |how.Gathered(msgs, e + 1)| <= 100
  {
    var total := |how.Gathered(msgs, e + 1)|;
    assert how.Fits(msgs[e]);
    FieldValue(total, how.counts);
  }

  /** A packet that cannot be unpacked suppresses its whole group exactly when the scan
      reaches it, that is, unless the packets before it fill the list or abort. */
  lemma SuppressedIff<H, P>(how: Aggregator<H, P>, msgs: seq<Message>, e: nat, out: Outcome<H, P>, blank: P)
    requires e < |msgs| && how.Yields(msgs, e, out, blank)
    ensures out.Suppressed? <==> exists k :: 0 <= k < |msgs| && how.Reaches(msgs, k) && how.unpack(msgs[k]).None?
  {
    forall k | 0 <= k < |msgs| && how.Reaches(msgs, k) && how.unpack(msgs[k]).None?
      ensures k == e
    {
      assert k + 1 < |msgs| ==> !how.Reaches(msgs, k + 1);
      EndUnique(how, msgs, k, e);
    }
  }

  /** A group whose packets are all usable, with a hundred PDUs at most, is sent whole. */
  lemma NothingLost<H, P>(how: Aggregator<H, P>, msgs: seq<Message>, e: nat, out: Outcome<H, P>, blank: P)
    requires e < |msgs| && how.Valid(msgs) && how.Yields(msgs, e, out, blank)
    requires forall k :: 0 <= k < |msgs| ==> how.Usable(msgs[k])
    requires |how.Gathered(msgs, |msgs|)| <= 100
    ensures out.Sent? && out.count == |how.Gathered(msgs, |msgs|)|
    ensures out.header == how.unpack(msgs[e]).value.header && (e + 1 < |msgs| ==> |how.Gathered(msgs, e + 1)| == 100)
    ensures out.cells[..out.count] == how.Gathered(msgs, |msgs|)
  {
    SentFirstHundred(how, msgs, e, out, blank);
    CountExact(how, msgs, e, out, blank);
    GatheredPrefix(how, msgs, e + 1, |msgs|);
    assert e + 1 < |msgs| ==> |how.Gathered(msgs, e + 1)| >= MAX_PDUS;
  }

  /** A group is refused exactly when the scan reaches a packet that its aggregator refuses. */
  lemma AbortedIff<H, P>(how: Aggregator<H, P>, msgs: seq<Message>, e: nat, out: Outcome<H, P>, blank: P)
    requires e < |msgs| && how.Yields(msgs, e, out, blank)
    ensures out.Aborted? <==>
      exists k :: 0 <= k < |msgs| && how.Reaches(msgs, k) && how.unpack(msgs[k]).Some? && !how.Usable(msgs[k])
  {
    forall k | 0 <= k < |msgs| && how.Reaches(msgs, k) && !how.Usable(msgs[k])
      ensures k == e
    {
      assert k + 1 < |msgs| ==> !how.Reaches(msgs, k + 1);
      EndUnique(how, msgs, k, e);
    }
  }

  function SrsSizes(m: Message): Option<Indication<int, int>> {
    Some(Indication(0, seq(if m.handle.ticket == 0 then 99 else 255, _ => 0)))
  }

  /** An SRS group whose count wraps: 99 PDUs and then 255 fill the list, and 98 is sent. */
  lemma CountWraps()
    ensures var how := Dispatch(Nr, NR_SRS_INDICATION, SrsSizes, (p: int) => false);
      var msgs := [Message(Handle(0, 0), []), Message(Handle(0, 1), [])];
      && how.Valid(msgs) && |how.Gathered(msgs, 2)| == 354
      && how.Yields(msgs, 1, Sent(0, 98, Padded(how.Gathered(msgs, 2), 0)), 0)
  {
    var how := Dispatch(Nr, NR_SRS_INDICATION, SrsSizes, (p: int) => false);
    var msgs := [Message(Handle(0, 0), []), Message(Handle(0, 1), [])];
    assert |how.Gathered(msgs, 0)| == 0 && |how.Gathered(msgs, 1)| == 99;
    FieldValue(354, 0x100);
    assert how.EndsAt(msgs, 1);
  }

  /** The number of PDUs that is sent, in a field of 8 bits for SRS and of 16 bits otherwise. */
  lemma CountField<H, P>(air: Air, id: uint16, unpack: Message -> Option<Indication<H, P>>, noRnti: P -> bool,
                         msgs: seq<Message>, e: nat, out: Outcome<H, P>, blank: P)
    requires e < |msgs| && out.Sent?
    requires Dispatch(air, id, unpack, noRnti).Yields(msgs, e, out, blank)
    ensures var total := |Dispatch(air, id, unpack, noRnti).Gathered(msgs, e + 1)|;
      out.count == if air.Nr? && id == 0x88 then total % 0x100 else total % 0x1_0000
  {
  }

  /** A packet without PDUs aborts the process in the aggregators of RX_ULSCH and CQI (LTE) and of
      RX_DATA and UCI (NR), and in no others; a packet with PDUs only in that of UCI, when the first
      has no RNTI. */
  lemma RefusedIndications<H, P>(air: Air, id: uint16, unpack: Message -> Option<Indication<H, P>>,
                                 noRnti: P -> bool, ind: Indication<H, P>)
    ensures Dispatch(air, id, unpack, noRnti).fatal(ind) <==>
      if ind.pdus == [] then (air.Lte? && (id == 0x87 || id == 0x8B)) || (air.Nr? && (id == 0x85 || id == 0x87))
      else air.Nr? && id == 0x87 && noRnti(ind.pdus[0])
  {
    assert Dispatch(air, id, unpack, noRnti).fatal(ind) == (RefusesEmpty(air, id)
      && (ind.pdus == [] || (air.Nr? && id == NR_UCI_INDICATION && noRnti(ind.pdus[0]))));
  }

  // ---- The groups of a batch --------------------------------------------------------------

  /** The PDU numbers that unpacking reads come from the count field of the indication. */
  ghost predicate Counted<H, P>(air: Air, id: uint16, unpack: Message -> Option<Indication<H, P>>) {
    forall m :: unpack(m).Some? ==> |unpack(m).value.pdus| < CountValues(air, id)
  }

  /** Every group of a batch meets what its aggregator asks of it. */
  lemma GroupAggregates<H, P>(air: Air, p: seq<Message>, groups: seq<Group>, k: nat,
                              unpack: Message -> Option<Indication<H, P>>, noRnti: P -> bool)
    requires IsGroupBy(p, groups) && k < |groups| && Counted(air, groups[k].id, unpack)
    ensures groups[k].msgs != [] && Dispatch(air, groups[k].id, unpack, noRnti).Valid(groups[k].msgs)
  {
    GroupsWellFormed(p, groups, k);
  }

  /** A group of packets that hold PDUs, the first one with an RNTI, and a hundred PDUs at most
      together, is sent whole, whichever aggregator its id picks. */
  lemma GroupSentWhole<H, P>(air: Air, p: seq<Message>, groups: seq<Group>, k: nat,
                             unpack: Message -> Option<Indication<H, P>>, noRnti: P -> bool,
                             e: nat, out: Outcome<H, P>, blank: P)
    requires IsGroupBy(p, groups) && k < |groups| && Counted(air, groups[k].id, unpack)
    requires forall m :: m in groups[k].msgs ==>
      unpack(m).Some? && unpack(m).value.pdus != [] && !noRnti(unpack(m).value.pdus[0])
    requires var how, msgs := Dispatch(air, groups[k].id, unpack, noRnti), groups[k].msgs;
      |how.Gathered(msgs, |msgs|)| <= 100 && e < |msgs| && how.Yields(msgs, e, out, blank)
    ensures var how, msgs := Dispatch(air, groups[k].id, unpack, noRnti), groups[k].msgs;
      out.Sent? && out.count <= 100 && out.cells[..out.count] == how.Gathered(msgs, |msgs|)
  {
    var how, msgs := Dispatch(air, groups[k].id, unpack, noRnti), groups[k].msgs;
    GroupAggregates(air, p, groups, k, unpack, noRnti);
    assert forall j :: 0 <= j < |msgs| ==> msgs[j] in msgs && how.Usable(msgs[j]);
    NothingLost(how, msgs, e, out, blank);
  }
}
