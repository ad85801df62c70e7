/** Tag-length-value lists: what pack_tlv and pack_nr_tlv of open-nFAPI/nfapi/src/nfapi.c write
    and what the four unpack_*tlv_list parsers make of any bytes, without vendor-extension
    callbacks. NR values are padded to a multiple of four bytes (section 2.3.2.1 of SCF 225). */
module Tlv {
  import opened Wrappers
  import opened Words
  import opened Cursors
  import opened Formats

  const MAX_BAD_TAG := 3
  const OPAQUE_MAX := 64

  const VENDOR_MIN: uint16 := 0xF000

  /** A value is a list of numbers, or opaque bytes whose number is the TLV's length. */
  datatype TlvFormat = Inline(fields: FieldList) | Opaque

  /** A row of an unpack_tlv_t table: the unpack function for a tag. The struct that the row
      points to is the slot with the row's number. */
  datatype Entry = Entry(tag: uint16, format: TlvFormat)

  /** A call of pack_tlv: the expected tag, the slot that is packed, and how. */
  datatype Call = Call(tag: uint16, at: nat, format: TlvFormat)

  /** A TLV struct of a message: its tl field and its value. Tag 0 means absent. */
  datatype Slot = Slot(tag: uint16, length: uint16, value: Value)

  ghost predicate FitsBody(f: TlvFormat, v: Value) {
    match f
    case Inline(fs) => Fits(Fields(fs), v)
    case Opaque => v.Items? && AllFit(U8, v.items)
  }

  ghost predicate WithinBody(f: TlvFormat, v: Value)
    requires FitsBody(f, v)
  {
    f.Inline? ==> Within(Fields(f.fields), v)
  }

  /** A pack and an unpack function for the same value: field by field they agree. */
  ghost predicate SameBody(p: TlvFormat, u: TlvFormat) {
    match p
    case Inline(fs) => u.Inline? && ListsAgree(fs, u.fields)
    case Opaque => u.Opaque?
  }

  lemma FitsSameBody(p: TlvFormat, u: TlvFormat, v: Value)
    requires SameBody(p, u)
    ensures FitsBody(p, v) <==> FitsBody(u, v)
  {
    if p.Inline? {
      FieldsAgree(p.fields, u.fields);
      FitsSame(Fields(p.fields), Fields(u.fields), v);
    }
  }

  function ZeroBody(f: TlvFormat): (v: Value)
    ensures FitsBody(f, v)
  {
    match f
    case Inline(fs) => Zero(Fields(fs))
    case Opaque => Items([])
  }

  ghost function EncodeBody(f: TlvFormat, v: Value): Option<seq<byte>>
    requires FitsBody(f, v)
  {
    match f
    case Inline(fs) => Encode(Fields(fs), v)
    case Opaque => if |v.items| > OPAQUE_MAX then None else EncodeItems(U8, v.items)
  }

  ghost function DecodeBody(f: TlvFormat, length: uint16, s: seq<byte>): (r: Option<(Value, seq<byte>)>)
    ensures r.Some? ==> FitsBody(f, r.value.0) && |r.value.1| <= |s|
  {
    match f
    case Inline(fs) => Decode(Fields(fs), s)
    case Opaque =>
      if length > OPAQUE_MAX then None
      else
        var r := DecodeItems(U8, length, s);
        if r.None? then None else Some((Items(r.value.0), r.value.1))
  }

  /** get_tlv_padding, for the formats that pad. */
  function Padding(nr: bool, length: nat): (p: nat)
    ensures nr ==> p < 4 && (length + p) % 4 == 0
    ensures !nr ==> p == 0
  {
    if nr then (4 - length % 4) % 4 else 0
  }

  /** The padding is the least that reaches a multiple of four. */
  lemma PaddingLeast(length: nat, q: nat)
    requires (length + q) % 4 == 0
    ensures Padding(true, length) <= q
  {
  }

  function Zeros(n: nat): (s: seq<byte>)
    ensures |s| == n
  {
    seq(n, _ => 0)
  }

  function Header(tag: uint16, length: uint16): seq<byte> {
    Bytes16(tag) + Bytes16(length)
  }

  /** A body of n bytes, as the 16-bit length field counts them. */
  function LengthOf(n: nat): uint16 {
    if n < 0x1_0000 then n else n % 0x1_0000
  }

  /** A whole TLV on the wire. */
  function Wire(nr: bool, tag: uint16, body: seq<byte>): (s: seq<byte>)
    ensures |s| == 4 + |body| + Padding(nr, LengthOf(|body|))
  {
    Header(tag, LengthOf(|body|)) + body + Zeros(Padding(nr, LengthOf(|body|)))
  }

  /** An NR TLV takes a multiple of four bytes. */
  lemma WireAligned(tag: uint16, body: seq<byte>)
    ensures |Wire(true, tag, body)| % 4 == 0
  {
    LengthModFour(|body|);
    SumModFour(|body|, LengthOf(|body|), Padding(true, LengthOf(|body|)));
  }

  lemma LengthModFour(n: nat)
    ensures LengthOf(n) == n % 0x1_0000 && LengthOf(n) % 4 == n % 4
  {
  }

  lemma SumModFour(n: nat, m: nat, p: nat)
    requires n % 4 == m % 4 && (m + p) % 4 == 0
    ensures (4 + n + p) % 4 == 0
  {
  }

  ghost predicate SlotFits(tag: uint16, f: TlvFormat, slot: Slot) {
    slot.tag == tag ==> FitsBody(f, slot.value)
  }

  /** What a call appends for its slot: nothing unless the slot's tag is the expected one. */
  ghost function PackOne(nr: bool, call: Call, slot: Slot): Option<seq<byte>>
    requires SlotFits(call.tag, call.format, slot)
  {
    if slot.tag != call.tag then Some([])
    else
      var body := EncodeBody(call.format, slot.value);
      if body.None? then None else Some(Wire(nr, call.tag, body.value))
  }

  // ---- Parsing ----------------------------------------------------------------------------

  datatype Outcome = Parsed(slots: seq<Slot>) | Cut | TooManyBad

  ghost predicate DistinctTags(table: seq<Entry>) {
    forall i, j :: 0 <= i < j < |table| ==> table[i].tag != table[j].tag
  }

  function Find(table: seq<Entry>, tag: uint16): (at: Option<nat>)
    ensures at.Some? ==> at.value < |table| && table[at.value].tag == tag
    ensures at.None? ==> forall i :: 0 <= i < |table| ==> table[i].tag != tag
  {
    if table == [] then None
    else if table[|table| - 1].tag == tag then Some(|table| - 1)
    else Find(table[..|table| - 1], tag)
  }

  function Skip(s: seq<byte>, n: nat): seq<byte> {
    if n <= |s| then s[n..] else []
  }

  /** What comes of one turn of a parser's loop. */
  datatype Turn = Stop(outcome: Outcome) | Go(slots: seq<Slot>, bad: nat, rest: seq<byte>)

  /** One turn, on bytes that are left: the slots filled and the bad tags seen so far are given.
      A tag of the vendor range is passed over without its value. */
  ghost function ParseOne(nr: bool, table: seq<Entry>, slots: seq<Slot>, bad: nat, s: seq<byte>): (t: Turn)
    requires |slots| == |table| && s != []
    ensures t.Go? ==> |t.rest| < |s| && |t.slots| == |table|
    ensures t.Stop? ==> !t.outcome.Parsed?
  {
    if |s| < 4 then Stop(Cut)
    else
      var tag, length, rest := Number16(s), Number16(s[2..]), s[4..];
      var at := Find(table, tag);
      if at.Some? then
        var r := DecodeBody(table[at.value].format, length, rest);
        if r.None? then Stop(Cut)
        else Go(slots[at.value := Slot(tag, length, r.value.0)], bad, Skip(r.value.1, Padding(nr, length)))
      else if tag >= VENDOR_MIN then Go(slots, bad, rest)
      else if bad + 1 > MAX_BAD_TAG then Stop(TooManyBad)
      else if |rest| < length then Stop(Cut)
      else Go(slots, bad + 1, Skip(rest, length + Padding(nr, length)))
  }

  /** What a parser makes of the bytes s. */
  ghost function Parse(nr: bool, table: seq<Entry>, slots: seq<Slot>, bad: nat, s: seq<byte>): Outcome
    requires |slots| == |table|
    decreases |s|
  {
    if s == [] then Parsed(slots)
    else
      match ParseOne(nr, table, slots, bad, s)
      case Stop(outcome) => outcome
      case Go(slots', bad', rest) => Parse(nr, table, slots', bad', rest)
  }

  // ---- Round trips ------------------------------------------------------------------------

  lemma DecodeEncodeBody(p: TlvFormat, u: TlvFormat, v: Value, rest: seq<byte>)
    requires SameBody(p, u) && FitsBody(p, v) && EncodeBody(p, v).Some?
    ensures FitsBody(u, v)
    ensures var body := EncodeBody(p, v).value;
      DecodeBody(u, LengthOf(|body|), body + rest) == if WithinBody(u, v) then Some((v, rest)) else None
  {
    match p
    case Inline(fs) =>
      FieldsAgree(fs, u.fields);
      DecodeEncode(Fields(fs), Fields(u.fields), v, rest);
    case Opaque => DecodeEncodeOpaque(v.items, rest);
  }

  lemma DecodeEncodeOpaque(items: seq<Value>, rest: seq<byte>)
    requires AllFit(U8, items) && |items| <= OPAQUE_MAX
    ensures EncodeItems(U8, items).Some?
    ensures var body := EncodeItems(U8, items).value;
      DecodeBody(Opaque, LengthOf(|body|), body + rest) == Some((Items(items), rest))
  {
    ByteItems(items);
    DecodeEncodeItems(U8, U8, items, rest);
  }

  /** Opaque bytes take a byte each, and no limit applies to them. */
  lemma {:induction false} ByteItems(items: seq<Value>)
    requires AllFit(U8, items)
    ensures EncodeItems(U8, items).Some? && |EncodeItems(U8, items).value| == |items| && AllWithin(U8, items)
  {
    if items != [] {
      AllWithinTail(U8, items);
      ByteItems(items[1..]);
    }
  }

  lemma HeaderRead(tag: uint16, length: uint16, rest: seq<byte>)
    ensures var s := Header(tag, length) + rest;
      |s| >= 4 && Number16(s) == tag && Number16(s[2..]) == length && s[4..] == rest
  {
    var s := Header(tag, length) + rest;
    assert s == Bytes16(tag) + (Bytes16(length) + rest);
    Number16Bytes(tag, Bytes16(length) + rest);
    Number16Bytes(length, rest);
    assert s[4..] == s[2..][2..];
  }

  lemma WireParts(nr: bool, tag: uint16, body: seq<byte>, rest: seq<byte>)
    ensures var s, n := Wire(nr, tag, body) + rest, LengthOf(|body|);
      && |s| >= 4 && Number16(s) == tag && Number16(s[2..]) == n
      && s[4..] == body + (Zeros(Padding(nr, n)) + rest)
  {
    var n, pad := LengthOf(|body|), Zeros(Padding(nr, LengthOf(|body|)));
    var tail := body + (pad + rest);
    HeaderRead(tag, n, tail);
    assert Wire(nr, tag, body) + rest == Header(tag, n) + tail;
  }

  /** A TLV of the table, packed by a matching pack function, in front of any bytes. */
  lemma ParseKnown(nr: bool, table: seq<Entry>, at: nat, p: TlvFormat, v: Value, slots: seq<Slot>, bad: nat,
                   rest: seq<byte>)
    requires DistinctTags(table) && at < |table| == |slots|
    requires SameBody(p, table[at].format) && FitsBody(p, v) && EncodeBody(p, v).Some?
    ensures FitsBody(table[at].format, v)
    ensures var e, body := table[at], EncodeBody(p, v).value;
      ParseOne(nr, table, slots, bad, Wire(nr, e.tag, body) + rest) ==
        if WithinBody(e.format, v) then Go(slots[at := Slot(e.tag, LengthOf(|body|), v)], bad, rest)
        else Stop(Cut)
  {
    var e, body := table[at], EncodeBody(p, v).value;
    var pad := Zeros(Padding(nr, LengthOf(|body|)));
    WireParts(nr, e.tag, body, rest);
    assert Find(table, e.tag) == Some(at);
    DecodeEncodeBody(p, e.format, v, pad + rest);
    assert Skip(pad + rest, |pad|) == rest;
  }

  lemma BodyReflexive(f: TlvFormat)
    ensures SameBody(f, f)
  {
    if f.Inline? {
      ListReflexive(f.fields);
    }
  }

  lemma ParseGo(nr: bool, table: seq<Entry>, slots: seq<Slot>, bad: nat, s: seq<byte>,
                slots': seq<Slot>, bad': nat, rest: seq<byte>)
    requires |slots| == |table| == |slots'| && s != []
    requires ParseOne(nr, table, slots, bad, s) == Go(slots', bad', rest)
    ensures Parse(nr, table, slots, bad, s) == Parse(nr, table, slots', bad', rest)
  {
  }

  /** Without a callback, the parser goes on inside the value of a vendor TLV. */
  lemma VendorValueParsed(nr: bool, table: seq<Entry>, tag: uint16, body: seq<byte>, slots: seq<Slot>, bad: nat,
                          rest: seq<byte>)
    requires |table| == |slots| && Find(table, tag).None? && tag >= VENDOR_MIN
    ensures Parse(nr, table, slots, bad, Wire(nr, tag, body) + rest) ==
      Parse(nr, table, slots, bad, body + (Zeros(Padding(nr, LengthOf(|body|))) + rest))
  {
    var inside := body + (Zeros(Padding(nr, LengthOf(|body|))) + rest);
    WireParts(nr, tag, body, rest);
    ParseGo(nr, table, slots, bad, Wire(nr, tag, body) + rest, slots, bad, inside);
  }

  /** The bytes start with the four of a header whose tag is a vendor's and not in the table. */
  predicate VendorHeader(table: seq<Entry>, s: seq<byte>) {
    |s| >= 4 && Number16(s) >= VENDOR_MIN && Find(table, Number16(s)).None?
  }

  predicate OnlyVendorHeaders(table: seq<Entry>, s: seq<byte>) {
    s == [] || (VendorHeader(table, s) && OnlyVendorHeaders(table, s[4..]))
  }

  /** Parsing comes out the same with these bytes in front of any others and without them. */
  ghost predicate Ignored(nr: bool, table: seq<Entry>, front: seq<byte>) {
    forall slots, bad: nat, rest | |slots| == |table| ::
      Parse(nr, table, slots, bad, front + rest) == Parse(nr, table, slots, bad, rest)
  }

  lemma {:induction false} HeadersPassed(nr: bool, table: seq<Entry>, slots: seq<Slot>, bad: nat, s: seq<byte>,
                                         rest: seq<byte>)
    requires |slots| == |table| && OnlyVendorHeaders(table, s)
    ensures Parse(nr, table, slots, bad, s + rest) == Parse(nr, table, slots, bad, rest)
    decreases |s|
  {
    if s == [] {
      assert s + rest == rest;
    } else {
      assert (s + rest)[4..] == s[4..] + rest;
      ParseGo(nr, table, slots, bad, s + rest, slots, bad, s[4..] + rest);
      HeadersPassed(nr, table, slots, bad, s[4..], rest);
    }
  }

  /** A slot that has been filled keeps its tag. */
  lemma {:induction false} ParseKeepsTag(nr: bool, table: seq<Entry>, slots: seq<Slot>, bad: nat, s: seq<byte>, at: nat)
    requires at < |slots| == |table| && slots[at].tag == table[at].tag
    ensures var o := Parse(nr, table, slots, bad, s);
      o.Parsed? ==> |o.slots| == |table| && o.slots[at].tag == table[at].tag
    decreases |s|
  {
    if s != [] {
      var t := ParseOne(nr, table, slots, bad, s);
      if t.Go? {
        ParseKeepsTag(nr, table, t.slots, t.bad, t.rest, at);
      }
    }
  }

  /** A table's tag in front fills its slot, if parsing goes through. */
  lemma KnownFills(nr: bool, table: seq<Entry>, slots: seq<Slot>, bad: nat, s: seq<byte>, at: nat)
    requires |slots| == |table| && |s| >= 4 && Find(table, Number16(s)) == Some(at)
    requires slots[at].tag != table[at].tag
    ensures Parse(nr, table, slots, bad, s) != Parsed(slots)
  {
    var t := ParseOne(nr, table, slots, bad, s);
    if t.Go? {
      ParseKeepsTag(nr, table, t.slots, t.bad, t.rest, at);
    }
  }

  function Tagged(n: nat, tag: uint16): (slots: seq<Slot>)
    ensures |slots| == n && forall i :: 0 <= i < n ==> slots[i].tag == tag
  {
    seq(n, _ => Slot(tag, 0, Items([])))
  }

  /** Bytes other than vendor headers spoil the message that they alone make up. */
  lemma {:induction false} OthersNoticed(nr: bool, table: seq<Entry>, s: seq<byte>)
    returns (slots: seq<Slot>, bad: nat)
    requires !OnlyVendorHeaders(table, s)
    ensures |slots| == |table| && Parse(nr, table, slots, bad, s) != Parsed(slots)
    decreases |s|
  {
    slots, bad := Tagged(|table|, 0), MAX_BAD_TAG;
    if VendorHeader(table, s) {
      slots, bad := OthersNoticed(nr, table, s[4..]);
      ParseGo(nr, table, slots, bad, s, slots, bad, s[4..]);
    } else if |s| >= 4 && Find(table, Number16(s)).Some? {
      slots := Tagged(|table|, if Number16(s) == 0 then 1 else 0);
      KnownFills(nr, table, slots, bad, s, Find(table, Number16(s)).value);
    }
  }

  /** Bytes are passed over in front of any others exactly when they are vendor headers. */
  lemma IgnoredHeaders(nr: bool, table: seq<Entry>, s: seq<byte>)
    ensures Ignored(nr, table, s) <==> OnlyVendorHeaders(table, s)
  {
    if OnlyVendorHeaders(table, s) {
      forall slots, bad: nat, rest | |slots| == |table|
        ensures Parse(nr, table, slots, bad, s + rest) == Parse(nr, table, slots, bad, rest)
      {
        HeadersPassed(nr, table, slots, bad, s, rest);
      }
    } else {
      var slots, bad := OthersNoticed(nr, table, s);
      assert s + [] == s;
      assert Parse(nr, table, slots, bad, []) == Parsed(slots);
    }
  }

  /** A vendor TLV without a callback parses like the value and padding that it carries. */
  lemma VendorInside(nr: bool, table: seq<Entry>, tag: uint16, body: seq<byte>, slots: seq<Slot>, bad: nat,
                     rest: seq<byte>)
    requires |table| == |slots| && Find(table, tag).None? && tag >= VENDOR_MIN
    ensures Parse(nr, table, slots, bad, Wire(nr, tag, body) + rest)
      == Parse(nr, table, slots, bad, body + Zeros(Padding(nr, LengthOf(|body|))) + rest)
  {
    var pad := Zeros(Padding(nr, LengthOf(|body|)));
    VendorValueParsed(nr, table, tag, body, slots, bad, rest);
    ConcatAssoc(body, pad, rest);
  }

  lemma SameIgnored(nr: bool, table: seq<Entry>, a: seq<byte>, b: seq<byte>)
    requires forall slots, bad: nat, rest | |slots| == |table| ::
      Parse(nr, table, slots, bad, a + rest) == Parse(nr, table, slots, bad, b + rest)
    ensures Ignored(nr, table, a) <==> Ignored(nr, table, b)
  {
  }

  /** Without a callback, a vendor TLV is passed over in front of any bytes exactly when its
      value, with the padding, is a sequence of four-byte vendor headers; an empty LTE value is
      the simplest. */
  lemma VendorIgnored(nr: bool, table: seq<Entry>, tag: uint16, body: seq<byte>)
    requires Find(table, tag).None? && tag >= VENDOR_MIN
    ensures Ignored(nr, table, Wire(nr, tag, body))
      <==> OnlyVendorHeaders(table, body + Zeros(Padding(nr, LengthOf(|body|))))
  {
    var wire, inside := Wire(nr, tag, body), body + Zeros(Padding(nr, LengthOf(|body|)));
    forall slots, bad: nat, rest | |slots| == |table|
      ensures Parse(nr, table, slots, bad, wire + rest) == Parse(nr, table, slots, bad, inside + rest)
    {
      VendorInside(nr, table, tag, body, slots, bad, rest);
    }
    SameIgnored(nr, table, wire, inside);
    IgnoredHeaders(nr, table, inside);
  }

  /** A vendor TLV that makes parsing fail although nothing else is in the message. */
  lemma VendorValueBreaks()
    ensures Parse(false, [], [], 0, Wire(false, VENDOR_MIN, [7])) == Cut
  {
    var pad := Zeros(Padding(false, LengthOf(|[7]|)));
    VendorValueParsed(false, [], VENDOR_MIN, [7], [], 0, []);
    assert Wire(false, VENDOR_MIN, [7]) + [] == Wire(false, VENDOR_MIN, [7]);
    assert [7] + (pad + []) == [7];
  }

  // ---- Messages ---------------------------------------------------------------------------

  /** The slots of a message, one for each row of the table. */
  ghost predicate SlotsFit(table: seq<Entry>, slots: seq<Slot>) {
    |slots| == |table| && forall i :: 0 <= i < |table| ==> SlotFits(table[i].tag, table[i].format, slots[i])
  }

  /** A call packs its slot in the way in which the slot's row unpacks it. */
  ghost predicate Matches(table: seq<Entry>, call: Call) {
    call.at < |table| && call.tag == table[call.at].tag && SameBody(call.format, table[call.at].format)
  }

  /** The calls of a pack function, each for another slot. */
  ghost predicate CallsMatch(table: seq<Entry>, calls: seq<Call>) {
    && (forall k :: 0 <= k < |calls| ==> Matches(table, calls[k]))
    && (forall j, k :: 0 <= j < k < |calls| ==> calls[j].at != calls[k].at)
  }

  lemma CallFits(table: seq<Entry>, slots: seq<Slot>, call: Call)
    requires SlotsFit(table, slots) && Matches(table, call)
    ensures SlotFits(call.tag, call.format, slots[call.at])
  {
    var i := call.at;
    assert SlotFits(table[i].tag, table[i].format, slots[i]);
    FitsSameBody(call.format, table[i].format, slots[i].value);
  }

  /** The TLVs that the calls write. */
  ghost function PackList(nr: bool, table: seq<Entry>, slots: seq<Slot>, calls: seq<Call>): Option<seq<byte>>
    requires SlotsFit(table, slots) && CallsMatch(table, calls)
  {
    if calls == [] then Some([])
    else
      CallFits(table, slots, calls[0]);
      Append(PackOne(nr, calls[0], slots[calls[0].at]), PackList(nr, table, slots, calls[1..]))
  }

  ghost predicate Present(table: seq<Entry>, slots: seq<Slot>, i: nat)
    requires |slots| == |table|
  {
    i < |table| && slots[i].tag == table[i].tag
  }

  /** If the slot is present, its lists are within the limits of unpacking. */
  ghost predicate PresentWithin(table: seq<Entry>, slots: seq<Slot>, i: nat)
    requires SlotsFit(table, slots)
  {
    Present(table, slots, i) ==>
      SlotFits(table[i].tag, table[i].format, slots[i]) && WithinBody(table[i].format, slots[i].value)
  }

  ghost predicate CallsWithin(table: seq<Entry>, slots: seq<Slot>, calls: seq<Call>)
    requires SlotsFit(table, slots)
  {
    forall k :: 0 <= k < |calls| ==> PresentWithin(table, slots, calls[k].at)
  }

  /** A slot as the receiver gets it: its length is that of the packed value. */
  ghost function Sent(f: TlvFormat, slot: Slot): Slot
    requires FitsBody(f, slot.value) && EncodeBody(f, slot.value).Some?
  {
    slot.(length := LengthOf(|EncodeBody(f, slot.value).value|))
  }

  /** The slot of this call was present, and got holds it as it was sent. */
  ghost predicate Got(table: seq<Entry>, slots: seq<Slot>, call: Call, got: seq<Slot>)
    requires SlotsFit(table, slots) && Matches(table, call) && |got| == |table|
  {
    Present(table, slots, call.at) ==>
      && FitsBody(call.format, slots[call.at].value) && EncodeBody(call.format, slots[call.at].value).Some?
      && got[call.at] == Sent(call.format, slots[call.at])
  }

  ghost predicate Called(calls: seq<Call>, i: nat) {
    exists k :: 0 <= k < |calls| && calls[k].at == i
  }

  /** got holds what was sent for the calls whose slots were present, and blank elsewhere. */
  ghost predicate Delivered(table: seq<Entry>, slots: seq<Slot>, calls: seq<Call>, blank: seq<Slot>, got: seq<Slot>)
    requires SlotsFit(table, slots) && CallsMatch(table, calls) && |blank| == |table|
  {
    && |got| == |table|
    && (forall k :: 0 <= k < |calls| ==> Got(table, slots, calls[k], got))
    && (forall i :: 0 <= i < |table| && !(Called(calls, i) && Present(table, slots, i)) ==> got[i] == blank[i])
  }

  /** Parsing what was packed succeeds exactly when every list that was sent is within its
      limit; it then stores the slots that were present, with the lengths that were filled in,
      and leaves the others as they were. */
  lemma {:induction false} ParsePacked(nr: bool, table: seq<Entry>, slots: seq<Slot>, calls: seq<Call>, acc: seq<Slot>)
    requires DistinctTags(table) && SlotsFit(table, slots) && CallsMatch(table, calls) && |acc| == |table|
    requires PackList(nr, table, slots, calls).Some?
    ensures var o := Parse(nr, table, acc, 0, PackList(nr, table, slots, calls).value);
      if CallsWithin(table, slots, calls) then o.Parsed? && Delivered(table, slots, calls, acc, o.slots) else o == Cut
    decreases |calls|
  {
    if calls != [] {
      var call := calls[0];
      var i := call.at;
      CallFits(table, slots, call);
      var rest := PackList(nr, table, slots, calls[1..]).value;
      CallsWithinTail(table, slots, calls);
      if Present(table, slots, i) {
        ParseKnown(nr, table, i, call.format, slots[i].value, acc, 0, rest);
        if PresentWithin(table, slots, i) {
          var acc' := acc[i := Sent(call.format, slots[i])];
          var body := EncodeBody(call.format, slots[i].value).value;
          ParseGo(nr, table, acc, 0, Wire(nr, call.tag, body) + rest, acc', 0, rest);
          ParsePacked(nr, table, slots, calls[1..], acc');
          DeliveredHead(table, slots, calls, acc);
        }
      } else {
        assert [] + rest == rest;
        ParsePacked(nr, table, slots, calls[1..], acc);
        DeliveredHead(table, slots, calls, acc);
      }
    }
  }

  lemma CallsWithinTail(table: seq<Entry>, slots: seq<Slot>, calls: seq<Call>)
    requires SlotsFit(table, slots) && calls != []
    ensures CallsWithin(table, slots, calls) <==>
      PresentWithin(table, slots, calls[0].at) && CallsWithin(table, slots, calls[1..])
  {
    assert forall k :: 1 <= k < |calls| ==> calls[k] == calls[1..][k - 1];
  }

  /** What the first call leaves. */
  ghost function After(table: seq<Entry>, slots: seq<Slot>, call: Call, acc: seq<Slot>): seq<Slot>
    requires SlotsFit(table, slots) && Matches(table, call) && |acc| == |table|
    requires SlotFits(call.tag, call.format, slots[call.at]) && PackOne(false, call, slots[call.at]).Some?
  {
    if Present(table, slots, call.at) then acc[call.at := Sent(call.format, slots[call.at])] else acc
  }

  /** Delivering the first call and then the others. */
  lemma DeliveredHead(table: seq<Entry>, slots: seq<Slot>, calls: seq<Call>, acc: seq<Slot>)
    requires SlotsFit(table, slots) && CallsMatch(table, calls) && |acc| == |table| && calls != []
    requires SlotFits(calls[0].tag, calls[0].format, slots[calls[0].at])
    requires PackOne(false, calls[0], slots[calls[0].at]).Some?
    ensures forall got :: Delivered(table, slots, calls[1..], After(table, slots, calls[0], acc), got) ==>
      Delivered(table, slots, calls, acc, got)
  {
    forall got | Delivered(table, slots, calls[1..], After(table, slots, calls[0], acc), got)
      ensures Delivered(table, slots, calls, acc, got)
    {
      DeliveredWhole(table, slots, calls, acc, got);
    }
  }

  lemma DeliveredWhole(table: seq<Entry>, slots: seq<Slot>, calls: seq<Call>, acc: seq<Slot>, got: seq<Slot>)
    requires SlotsFit(table, slots) && CallsMatch(table, calls) && |acc| == |table| && calls != []
    requires SlotFits(calls[0].tag, calls[0].format, slots[calls[0].at])
    requires PackOne(false, calls[0], slots[calls[0].at]).Some?
    requires Delivered(table, slots, calls[1..], After(table, slots, calls[0], acc), got)
    ensures Delivered(table, slots, calls, acc, got)
  {
    var rest := calls[1..];
    assert !Called(rest, calls[0].at);
    assert Got(table, slots, calls[0], got);
    forall k | 1 <= k < |calls|
      ensures Got(table, slots, calls[k], got)
    {
      assert calls[k] == rest[k - 1];
    }
    forall i | 0 <= i < |table| && !(Called(calls, i) && Present(table, slots, i))
      ensures got[i] == acc[i]
    {
      if Called(rest, i) {
        var k :| 0 <= k < |rest| && rest[k].at == i;
        assert calls[k + 1].at == i;
      }
      assert i == calls[0].at ==> Called(calls, i);
    }
  }

  /** What is delivered is determined. */
  lemma DeliveredOnce(table: seq<Entry>, slots: seq<Slot>, calls: seq<Call>, blank: seq<Slot>,
                      a: seq<Slot>, b: seq<Slot>)
    requires SlotsFit(table, slots) && CallsMatch(table, calls) && |blank| == |table|
    requires Delivered(table, slots, calls, blank, a) && Delivered(table, slots, calls, blank, b)
    ensures a == b
  {
    forall i | 0 <= i < |table|
      ensures a[i] == b[i]
    {
      if Called(calls, i) && Present(table, slots, i) {
        var k :| 0 <= k < |calls| && calls[k].at == i;
        assert Got(table, slots, calls[k], a) && Got(table, slots, calls[k], b);
      }
    }
  }
}
