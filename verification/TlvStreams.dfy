/** The language of the four TLV list parsers of open-nFAPI/nfapi/src/nfapi.c, without
    vendor-extension callbacks: which byte strings they accept, what they store, and
    where they stop in the others. */
module TlvStreams {
  import opened Wrappers
  import opened Words
  import opened Cursors
  import opened Formats
  import opened Tlv

  /** What a parser reads in one turn: a TLV of the table, whose value may be shorter or longer
      than its length field says; one that is not, whose value is as long as that says; or a
      header in the vendor range, whose value the parser goes on in. Nobody looks at padding. */
  datatype Item =
    | Known(at: nat, length: uint16, value: Value, pad: seq<byte>)
    | Unknown(tag: uint16, body: seq<byte>, pad: seq<byte>)
    | Vendor(tag: uint16, length: uint16)

  ghost predicate ItemOk(nr: bool, table: seq<Entry>, item: Item) {
    match item
    case Known(at, length, v, pad) =>
      && at < |table| && FitsBody(table[at].format, v) && WithinBody(table[at].format, v)
      && (table[at].format.Opaque? ==> length == |v.items| <= 64)
      && |pad| == Padding(nr, length)
    case Unknown(tag, body, pad) =>
      Find(table, tag).None? && tag < 0xF000 && |body| < 0x1_0000 && |pad| == Padding(nr, |body|)
    case Vendor(tag, _) => Find(table, tag).None? && tag >= 0xF000
  }

  ghost predicate ItemsOk(nr: bool, table: seq<Entry>, items: seq<Item>) {
    forall k :: 0 <= k < |items| ==> ItemOk(nr, table, items[k])
  }

  lemma BodyEncoded(nr: bool, table: seq<Entry>, item: Item)
    requires ItemOk(nr, table, item) && item.Known?
    ensures EncodeBody(table[item.at].format, item.value).Some?
    ensures table[item.at].format.Opaque? ==> |EncodeBody(table[item.at].format, item.value).value| == item.length
  {
    match table[item.at].format
    case Inline(fs) => EncodeWithin(Fields(fs), item.value);
    case Opaque => ByteItems(item.value.items);
  }

  ghost function Body(nr: bool, table: seq<Entry>, item: Item): seq<byte>
    requires ItemOk(nr, table, item)
  {
    match item
    case Known(at, _, v, _) =>
      BodyEncoded(nr, table, item);
      EncodeBody(table[at].format, v).value
    case Unknown(_, body, _) => body
    case Vendor(_, _) => []
  }

  ghost function Head(nr: bool, table: seq<Entry>, item: Item): (s: seq<byte>)
    requires ItemOk(nr, table, item)
    ensures |s| == 4
  {
    match item
    case Known(at, length, _, _) => Header(table[at].tag, length)
    case Unknown(tag, body, _) => Header(tag, |body|)
    case Vendor(tag, length) => Header(tag, length)
  }

  function Pad(item: Item): seq<byte> {
    if item.Vendor? then [] else item.pad
  }

  ghost function Front(nr: bool, table: seq<Entry>, item: Item): seq<byte>
    requires ItemOk(nr, table, item)
  {
    Head(nr, table, item) + Body(nr, table, item)
  }

  ghost function Whole(nr: bool, table: seq<Entry>, item: Item): seq<byte>
    requires ItemOk(nr, table, item)
  {
    Front(nr, table, item) + Pad(item)
  }

  ghost function Stream(nr: bool, table: seq<Entry>, items: seq<Item>): seq<byte>
    requires ItemsOk(nr, table, items)
  {
    if items == [] then []
    else
      assert ItemOk(nr, table, items[0]);
      Whole(nr, table, items[0]) + Stream(nr, table, items[1..])
  }

  /** The slot that a TLV of the table is stored in. */
  function StoreOne(table: seq<Entry>, slots: seq<Slot>, item: Item): (r: seq<Slot>)
    requires |slots| == |table|
    ensures |r| == |slots|
  {
    if item.Known? && item.at < |table| then
      slots[item.at := Slot(table[item.at].tag, item.length, item.value)]
    else slots
  }

  function Store(table: seq<Entry>, slots: seq<Slot>, items: seq<Item>): (r: seq<Slot>)
    requires |slots| == |table|
    ensures |r| == |slots|
    decreases |items|
  {
    if items == [] then slots else Store(table, StoreOne(table, slots, items[0]), items[1..])
  }

  function Unknowns(items: seq<Item>): nat {
    if items == [] then 0 else (if items[0].Unknown? then 1 else 0) + Unknowns(items[1..])
  }

  // ---- One turn ---------------------------------------------------------------------------

  lemma BodyRead(nr: bool, table: seq<Entry>, item: Item, r: seq<byte>)
    requires ItemOk(nr, table, item) && item.Known?
    ensures DecodeBody(table[item.at].format, item.length, Body(nr, table, item) + r) == Some((item.value, r))
  {
    var f := table[item.at].format;
    BodyEncoded(nr, table, item);
    BodyReflexive(f);
    DecodeEncodeBody(f, f, item.value, r);
  }

  lemma ReadKnown(nr: bool, table: seq<Entry>, slots: seq<Slot>, bad: nat, item: Item, r: seq<byte>)
    requires DistinctTags(table) && |slots| == |table| && ItemOk(nr, table, item) && item.Known?
    ensures ParseOne(nr, table, slots, bad, Head(nr, table, item) + (Body(nr, table, item) + r))
      == Go(StoreOne(table, slots, item), bad, Skip(r, |Pad(item)|))
  {
    hide DecodeBody, EncodeBody, Header, Body, FitsBody, WithinBody;
    HeaderRead(table[item.at].tag, item.length, Body(nr, table, item) + r);
    assert Find(table, table[item.at].tag) == Some(item.at);
    BodyRead(nr, table, item, r);
  }

  lemma ReadUnknown(nr: bool, table: seq<Entry>, slots: seq<Slot>, bad: nat, item: Item, r: seq<byte>)
    requires |slots| == |table| && ItemOk(nr, table, item) && item.Unknown? && bad <= 3
    ensures ParseOne(nr, table, slots, bad, Head(nr, table, item) + (Body(nr, table, item) + r)) ==
      if bad == 3 then Stop(TooManyBad) else Go(slots, bad + 1, Skip(r, |Pad(item)|))
  {
    hide DecodeBody, Header, Skip;
    HeaderRead(item.tag, |item.body|, item.body + r);
    SkipBody(item.body, r, |item.pad|);
  }

  lemma ReadVendor(nr: bool, table: seq<Entry>, slots: seq<Slot>, bad: nat, item: Item, r: seq<byte>)
    requires |slots| == |table| && ItemOk(nr, table, item) && item.Vendor?
    ensures ParseOne(nr, table, slots, bad, Head(nr, table, item) + (Body(nr, table, item) + r)) == Go(slots, bad, r)
  {
    hide DecodeBody, Header, Skip;
    HeaderRead(item.tag, item.length, r);
    assert [] + r == r;
  }

  /** A turn on an item's header and value, whatever follows. A fourth unknown one is one too
      many. */
  lemma ReadFront(nr: bool, table: seq<Entry>, slots: seq<Slot>, bad: nat, item: Item, r: seq<byte>)
    requires DistinctTags(table) && |slots| == |table| && ItemOk(nr, table, item) && bad <= 3
    ensures ParseOne(nr, table, slots, bad, Front(nr, table, item) + r) ==
      if item.Unknown? && bad == 3 then Stop(TooManyBad)
      else Go(StoreOne(table, slots, item), bad + (if item.Unknown? then 1 else 0), Skip(r, |Pad(item)|))
  {
    hide ParseOne, ItemOk, Head, Body;
    ConcatAssoc(Head(nr, table, item), Body(nr, table, item), r);
    if item.Known? {
      ReadKnown(nr, table, slots, bad, item, r);
    } else if item.Unknown? {
      ReadUnknown(nr, table, slots, bad, item, r);
    } else {
      ReadVendor(nr, table, slots, bad, item, r);
    }
  }

  lemma SkipBody(body: seq<byte>, r: seq<byte>, n: nat)
    ensures Skip(body + r, |body| + n) == Skip(r, n)
  {
    if n <= |r| {
      assert (body + r)[|body| + n..] == r[n..];
    }
  }

  lemma ReadWhole(nr: bool, table: seq<Entry>, slots: seq<Slot>, bad: nat, item: Item, rest: seq<byte>)
    requires DistinctTags(table) && |slots| == |table| && ItemOk(nr, table, item) && bad <= 3
    ensures ParseOne(nr, table, slots, bad, Whole(nr, table, item) + rest) ==
      if item.Unknown? && bad == 3 then Stop(TooManyBad)
      else Go(StoreOne(table, slots, item), bad + (if item.Unknown? then 1 else 0), rest)
  {
    hide ParseOne, ItemOk, Front;
    ConcatAssoc(Front(nr, table, item), Pad(item), rest);
    ReadFront(nr, table, slots, bad, item, Pad(item) + rest);
    assert (Pad(item) + rest)[|Pad(item)|..] == rest;
  }

  // ---- Streams ----------------------------------------------------------------------------

  /** A parser reads any sequence of items, known and unknown mixed, before any bytes, and stores
      those of the table, exactly when no more than three of them are unknown. */
  lemma {:induction false} ParseStream(nr: bool, table: seq<Entry>, slots: seq<Slot>, bad: nat, items: seq<Item>,
                                       tail: seq<byte>)
    requires DistinctTags(table) && |slots| == |table| && ItemsOk(nr, table, items) && bad <= 3
    ensures Parse(nr, table, slots, bad, Stream(nr, table, items) + tail) ==
      if bad + Unknowns(items) <= 3 then Parse(nr, table, Store(table, slots, items), bad + Unknowns(items), tail)
      else TooManyBad
    decreases |items|
  {
    hide ParseOne, Whole, StoreOne, Find;
    if items == [] {
      assert Stream(nr, table, items) + tail == tail;
    } else {
      assert ItemOk(nr, table, items[0]);
      var s, rest := Stream(nr, table, items) + tail, Stream(nr, table, items[1..]) + tail;
      WholeLong(nr, table, items[0]);
      assert s == Whole(nr, table, items[0]) + rest;
      ReadWhole(nr, table, slots, bad, items[0], rest);
      var bad' := bad + if items[0].Unknown? then 1 else 0;
      if bad' <= 3 {
        var slots' := StoreOne(table, slots, items[0]);
        ParseGo(nr, table, slots, bad, s, slots', bad', rest);
        ParseStream(nr, table, slots', bad', items[1..], tail);
      }
    }
  }

  lemma ParseAll(nr: bool, table: seq<Entry>, slots: seq<Slot>, items: seq<Item>)
    requires DistinctTags(table) && |slots| == |table| && ItemsOk(nr, table, items)
    ensures Parse(nr, table, slots, 0, Stream(nr, table, items))
      == if Unknowns(items) <= 3 then Parsed(Store(table, slots, items)) else TooManyBad
  {
    hide ParseOne, Stream, Store, ItemsOk, Unknowns;
    ParseStream(nr, table, slots, 0, items, []);
    assert Stream(nr, table, items) + [] == Stream(nr, table, items);
  }

  lemma WholeLong(nr: bool, table: seq<Entry>, item: Item)
    requires ItemOk(nr, table, item)
    ensures |Whole(nr, table, item)| == |Front(nr, table, item)| + |Pad(item)| && |Front(nr, table, item)| >= 4
  {
  }

  /** The items that the others are removed from. */
  function OnlyKnown(items: seq<Item>): seq<Item> {
    if items == [] then [] else (if items[0].Known? then [items[0]] else []) + OnlyKnown(items[1..])
  }

  lemma {:induction false} StoreOnlyKnown(nr: bool, table: seq<Entry>, slots: seq<Slot>, items: seq<Item>)
    requires ItemsOk(nr, table, items) && |slots| == |table|
    ensures ItemsOk(nr, table, OnlyKnown(items)) && Unknowns(OnlyKnown(items)) == 0
    ensures Store(table, slots, OnlyKnown(items)) == Store(table, slots, items)
    decreases |items|
  {
    if items != [] {
      var rest := OnlyKnown(items[1..]);
      StoreOnlyKnown(nr, table, StoreOne(table, slots, items[0]), items[1..]);
      assert items[0].Known? ==> OnlyKnown(items)[1..] == rest;
      assert !items[0].Known? ==> OnlyKnown(items) == rest;
    }
  }

  /** Inserting up to three unknown TLVs, and vendor headers, anywhere changes nothing; a fourth
      unknown one makes parsing fail. */
  lemma UnknownsIgnored(nr: bool, table: seq<Entry>, slots: seq<Slot>, items: seq<Item>)
    requires DistinctTags(table) && |slots| == |table| && ItemsOk(nr, table, items)
    ensures ItemsOk(nr, table, OnlyKnown(items))
    ensures Unknowns(items) <= 3 <==>
      Parse(nr, table, slots, 0, Stream(nr, table, items))
        == Parse(nr, table, slots, 0, Stream(nr, table, OnlyKnown(items)))
  {
    hide Parse, Stream, Store, ItemsOk, Unknowns;
    StoreOnlyKnown(nr, table, slots, items);
    ParseAll(nr, table, slots, items);
    ParseAll(nr, table, slots, OnlyKnown(items));
  }

  // ---- Truncation -------------------------------------------------------------------------

  lemma ValueCut(u: Format, v: Value, t: seq<byte>, more: seq<byte>)
    requires Fits(u, v) && Within(u, v) && Encode(u, v).Some? && Encode(u, v).value == t + more && more != []
    ensures Decode(u, t) == None
  {
    hide Decode, Encode, Fits, Within;
    assert t + more + [] == t + more;
    if Decode(u, t).Some? {
      var (w, rest) := Decode(u, t).value;
      AgreeReflexive(u);
      EncodeDecode(u, u, t);
      DecodeEncode(u, u, w, rest + more);
      DecodeEncode(u, u, v, []);
      ConcatAssoc(Encode(u, w).value, rest, more);
      assert false;
    }
  }

  lemma BytesCut(length: nat, t: seq<byte>)
    requires |t| < length
    ensures DecodeItems(U8, length, t) == None
  {
    if DecodeItems(U8, length, t).Some? {
      EncodeDecodeItems(U8, U8, length, t);
      ByteItems(DecodeItems(U8, length, t).value.0);
      assert false;
    }
  }

  /** A value that is cut short is not unpacked. */
  lemma BodyCut(nr: bool, table: seq<Entry>, item: Item, n: nat)
    requires ItemOk(nr, table, item) && item.Known? && n < |Body(nr, table, item)|
    ensures DecodeBody(table[item.at].format, item.length, Body(nr, table, item)[..n]) == None
  {
    hide Decode, Encode, Fits, Within, DecodeItems;
    var f, body := table[item.at].format, Body(nr, table, item);
    BodyEncoded(nr, table, item);
    assert body == body[..n] + body[n..];
    if f.Inline? {
      ValueCut(Fields(f.fields), item.value, body[..n], body[n..]);
    } else {
      BytesCut(item.length, body[..n]);
    }
  }

  /** A turn on an item that is cut inside its header or its value. */
  lemma FrontCut(nr: bool, table: seq<Entry>, slots: seq<Slot>, bad: nat, item: Item, n: nat)
    requires DistinctTags(table) && |slots| == |table| && ItemOk(nr, table, item)
    requires 0 < n < |Front(nr, table, item)| && (item.Unknown? ==> bad < 3)
    ensures ParseOne(nr, table, slots, bad, Front(nr, table, item)[..n]) == Stop(Cut)
  {
    hide DecodeBody, EncodeBody, Header, FitsBody, WithinBody;
    if n >= 4 {
      var s, rest := Front(nr, table, item)[..n], Body(nr, table, item)[..n - 4];
      assert s == Head(nr, table, item) + rest;
      match item
      case Known(at, length, _, _) =>
        HeaderRead(table[at].tag, length, rest);
        assert Find(table, table[at].tag) == Some(at);
        BodyCut(nr, table, item, n - 4);
      case Unknown(tag, body, _) => HeaderRead(tag, |body|, rest);
      case Vendor(_, _) => assert false;
    }
  }

  /** A turn on an item that is cut inside its padding. */
  lemma PadCut(nr: bool, table: seq<Entry>, slots: seq<Slot>, bad: nat, item: Item, n: nat)
    requires DistinctTags(table) && |slots| == |table| && ItemOk(nr, table, item)
    requires |Front(nr, table, item)| <= n <= |Whole(nr, table, item)| && (item.Unknown? ==> bad < 3) && bad <= 3
    ensures ParseOne(nr, table, slots, bad, Whole(nr, table, item)[..n])
      == Go(StoreOne(table, slots, item), bad + (if item.Unknown? then 1 else 0), [])
  {
    var front := Front(nr, table, item);
    assert Whole(nr, table, item)[..n] == front + Pad(item)[..n - |front|];
    ReadFront(nr, table, slots, bad, item, Pad(item)[..n - |front|]);
  }

  lemma {:induction false} UnknownsSnoc(items: seq<Item>, m: nat)
    requires m < |items|
    ensures Unknowns(items[..m]) + (if items[m].Unknown? then 1 else 0) <= Unknowns(items)
    ensures Unknowns(items[..m + 1]) == Unknowns(items[..m]) + (if items[m].Unknown? then 1 else 0)
  {
    if m > 0 {
      UnknownsSnoc(items[1..], m - 1);
      assert items[1..][..m - 1] == items[..m][1..] && items[1..][..m] == items[..m + 1][1..];
    } else {
      assert items[..1][1..] == [];
    }
  }

  lemma {:induction false} StoreSnoc(table: seq<Entry>, slots: seq<Slot>, items: seq<Item>, m: nat)
    requires |slots| == |table| && m < |items|
    ensures Store(table, slots, items[..m + 1]) == StoreOne(table, Store(table, slots, items[..m]), items[m])
    decreases m
  {
    if m > 0 {
      StoreSnoc(table, StoreOne(table, slots, items[0]), items[1..], m - 1);
      assert items[1..][..m - 1] == items[..m][1..] && items[1..][..m] == items[..m + 1][1..];
    } else {
      assert items[..1][1..] == [];
    }
  }

  /** A stream that ends inside its m-th item: parsing fails when it ends inside the header or the
      value, and otherwise, inside the padding, stores the items so far. */
  lemma ItemCut(nr: bool, table: seq<Entry>, slots: seq<Slot>, items: seq<Item>, m: nat, n: nat)
    requires DistinctTags(table) && |slots| == |table| && ItemsOk(nr, table, items) && Unknowns(items) <= 3
    requires m < |items| && ItemOk(nr, table, items[m]) && 0 < n <= |Whole(nr, table, items[m])|
    ensures Parse(nr, table, slots, 0, Stream(nr, table, items[..m]) + Whole(nr, table, items[m])[..n]) ==
      if n < |Front(nr, table, items[m])| then Cut else Parsed(Store(table, slots, items[..m + 1]))
  {
    hide ParseOne, Front, Whole, Store, StoreOne, Stream, ItemOk;
    var item, tail := items[m], Whole(nr, table, items[m])[..n];
    var slots', bad := Store(table, slots, items[..m]), Unknowns(items[..m]);
    UnknownsSnoc(items, m);
    StoreSnoc(table, slots, items, m);
    ParseStream(nr, table, slots, 0, items[..m], tail);
    if n < |Front(nr, table, item)| {
      WholeFront(nr, table, item, n);
      FrontCut(nr, table, slots', bad, item, n);
    } else {
      PadCut(nr, table, slots', bad, item, n);
    }
  }

  lemma WholeFront(nr: bool, table: seq<Entry>, item: Item, n: nat)
    requires ItemOk(nr, table, item) && n < |Front(nr, table, item)|
    ensures |Whole(nr, table, item)| >= n && Whole(nr, table, item)[..n] == Front(nr, table, item)[..n]
  {
  }

  lemma PrefixBeyond(first: seq<byte>, rest: seq<byte>, mid: seq<byte>, last: seq<byte>, n: nat)
    requires |first| <= n <= |first + rest| && rest[..n - |first|] == mid + last
    ensures (first + rest)[..n] == first + mid + last
  {
    assert (first + rest)[..n] == first + rest[..n - |first|];
  }

  lemma StreamHead(nr: bool, table: seq<Entry>, items: seq<Item>, m: nat)
    requires ItemsOk(nr, table, items) && 0 < m <= |items|
    ensures ItemOk(nr, table, items[0]) && ItemsOk(nr, table, items[1..]) && ItemsOk(nr, table, items[1..][..m - 1])
    ensures Stream(nr, table, items[..m]) == Whole(nr, table, items[0]) + Stream(nr, table, items[1..][..m - 1])
  {
    assert items[..m][1..] == items[1..][..m - 1] && items[..m][0] == items[0];
  }

  /** Where the first n bytes of a stream end: after m items and j bytes of the next one. */
  lemma {:induction false} PrefixEnds(nr: bool, table: seq<Entry>, items: seq<Item>, n: nat) returns (m: nat, j: nat)
    requires ItemsOk(nr, table, items) && n < |Stream(nr, table, items)|
    ensures m < |items| && ItemOk(nr, table, items[m]) && j < |Whole(nr, table, items[m])|
    ensures Stream(nr, table, items)[..n] == Stream(nr, table, items[..m]) + Whole(nr, table, items[m])[..j]
  {
    hide Whole, ItemOk;
    StreamHead(nr, table, items, |items|);
    assert items[..|items|] == items && items[1..][..|items| - 1] == items[1..];
    var first, rest := Whole(nr, table, items[0]), Stream(nr, table, items[1..]);
    if n < |first| {
      m, j := 0, n;
      assert (first + rest)[..n] == [] + first[..n];
    } else {
      hide Stream;
      m, j := PrefixEnds(nr, table, items[1..], n - |first|);
      var last := Whole(nr, table, items[1..][m])[..j];
      PrefixBeyond(first, rest, Stream(nr, table, items[1..][..m]), last, n);
      m := m + 1;
      StreamHead(nr, table, items, m);
    }
  }

  /** Cutting a stream short, anywhere: parsing fails exactly when it ends inside a header or a
      value. Between two items or inside padding, the items before are stored. */
  lemma Truncated(nr: bool, table: seq<Entry>, slots: seq<Slot>, items: seq<Item>, n: nat) returns (m: nat, j: nat)
    requires DistinctTags(table) && |slots| == |table| && ItemsOk(nr, table, items) && Unknowns(items) <= 3
    requires n < |Stream(nr, table, items)|
    ensures m < |items| && ItemOk(nr, table, items[m]) && j < |Whole(nr, table, items[m])|
    ensures Stream(nr, table, items)[..n] == Stream(nr, table, items[..m]) + Whole(nr, table, items[m])[..j]
    ensures Parse(nr, table, slots, 0, Stream(nr, table, items)[..n]) ==
      if j == 0 then Parsed(Store(table, slots, items[..m]))
      else if j < |Front(nr, table, items[m])| then Cut
      else Parsed(Store(table, slots, items[..m + 1]))
  {
    hide Parse, Stream, Store, Front, Whole, ItemOk, Unknowns;
    m, j := PrefixEnds(nr, table, items, n);
    if j > 0 {
      ItemCut(nr, table, slots, items, m, j);
    } else {
      UnknownsSnoc(items, m);
      ParseAll(nr, table, slots, items[..m]);
      var before := Stream(nr, table, items[..m]);
      assert Whole(nr, table, items[m])[..0] == [] && before + [] == before;
    }
  }

  // ---- The language -----------------------------------------------------------------------

  /** s is the stream of these items, but for its last k bytes, which are padding. */
  ghost predicate Reads(nr: bool, table: seq<Entry>, items: seq<Item>, k: nat, s: seq<byte>) {
    && ItemsOk(nr, table, items)
    && k <= (if items == [] then 0 else |Pad(items[|items| - 1])|) && k <= |Stream(nr, table, items)|
    && s == Stream(nr, table, items)[..|Stream(nr, table, items)| - k]
  }

  /** What a parser goes on after is an item, perhaps without all of its padding. */
  ghost predicate TurnReads(nr: bool, table: seq<Entry>, item: Item, k: nat, s: seq<byte>, rest: seq<byte>) {
    && ItemOk(nr, table, item) && k <= |Pad(item)| && (k > 0 ==> rest == [])
    && s == Whole(nr, table, item)[..|Whole(nr, table, item)| - k] + rest
  }

  /** The padding behind a value, as far as it is there. */
  lemma SplitPad(after: seq<byte>, n: nat) returns (pad: seq<byte>, k: nat)
    ensures |pad| == n && k <= n && (k > 0 ==> Skip(after, n) == []) && after == pad[..n - k] + Skip(after, n)
  {
    if n <= |after| {
      pad, k := after[..n], 0;
    } else {
      pad, k := after + Zeros(n - |after|), n - |after|;
    }
  }

  lemma JoinPad(head: seq<byte>, body: seq<byte>, pad: seq<byte>, k: nat, after: seq<byte>, rest: seq<byte>)
    requires k <= |pad| && after == pad[..|pad| - k] + rest
    ensures head + (body + after) == (head + body + pad)[..|head + body + pad| - k] + rest
  {
    assert (head + body + pad)[..|head + body + pad| - k] == head + body + pad[..|pad| - k];
  }

  /** A value that is accepted is one that can be packed. */
  lemma KnownRead(f: TlvFormat, length: uint16, s: seq<byte>)
    requires DecodeBody(f, length, s).Some?
    ensures var (v, after) := DecodeBody(f, length, s).value;
      && FitsBody(f, v) && WithinBody(f, v) && (f.Opaque? ==> length == |v.items| <= 64)
      && EncodeBody(f, v).Some? && s == EncodeBody(f, v).value + after
  {
    match f
    case Inline(fs) =>
      AgreeReflexive(Fields(fs));
      EncodeDecode(Fields(fs), Fields(fs), s);
    case Opaque => EncodeDecodeItems(U8, U8, length, s);
  }

  lemma HeaderParts(s: seq<byte>)
    requires |s| >= 4
    ensures s == Header(Number16(s), Number16(s[2..])) + s[4..]
  {
    Bytes16Number(s);
    Bytes16Number(s[2..]);
    assert s[2..][2..] == s[4..];
  }

  /** The item that a turn has read. */
  ghost predicate TurnItem(nr: bool, table: seq<Entry>, slots: seq<Slot>, bad: nat, s: seq<byte>, item: Item, k: nat)
    requires |slots| == |table| && s != [] && ParseOne(nr, table, slots, bad, s).Go?
  {
    var t := ParseOne(nr, table, slots, bad, s);
    && TurnReads(nr, table, item, k, s, t.rest)
    && t.slots == StoreOne(table, slots, item)
    && t.bad == bad + (if item.Unknown? then 1 else 0) && (item.Unknown? ==> bad < 3)
  }

  lemma KnownTurn(nr: bool, table: seq<Entry>, slots: seq<Slot>, bad: nat, s: seq<byte>) returns (item: Item, k: nat)
    requires |slots| == |table| && |s| >= 4 && Find(table, Number16(s)).Some?
    requires ParseOne(nr, table, slots, bad, s).Go?
    ensures TurnItem(nr, table, slots, bad, s, item, k)
  {
    hide DecodeBody, EncodeBody, Header, FitsBody, WithinBody, Padding, Number16;
    var tag, length, at := Number16(s), Number16(s[2..]), Find(table, Number16(s)).value;
    var f := table[at].format;
    HeaderParts(s);
    KnownRead(f, length, s[4..]);
    var (v, after) := DecodeBody(f, length, s[4..]).value;
    var pad;
    pad, k := SplitPad(after, Padding(nr, length));
    item := Known(at, length, v, pad);
    JoinPad(Header(tag, length), EncodeBody(f, v).value, pad, k, after, Skip(after, Padding(nr, length)));
  }

  lemma UnknownGo(nr: bool, table: seq<Entry>, slots: seq<Slot>, bad: nat, s: seq<byte>)
    requires |slots| == |table| && |s| >= 4 && Find(table, Number16(s)).None? && Number16(s) < 0xF000
    requires ParseOne(nr, table, slots, bad, s).Go?
    ensures var length, rest := Number16(s[2..]), s[4..];
      && bad < 3 && length <= |rest|
      && ParseOne(nr, table, slots, bad, s) == Go(slots, bad + 1, Skip(rest, length + Padding(nr, length)))
  {
    hide DecodeBody, Skip;
  }

  lemma UnknownReads(nr: bool, table: seq<Entry>, tag: uint16, body: seq<byte>, pad: seq<byte>, k: nat,
                     after: seq<byte>, rest: seq<byte>)
    requires ItemOk(nr, table, Unknown(tag, body, pad)) && k <= |pad| && (k > 0 ==> rest == [])
    requires after == pad[..|pad| - k] + rest
    ensures TurnReads(nr, table, Unknown(tag, body, pad), k, Header(tag, |body|) + (body + after), rest)
  {
    hide Header, Find;
    JoinPad(Header(tag, |body|), body, pad, k, after, rest);
  }

  lemma UnknownTurn(nr: bool, table: seq<Entry>, slots: seq<Slot>, bad: nat, s: seq<byte>)
    returns (item: Item, k: nat)
    requires |slots| == |table| && |s| >= 4 && Find(table, Number16(s)).None? && Number16(s) < 0xF000
    requires ParseOne(nr, table, slots, bad, s).Go?
    ensures TurnItem(nr, table, slots, bad, s, item, k)
  {
    hide ParseOne, Header, Skip, Padding, Find, Number16, TurnReads;
    var tag, length, rest := Number16(s), Number16(s[2..]), s[4..];
    UnknownGo(nr, table, slots, bad, s);
    HeaderParts(s);
    var body, after := rest[..length], rest[length..];
    var pad;
    pad, k := SplitPad(after, Padding(nr, length));
    item := Unknown(tag, body, pad);
    assert rest == body + after;
    SkipBody(body, after, Padding(nr, length));
    UnknownReads(nr, table, tag, body, pad, k, after, Skip(after, Padding(nr, length)));
  }

  lemma VendorTurn(nr: bool, table: seq<Entry>, slots: seq<Slot>, bad: nat, s: seq<byte>)
    returns (item: Item, k: nat)
    requires |slots| == |table| && |s| >= 4 && Find(table, Number16(s)).None? && Number16(s) >= 0xF000
    ensures ParseOne(nr, table, slots, bad, s).Go? && TurnItem(nr, table, slots, bad, s, item, k)
  {
    hide DecodeBody, Header;
    HeaderParts(s);
    item, k := Vendor(Number16(s), Number16(s[2..])), 0;
    JoinPad(Header(item.tag, item.length), [], [], 0, s[4..], s[4..]);
    assert [] + s[4..] == s[4..];
  }

  lemma SomeTurn(nr: bool, table: seq<Entry>, slots: seq<Slot>, bad: nat, s: seq<byte>) returns (item: Item, k: nat)
    requires |slots| == |table| && s != [] && ParseOne(nr, table, slots, bad, s).Go?
    ensures TurnItem(nr, table, slots, bad, s, item, k)
  {
    hide TurnItem, DecodeBody;
    if Find(table, Number16(s)).Some? {
      item, k := KnownTurn(nr, table, slots, bad, s);
    } else if Number16(s) < 0xF000 {
      item, k := UnknownTurn(nr, table, slots, bad, s);
    } else {
      item, k := VendorTurn(nr, table, slots, bad, s);
    }
  }

  lemma ReadsMore(nr: bool, table: seq<Entry>, item: Item, k: nat, items: seq<Item>, k': nat, s: seq<byte>,
                  rest: seq<byte>)
    returns (j: nat)
    requires TurnReads(nr, table, item, k, s, rest) && Reads(nr, table, items, k', rest)
    requires items == [] || rest != []
    ensures Reads(nr, table, [item] + items, j, s)
  {
    hide Whole, Pad, ItemOk;
    var all := [item] + items;
    assert all[1..] == items && all[0] == item && ItemsOk(nr, table, all);
    var first, more := Whole(nr, table, item), Stream(nr, table, items);
    WholeLong(nr, table, item);
    assert Stream(nr, table, all) == first + more;
    if items == [] {
      j := k;
      assert first + more == first && rest == [];
      assert first[..|first| - k] + [] == first[..|first| - k];
    } else {
      j := k';
      assert all[|all| - 1] == items[|items| - 1];
      PrefixBeyond(first, more, more[..|more| - k'], [], |first + more| - k');
      assert first[..|first| - 0] == first && first + more[..|more| - k'] + [] == first + more[..|more| - k'];
    }
  }

  /** Whatever a parser accepts is a stream with at most three unknown items, and its
      known ones are stored. */
  lemma {:induction false} AcceptedReads(nr: bool, table: seq<Entry>, slots: seq<Slot>, bad: nat, s: seq<byte>)
    returns (items: seq<Item>, k: nat)
    requires |slots| == |table| && bad <= 3 && Parse(nr, table, slots, bad, s).Parsed?
    ensures Reads(nr, table, items, k, s) && bad + Unknowns(items) <= 3
    ensures Parse(nr, table, slots, bad, s) == Parsed(Store(table, slots, items))
    ensures s == [] <==> items == []
    decreases |s|
  {
    items, k := [], 0;
    if s != [] {
      var t := ParseOne(nr, table, slots, bad, s);
      var item, j := SomeTurn(nr, table, slots, bad, s);
      var rest;
      rest, k := AcceptedReads(nr, table, t.slots, t.bad, t.rest);
      k := ReadsMore(nr, table, item, j, rest, k, s, t.rest);
      items := [item] + rest;
      assert items[1..] == rest;
    }
  }

  lemma {:induction false} StreamLast(nr: bool, table: seq<Entry>, items: seq<Item>)
    requires ItemsOk(nr, table, items) && items != []
    ensures var m := |items| - 1;
      ItemOk(nr, table, items[m]) && ItemsOk(nr, table, items[..m])
      && Stream(nr, table, items) == Stream(nr, table, items[..m]) + Whole(nr, table, items[m])
  {
    hide Whole, ItemOk;
    var m := |items| - 1;
    StreamHead(nr, table, items, |items|);
    assert items[..|items|] == items && items[1..][..m] == items[1..];
    var first := Whole(nr, table, items[0]);
    if m > 0 {
      StreamLast(nr, table, items[1..]);
      StreamHead(nr, table, items, m);
      ConcatAssoc(first, Stream(nr, table, items[1..][..m - 1]), Whole(nr, table, items[m]));
    } else {
      assert first + [] == first && [] + first == first;
    }
  }

  lemma ReadsParses(nr: bool, table: seq<Entry>, slots: seq<Slot>, items: seq<Item>, k: nat, s: seq<byte>)
    requires DistinctTags(table) && |slots| == |table| && Reads(nr, table, items, k, s) && Unknowns(items) <= 3
    ensures Parse(nr, table, slots, 0, s) == Parsed(Store(table, slots, items))
  {
    hide Parse, Stream, Store, Front, Whole, ItemOk, Unknowns;
    ParseAll(nr, table, slots, items);
    if k == 0 {
      assert Stream(nr, table, items)[..|Stream(nr, table, items)|] == Stream(nr, table, items);
    } else {
      var m := |items| - 1;
      StreamLast(nr, table, items);
      WholeLong(nr, table, items[m]);
      var before, last := Stream(nr, table, items[..m]), Whole(nr, table, items[m]);
      assert (before + last)[..|before + last| - k] == before + last[..|last| - k];
      ItemCut(nr, table, slots, items, m, |last| - k);
      assert items[..m + 1] == items;
    }
  }

  /** The parsers accept exactly the streams with at most three unknown items, whose last
      padding may be missing, and what they store is told by the items. */
  lemma AcceptedExactly(nr: bool, table: seq<Entry>, slots: seq<Slot>, s: seq<byte>)
    requires DistinctTags(table) && |slots| == |table|
    ensures Parse(nr, table, slots, 0, s).Parsed? <==>
      exists items, k: nat :: Reads(nr, table, items, k, s) && Unknowns(items) <= 3
    ensures forall items, k: nat :: Reads(nr, table, items, k, s) && Unknowns(items) <= 3 ==>
      Parse(nr, table, slots, 0, s) == Parsed(Store(table, slots, items))
  {
    hide Parse, Reads, Store, Unknowns;
    forall items, k: nat | Reads(nr, table, items, k, s) && Unknowns(items) <= 3
      ensures Parse(nr, table, slots, 0, s) == Parsed(Store(table, slots, items))
    {
      ReadsParses(nr, table, slots, items, k, s);
    }
    if Parse(nr, table, slots, 0, s).Parsed? {
      var items, k := AcceptedReads(nr, table, slots, 0, s);
      assert Reads(nr, table, items, k, s) && Unknowns(items) <= 3;
    }
  }

  /** s starts with these items and then the header of an unknown TLV. */
  ghost predicate MeetsUnknown(nr: bool, table: seq<Entry>, items: seq<Item>, s: seq<byte>) {
    && ItemsOk(nr, table, items) && Stream(nr, table, items) <= s
    && var t := s[|Stream(nr, table, items)|..];
       |t| >= 4 && Find(table, Number16(t)).None? && Number16(t) < 0xF000
  }

  lemma MeetsMore(nr: bool, table: seq<Entry>, item: Item, items: seq<Item>, s: seq<byte>, rest: seq<byte>)
    requires TurnReads(nr, table, item, 0, s, rest) && MeetsUnknown(nr, table, items, rest)
    ensures MeetsUnknown(nr, table, [item] + items, s)
  {
    hide Whole, ItemOk, Find;
    var all := [item] + items;
    assert all[1..] == items && ItemsOk(nr, table, all);
    var first, more := Whole(nr, table, item), Stream(nr, table, items);
    assert first[..|first| - 0] == first;
    assert Stream(nr, table, all) == first + more && (first + rest)[|first + more|..] == rest[|more|..];
  }

  lemma StopsUnknown(nr: bool, table: seq<Entry>, slots: seq<Slot>, bad: nat, s: seq<byte>)
    requires |slots| == |table| && s != [] && ParseOne(nr, table, slots, bad, s) == Stop(TooManyBad) && bad <= 3
    ensures bad == 3 && MeetsUnknown(nr, table, [], s)
  {
    hide DecodeBody;
    assert s[0..] == s;
  }

  lemma {:induction false} RefusedMeets(nr: bool, table: seq<Entry>, slots: seq<Slot>, bad: nat, s: seq<byte>)
    returns (items: seq<Item>)
    requires |slots| == |table| && bad <= 3 && Parse(nr, table, slots, bad, s) == TooManyBad
    ensures MeetsUnknown(nr, table, items, s) && bad + Unknowns(items) == 3
    decreases |s|
  {
    hide ParseOne, MeetsUnknown;
    items := [];
    var t := ParseOne(nr, table, slots, bad, s);
    if t.Go? {
      var item, k := SomeTurn(nr, table, slots, bad, s);
      var rest := RefusedMeets(nr, table, t.slots, t.bad, t.rest);
      MeetsMore(nr, table, item, rest, s, t.rest);
      items := [item] + rest;
      assert items[1..] == rest;
    } else {
      StopsUnknown(nr, table, slots, bad, s);
    }
  }

  lemma MeetsRefused(nr: bool, table: seq<Entry>, slots: seq<Slot>, items: seq<Item>, s: seq<byte>)
    requires DistinctTags(table) && |slots| == |table| && MeetsUnknown(nr, table, items, s) && Unknowns(items) == 3
    ensures Parse(nr, table, slots, 0, s) == TooManyBad
  {
    hide Stream, Store, ItemsOk, Unknowns, DecodeBody;
    var t := s[|Stream(nr, table, items)|..];
    assert s == Stream(nr, table, items) + t;
    ParseStream(nr, table, slots, 0, items, t);
  }

  /** They give up for too many bad tags exactly at the header of a fourth unknown TLV, however
      the bytes go on. All other byte strings are cut short or hold a value that cannot be
      unpacked. */
  lemma RefusedExactly(nr: bool, table: seq<Entry>, slots: seq<Slot>, s: seq<byte>)
    requires DistinctTags(table) && |slots| == |table|
    ensures Parse(nr, table, slots, 0, s) == TooManyBad <==>
      exists items :: MeetsUnknown(nr, table, items, s) && Unknowns(items) == 3
  {
    hide Parse, MeetsUnknown, Unknowns;
    if Parse(nr, table, slots, 0, s) == TooManyBad {
      var items := RefusedMeets(nr, table, slots, 0, s);
      assert MeetsUnknown(nr, table, items, s) && Unknowns(items) == 3;
    }
    forall items | MeetsUnknown(nr, table, items, s) && Unknowns(items) == 3
      ensures Parse(nr, table, slots, 0, s) == TooManyBad
    {
      MeetsRefused(nr, table, slots, items, s);
    }
  }
}
