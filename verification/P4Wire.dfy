/** P4 messages on the wire, told by message ids and tags as numbers: which TLVs a message
    consists of, where they are, what is in them, and which RAT types are accepted. */
module P4Wire {
  import opened Wrappers
  import opened Words
  import opened Cursors
  import opened Formats
  import opened Tlv
  import opened P4Values
  import opened P4Kinds
  import opened P4

  /** The TLVs that a message of this id and RAT type can carry, in the order in which they are
      packed: the number of the struct, and the tag. */
  function SourceTlvs(id: uint16, rat: nat): seq<(nat, uint16)> {
    if id == 0x0200 then
      if rat == 0 then [(0, 0x3000)] else if rat == 1 then [(1, 0x3001)]
      else if rat == 2 then [(2, 0x3002)] else if rat == 3 then [(3, 0x3020)] else []
    else if id == 0x0202 then [(0, 0x3003)]
    else if id == 0x0203 then
      if rat == 0 then [(0, 0x3004)] else if rat == 1 then [(1, 0x3005)]
      else if rat == 2 then [(2, 0x3006)] else if rat == 3 then [(3, 0x3021)] else []
    else if id == 0x0205 then [(0, 0x3007), (1, 0x3008), (2, 0x3009), (3, 0x300A), (4, 0x3022)]
    else if id == 0x0206 then
      if rat == 0 then [(0, 0x300B), (2, 0x300A)] else if rat == 1 then [(1, 0x300C), (2, 0x300A)]
      else if rat == 3 then [(3, 0x3023), (2, 0x300A)] else [(2, 0x300A)]
    else if id == 0x0208 then [(0, 0x300E), (1, 0x300F), (3, 0x3010), (2, 0x3024)]
    else if id == 0x0209 then
      if rat == 0 then [(0, 0x3011), (2, 0x3010)] else if rat == 3 then [(1, 0x3025), (2, 0x3010)]
      else [(2, 0x3010)]
    else if id == 0x020B then [(0, 0x3018), (1, 0x3026)]
    else if id == 0x020C then
      if rat == 0 then [(0, 0x3014), (4, 0x3010)] else if rat == 1 then [(1, 0x3015), (4, 0x3010)]
      else if rat == 2 then [(2, 0x3016), (4, 0x3010)] else if rat == 3 then [(3, 0x3027), (4, 0x3010)]
      else [(4, 0x3010)]
    else if id == 0x020E then [(0, 0x3018), (1, 0x3019), (2, 0x301A), (3, 0x3026)]
    else []
  }

  predicate RatRequest(id: uint16) {
    id == 0x0200 || id == 0x0203 || id == 0x0206 || id == 0x0209 || id == 0x020C
  }

  /** Between header and TLVs: the RAT type in a byte, nothing in the stop request, and an error
      code of four bytes in all other messages. */
  function SourcePrefix(id: uint16, n: nat): seq<byte>
    requires n < 0x1_0000_0000 && (RatRequest(id) ==> n < 0x100)
  {
    if RatRequest(id) then [n] else if id == 0x020F then [] else Bytes32(n)
  }

  /** The tags of a list of TLVs, read by their length fields. */
  function TlvTags(s: seq<byte>): seq<uint16>
    decreases |s|
  {
    if |s| < 4 then []
    else [Number16(s)] + if 4 + Number16(s[2..]) <= |s| then TlvTags(s[4 + Number16(s[2..])..]) else []
  }

  /** The tags of the structs that are present, that is, carry their own tag. */
  function PresentTags(slots: seq<Slot>, tlvs: seq<(nat, uint16)>): seq<uint16> {
    if tlvs == [] then []
    else
      (if tlvs[0].0 < |slots| && slots[tlvs[0].0].tag == tlvs[0].1 then [tlvs[0].1] else [])
        + PresentTags(slots, tlvs[1..])
  }

  // ---- The calls of each message ----------------------------------------------------------

  ghost predicate SameTlvs(calls: seq<Call>, tlvs: seq<(nat, uint16)>) {
    |calls| == |tlvs| && forall j :: 0 <= j < |calls| ==> calls[j].at == tlvs[j].0 && calls[j].tag == tlvs[j].1
  }

  lemma MeasureCalls(rat: nat)
    ensures SameTlvs(RSSI_REQUEST.Calls(rat), SourceTlvs(0x0200, rat))
    ensures SameTlvs(CELL_SEARCH_REQUEST.Calls(rat), SourceTlvs(0x0203, rat))
  {
    hide PackLteRssiRequest, PackUtranRssiRequest, PackGeranRssiRequest, PackNbIotRssiRequest;
    hide PackLteCellSearchRequest, PackUtranCellSearchRequest, PackGeranCellSearchRequest;
    hide PackNbIotCellSearchRequest;
  }

  lemma BroadcastCalls(rat: nat)
    ensures SameTlvs(BROADCAST_DETECT_REQUEST.Calls(rat), SourceTlvs(0x0206, rat))
    ensures SameTlvs(SCHEDULE_REQUEST.Calls(rat), SourceTlvs(0x0209, rat))
  {
    hide PackLteBroadcastDetectRequest, PackUtranBroadcastDetectRequest, PackNbIotBroadcastDetectRequest;
    hide PackLteScheduleRequest, PackNbIotScheduleRequest;
  }

  lemma InformationCalls(rat: nat)
    ensures SameTlvs(SYSTEM_INFORMATION_REQUEST.Calls(rat), SourceTlvs(0x020C, rat))
  {
    hide PackLteInformationRequest, PackUtranInformationRequest;
    hide PackGeranInformationRequest, PackNbIotInformationRequest;
  }

  lemma MeasureIndicationCalls(rat: nat)
    ensures SameTlvs(RSSI_INDICATION.Calls(rat), SourceTlvs(0x0202, rat))
    ensures SameTlvs(CELL_SEARCH_INDICATION.Calls(rat), SourceTlvs(0x0205, rat))
  {
    hide PackRssiIndication, PackLteCellSearchIndication, PackUtranCellSearchIndication;
    hide PackGeranCellSearchIndication, PackNbIotCellSearchIndication;
  }

  lemma InformationIndicationCalls(rat: nat)
    ensures SameTlvs(BROADCAST_DETECT_INDICATION.Calls(rat), SourceTlvs(0x0208, rat))
    ensures SameTlvs(SCHEDULE_INDICATION.Calls(rat), SourceTlvs(0x020B, rat))
    ensures SameTlvs(SYSTEM_INFORMATION_INDICATION.Calls(rat), SourceTlvs(0x020E, rat))
  {
    hide PackLteBroadcastDetectIndication, PackUtranBroadcastDetectIndication, PackNbIotBroadcastDetectIndication;
    hide PackLteInformationIndication, PackNbIotInformationIndication, PackUtranInformationIndication;
    hide PackGeranInformationIndication;
  }

  lemma CallsAre(id: uint16, rat: nat)
    requires KindOf(id).Some?
    ensures SameTlvs(KindOf(id).value.Calls(rat), SourceTlvs(id, rat))
  {
    hide SameTlvs, SourceTlvs, Layout.Calls, Layout.Valid;
    MeasureCalls(rat);
    BroadcastCalls(rat);
    InformationCalls(rat);
    MeasureIndicationCalls(rat);
    InformationIndicationCalls(rat);
    NoCalls(id, rat);
  }

  lemma NoCalls(id: uint16, rat: nat)
    ensures SameTlvs(RESPONSE.Calls(rat), []) && SameTlvs(STOP_REQUEST.Calls(rat), [])
    ensures id == 0x0201 || id == 0x0204 || id == 0x0207 || id == 0x020A || id == 0x020D || id >= 0x020F ==>
      SourceTlvs(id, rat) == []
  {
  }

  lemma PrefixKind(id: uint16)
    requires KindOf(id).Some?
    ensures KindOf(id).value.prefix == if RatRequest(id) then RatType else if id == 0x020F then NoPrefix else ErrorCode
  {
  }

  lemma PrefixIs(id: uint16, n: nat)
    requires KindOf(id).Some?
    ensures PrefixFits(KindOf(id).value.prefix, n) <==>
      n < 0x1_0000_0000 && (RatRequest(id) ==> n < 0x100) && (id == 0x020F ==> n == 0)
    ensures PrefixFits(KindOf(id).value.prefix, n) ==>
      PrefixBytes(KindOf(id).value.prefix, n) == SourcePrefix(id, n)
  {
    hide KindOf;
    PrefixKind(id);
  }

  // ---- The bytes of a message -------------------------------------------------------------

  lemma TagsOne(tag: uint16, body: seq<byte>, rest: seq<byte>)
    requires |body| < 0x1_0000
    ensures TlvTags(Wire(false, tag, body) + rest) == [tag] + TlvTags(rest)
  {
    var s := Wire(false, tag, body) + rest;
    WireParts(false, tag, body, rest);
    assert s[4 + |body|..] == s[4..][|body|..];
    assert Zeros(0) + rest == rest && (body + rest)[|body|..] == rest;
  }

  lemma {:induction false} PackedTags(table: seq<Entry>, slots: seq<Slot>, calls: seq<Call>, tlvs: seq<(nat, uint16)>)
    requires SlotsFit(table, slots) && CallsMatch(table, calls) && SameTlvs(calls, tlvs)
    requires PackList(false, table, slots, calls).Some? && |PackList(false, table, slots, calls).value| < 0x1_0000
    ensures TlvTags(PackList(false, table, slots, calls).value) == PresentTags(slots, tlvs)
    decreases |calls|
  {
    hide Wire, EncodeBody, FitsBody, SlotFits;
    if calls != [] {
      CallFits(table, slots, calls[0]);
      PackedTags(table, slots, calls[1..], tlvs[1..]);
      var rest := PackList(false, table, slots, calls[1..]).value;
      if slots[calls[0].at].tag == calls[0].tag {
        TagsOne(calls[0].tag, EncodeBody(calls[0].format, slots[calls[0].at].value).value, rest);
      } else {
        assert [] + rest == rest;
      }
    }
  }

  /** Every packed message, of all seventeen ids: the header with the length, the prefix, and a TLV
      for each struct that is present, in the order of the source. */
  lemma MessageBytes(m: Message)
    requires Fitting(m) && PackMessage(m).Some?
    ensures 0x0200 <= m.id <= 0x0210
    ensures m.prefix < 0x1_0000_0000 && (RatRequest(m.id) ==> m.prefix < 0x100)
    ensures var s, p := PackMessage(m).value, SourcePrefix(m.id, m.prefix);
      && |s| < 0x1_0000 && 8 + |p| <= |s|
      && s[..8 + |p|] == Bytes16(m.phyId) + Bytes16(m.id) + Bytes16(|s|) + Bytes16(m.spare) + p
      && TlvTags(s[8 + |p|..]) == PresentTags(m.slots, SourceTlvs(m.id, m.prefix))
  {
    hide KindOf, SourceTlvs, TlvTags, PresentTags, PackList, SameTlvs, PrefixFits, SlotsFit, Layout.Valid;
    var k := KindOf(m.id).value;
    KindCalls(k, m.prefix);
    PrefixIs(m.id, m.prefix);
    CallsAre(m.id, m.prefix);
    var tlvs := PackList(false, k.table, m.slots, k.Calls(m.prefix)).value;
    PackedTags(k.table, m.slots, k.Calls(m.prefix), SourceTlvs(m.id, m.prefix));
    BytesSplit(MessageHeader(m, |PackMessage(m).value|), SourcePrefix(m.id, m.prefix), tlvs);
  }

  lemma BytesSplit(header: seq<byte>, prefix: seq<byte>, tlvs: seq<byte>)
    requires |header| == 8
    ensures var s := header + (prefix + tlvs);
      s[..8 + |prefix|] == header + prefix && s[8 + |prefix|..] == tlvs
  {
  }

  lemma {:induction false} PacksIff(table: seq<Entry>, slots: seq<Slot>, calls: seq<Call>)
    requires SlotsFit(table, slots) && CallsMatch(table, calls)
    ensures PackList(false, table, slots, calls).Some? <==>
      forall k :: 0 <= k < |calls| ==> Packs(table, slots, calls[k])
    decreases |calls|
  {
    hide EncodeBody, FitsBody, SlotFits, Wire;
    if calls != [] {
      CallFits(table, slots, calls[0]);
      PacksIff(table, slots, calls[1..]);
      assert forall k :: 1 <= k < |calls| ==> calls[k] == calls[1..][k - 1];
    }
  }

  /** The call's struct is absent, or its lists are within the limits that packing checks. */
  ghost predicate Packs(table: seq<Entry>, slots: seq<Slot>, call: Call)
    requires SlotsFit(table, slots)
  {
    call.at < |slots| && slots[call.at].tag == call.tag ==>
      FitsBody(call.format, slots[call.at].value) && EncodeBody(call.format, slots[call.at].value).Some?
  }

  ghost predicate AllPack(k: Kind, m: Message)
    requires MessageFits(k, m)
  {
    forall j :: 0 <= j < |k.Calls(m.prefix)| ==> Packs(k.table, m.slots, k.Calls(m.prefix)[j])
  }

  lemma KindPacks(k: Kind, m: Message)
    requires MessageFits(k, m)
    ensures Content(k, m).Some? <==> AllPack(k, m)
    ensures Pack(k, m).Some? <==> Content(k, m).Some? && 8 + |Content(k, m).value| <= 65535
  {
    hide PackList, Packs;
    KindCalls(k, m.prefix);
    PacksIff(k.table, m.slots, k.Calls(m.prefix));
  }

  /** A message is packed exactly when its id is one of the seventeen, no list that is checked is
      too long, and it takes no more than 65535 bytes. */
  lemma Packable(m: Message)
    requires Fitting(m)
    ensures KindOf(m.id).None? <==> m.id < 0x0200 || m.id > 0x0210
    ensures KindOf(m.id).None? ==> PackMessage(m) == None
    ensures KindOf(m.id).Some? ==>
      var k := KindOf(m.id).value;
      PackMessage(m).Some? <==> AllPack(k, m) && Content(k, m).Some? && 8 + |Content(k, m).value| <= 65535
  {
    hide KindOf, Content, Pack, AllPack, MessageFits;
    if KindOf(m.id).Some? {
      KindPacks(KindOf(m.id).value, m);
    }
  }

  // ---- Any bytes --------------------------------------------------------------------------

  /** What unpacking makes of a header, a prefix and any bytes behind them. The length field is not
      looked at. */
  lemma UnpackBytes(phyId: uint16, id: uint16, length: uint16, spare: uint16, n: nat, t: seq<byte>)
    requires 0x0200 <= id <= 0x0210
    requires n < 0x1_0000_0000 && (RatRequest(id) ==> n < 0x100) && (id == 0x020F ==> n == 0)
    ensures KindOf(id).Some?
    ensures var s := Bytes16(phyId) + Bytes16(id) + Bytes16(length) + Bytes16(spare) + SourcePrefix(id, n) + t;
      var table := KindOf(id).value.table;
      var o := Parse(false, table, Blank(table), 0, t);
      && (Unpack(s).Some? <==> o.Parsed? && RatOk(Message(phyId, id, length, spare, n, o.slots)))
      && (Unpack(s).Some? ==> Unpack(s) == Some(Message(phyId, id, length, spare, n, o.slots)))
  {
    hide KindOf, RatOk, Parse, UnpackContent, Unpack, Layout.Accepts, Blank, RatRequest, SourcePrefix, PrefixBytes;
    var k := KindOf(id).value;
    var m := Message(phyId, id, length, spare, n, []);
    PrefixIs(id, n);
    var content := SourcePrefix(id, n) + t;
    ContentBytes(k, n, t);
    HeaderRoundTrip(k, m, length, content);
    ConcatAssoc(MessageHeader(m, length), SourcePrefix(id, n), t);
    var o := Parse(false, k.table, Blank(k.table), 0, t);
    if o.Parsed? {
      AcceptsRat(Message(phyId, id, length, spare, n, o.slots));
    }
  }

  lemma ContentBytes(k: Kind, n: nat, t: seq<byte>)
    requires PrefixFits(k.prefix, n)
    ensures var o := Parse(false, k.table, Blank(k.table), 0, t);
      && (o.Parsed? ==> |o.slots| == |k.table|)
      && UnpackContent(k, PrefixBytes(k.prefix, n) + t)
        == if o.Parsed? && k.Accepts(n, o.slots) then Some((n, o.slots)) else None
  {
    hide Parse, Blank, Layout.Accepts, PrefixBytes, PrefixOf, Layout.Valid;
    PrefixRoundTrip(k.prefix, n, t);
    ParseKeeps(k.table, Blank(k.table), 0, t);
  }

  lemma {:induction false} ParseKeeps(table: seq<Entry>, slots: seq<Slot>, bad: nat, s: seq<byte>)
    requires |slots| == |table|
    ensures Parse(false, table, slots, bad, s).Parsed? ==> |Parse(false, table, slots, bad, s).slots| == |table|
    decreases |s|
  {
    if s != [] {
      var t := ParseOne(false, table, slots, bad, s);
      if t.Go? {
        ParseKeeps(table, t.slots, t.bad, t.rest);
      }
    }
  }

  /** Nothing shorter than a header, of another id, or without its prefix is unpacked. */
  lemma UnpackRefuses(s: seq<byte>)
    ensures |s| < 8 || Number16(s[2..]) < 0x0200 || Number16(s[2..]) > 0x0210 ==> Unpack(s) == None
    ensures |s| >= 8 && RatRequest(Number16(s[2..])) && |s| == 8 ==> Unpack(s) == None
    ensures |s| >= 8 && !RatRequest(Number16(s[2..])) && Number16(s[2..]) != 0x020F && |s| < 12 ==> Unpack(s) == None
  {
    hide KindOf, Parse, Layout.Accepts, Layout.Valid, Blank, Number16;
    if |s| >= 8 && KindOf(Number16(s[2..])).Some? {
      PrefixKind(Number16(s[2..]));
    }
  }

  // ---- RAT types --------------------------------------------------------------------------

  /** The tag of the struct that must be there for a RAT type, where the unpack function checks it:
      LTE, UTRAN, GERAN and NB-IoT in RSSI and cell search requests, and the first three in
      system information requests. */
  function CheckedTag(id: uint16, rat: nat): Option<uint16> {
    if id == 0x0200 && rat < 3 then Some(0x3000 + rat)
    else if id == 0x0200 && rat == 3 then Some(0x3020)
    else if id == 0x0203 && rat < 3 then Some(0x3004 + rat)
    else if id == 0x0203 && rat == 3 then Some(0x3021)
    else if id == 0x020C && rat < 3 then Some(0x3014 + rat)
    else None
  }

  /** No other message is checked. */
  predicate RatOk(m: Message) {
    m.id == 0x0200 || m.id == 0x0203 || m.id == 0x020C ==>
      && CheckedTag(m.id, m.prefix).Some?
      && m.prefix < |m.slots| && Some(m.slots[m.prefix].tag) == CheckedTag(m.id, m.prefix)
  }

  ghost predicate RatTable(k: Layout, id: uint16, rat: nat) {
    && k.accepted.Some? && (rat in k.accepted.value <==> CheckedTag(id, rat).Some?)
    && (rat in k.accepted.value ==>
        k.accepted.value[rat] == rat < |k.table| && Some(k.table[rat].tag) == CheckedTag(id, rat))
  }

  lemma RatTables(rat: nat)
    ensures RatTable(RSSI_REQUEST, 0x0200, rat)
    ensures RatTable(CELL_SEARCH_REQUEST, 0x0203, rat)
    ensures RatTable(SYSTEM_INFORMATION_REQUEST, 0x020C, rat)
  {
    assert rat < 4 ==> rat == 0 || rat == 1 || rat == 2 || rat == 3;
  }

  lemma RatChecked(k: Kind, m: Message)
    requires MessageFits(k, m) && RatTable(k, m.id, m.prefix)
    requires m.id == 0x0200 || m.id == 0x0203 || m.id == 0x020C
    ensures RatAccepted(k, m) <==> RatOk(m)
  {
    hide CheckedTag, SlotFits, PrefixFits;
  }

  lemma NotChecked(id: uint16)
    requires KindOf(id).Some? && id != 0x0200 && id != 0x0203 && id != 0x020C
    ensures KindOf(id).value.accepted.None?
  {
  }

  lemma KindsChecked()
    ensures KindOf(0x0200) == Some(RSSI_REQUEST) && KindOf(0x0203) == Some(CELL_SEARCH_REQUEST)
    ensures KindOf(0x020C) == Some(SYSTEM_INFORMATION_REQUEST)
  {
  }

  lemma RatAcceptedIff(m: Message)
    requires KindOf(m.id).Some? && Fitting(m)
    ensures RatAccepted(KindOf(m.id).value, m) <==> RatOk(m)
  {
    hide KindOf, MessageFits, RatTable, CheckedTag, Present;
    KindsChecked();
    if m.id == 0x0200 {
      RatTables(m.prefix);
      RatChecked(KindOf(m.id).value, m);
    } else if m.id == 0x0203 {
      RatTables(m.prefix);
      RatChecked(KindOf(m.id).value, m);
    } else if m.id == 0x020C {
      RatTables(m.prefix);
      RatChecked(KindOf(m.id).value, m);
    } else {
      NotChecked(m.id);
    }
  }

  /** The same of what has been unpacked. */
  lemma AcceptsRat(m: Message)
    requires KindOf(m.id).Some? && |m.slots| == |KindOf(m.id).value.table|
    ensures KindOf(m.id).value.Accepts(m.prefix, m.slots) <==> RatOk(m)
  {
    hide KindOf, RatTable, CheckedTag;
    KindsChecked();
    if m.id == 0x0200 {
      RatTables(m.prefix);
      RatAccepts(KindOf(m.id).value, m);
    } else if m.id == 0x0203 {
      RatTables(m.prefix);
      RatAccepts(KindOf(m.id).value, m);
    } else if m.id == 0x020C {
      RatTables(m.prefix);
      RatAccepts(KindOf(m.id).value, m);
    } else {
      NotChecked(m.id);
    }
  }

  lemma RatAccepts(k: Kind, m: Message)
    requires |m.slots| == |k.table| && RatTable(k, m.id, m.prefix)
    requires m.id == 0x0200 || m.id == 0x0203 || m.id == 0x020C
    ensures k.Accepts(m.prefix, m.slots) <==> RatOk(m)
  {
    hide CheckedTag;
  }

  /** A packed message is unpacked exactly when its lists are within the limits and its RAT
      type is accepted. */
  lemma AcceptedRats(m: Message)
    requires Fitting(m) && PackMessage(m).Some?
    ensures var k := KindOf(m.id).value;
      Unpack(PackMessage(m).value).Some? <==> CallsWithin(k.table, m.slots, k.Calls(m.prefix)) && RatOk(m)
  {
    RatAcceptedIff(m);
    hide KindOf, RatOk, RatAccepted, Unpack;
    MessageRoundTrip(m);
  }

  // ---- Values -----------------------------------------------------------------------------

  /** A count that is not checked: no list is longer. */
  const NO_LIMIT := 65536

  /** A number of one, two or four bytes, or a list: the bytes of its count, the limits that are
      checked in packing and in unpacking, and the numbers of an element. */
  datatype Part = One | Two | SignedTwo | Four | List(count: nat, packMax: nat, unpackMax: nat, elem: seq<Part>)

  /** The value of the TLV with this tag. */
  function SourceValue(tag: uint16): seq<Part> {
    if tag == 0x3000 then [One, Two, One, Four, List(1, 32, 32, [Two])]
    else if tag == 0x3001 then [One, Two, Four, List(1, 32, 32, [Two])]
    else if tag == 0x3002 then [One, Two, Four, List(1, NO_LIMIT, 32, [Two, One])]
    else if tag == 0x3003 then [List(2, 8, 8, [SignedTwo])]
    else if tag == 0x3004 || tag == 0x3021 then [Two, One, One, Four, List(1, 32, 32, [Two])]
    else if tag == 0x3005 then [Two, One, Four, List(1, 32, 32, [Two])]
    else if tag == 0x3006 then [Four, List(1, 128, 128, [Two])]
    else if tag == 0x3007 || tag == 0x3008 || tag == 0x3022 then [List(2, NO_LIMIT, 8, [Two, One, One, SignedTwo])]
    else if tag == 0x3009 then [List(2, NO_LIMIT, 8, [Two, One, One, One, SignedTwo, Four])]
    else if tag == 0x300B || tag == 0x300C || tag == 0x3015 then [Two, Two, Four]
    else if tag == 0x300E || tag == 0x3024 then [One, List(2, 32, 32, [One]), Four]
    else if tag == 0x300F then [List(2, 32, 32, [One]), Four]
    else if tag == 0x3011 then [Two, Two, Two, One, One, One, Four]
    else if tag == 0x3014 then [Two, Two, Two, One, One, List(1, NO_LIMIT, 8, [One, One]), One, Four]
    else if tag == 0x3016 then [Two, One, Four]
    else if tag == 0x3018 || tag == 0x3026 then [One, List(2, 256, 256, [One])]
    else if tag == 0x3019 || tag == 0x301A then [List(2, 256, 256, [One])]
    else if tag == 0x3020 then [One, Two, Four, List(1, NO_LIMIT, 32, [Two, List(1, NO_LIMIT, 8, [One])])]
    else if tag == 0x3023 then [Two, One, Two, Four]
    else if tag == 0x3025 then [Two, One, Two, One, Four]
    else if tag == 0x3027 then
      [Two, One, Two, List(1, NO_LIMIT, 8, [One, One, One, List(1, NO_LIMIT, NO_LIMIT, [One])]), One, Four]
    else []
  }

  predicate IsPart(f: Format, part: Part, packing: bool)
    decreases part, 0
  {
    match part
    case One => f.U8?
    case Two => f.U16?
    case SignedTwo => f.S16?
    case Four => f.U32?
    case List(count, packMax, unpackMax, elem) =>
      f.Counted? && count == (if f.wide then 2 else 1) && f.max == (if packing then packMax else unpackMax)
      && IsStruct(f.elem, part.elem, packing)
  }

  predicate IsStruct(f: Format, parts: seq<Part>, packing: bool)
    decreases parts, 1
  {
    if parts == [] then false
    else if |parts| == 1 then IsPart(f, parts[0], packing)
    else f.Pair? && IsPart(f.first, parts[0], packing) && IsStruct(f.second, parts[1..], packing)
  }

  /** The format is that of the tag's value; those of 0x300A and 0x3010 are opaque bytes. */
  predicate IsValue(tag: uint16, f: TlvFormat, packing: bool) {
    if tag == 0x300A || tag == 0x3010 then f.Opaque?
    else
      && f.Inline? && |f.fields| == |SourceValue(tag)|
      && forall k :: 0 <= k < |f.fields| ==> IsPart(f.fields[k], SourceValue(tag)[k], packing)
  }

  lemma TwoParts(f: Format, g: Format, a: Part, b: Part, packing: bool)
    requires IsPart(f, a, packing) && IsPart(g, b, packing)
    ensures IsStruct(Fields([f, g]), [a, b], packing)
  {
    assert [f, g][1..] == [g] && [a, b][1..] == [b];
  }

  lemma MoreParts(f: Format, fs: FieldList, a: Part, parts: seq<Part>, packing: bool)
    requires IsPart(f, a, packing) && parts != [] && IsStruct(Fields(fs), parts, packing)
    ensures IsStruct(Fields([f] + fs), [a] + parts, packing)
  {
    assert ([f] + fs)[1..] == fs && ([a] + parts)[1..] == parts;
  }

  lemma MeasureRequestValues()
    ensures IsValue(0x3000, Inline(PackLteRssiRequest()), true)
    ensures IsValue(0x3000, Inline(UnpackLteRssiRequest()), false)
    ensures IsValue(0x3001, Inline(PackUtranRssiRequest()), true)
    ensures IsValue(0x3001, Inline(UnpackUtranRssiRequest()), false)
    ensures IsValue(0x3002, Inline(PackGeranRssiRequest()), true)
    ensures IsValue(0x3002, Inline(UnpackGeranRssiRequest()), false)
  {
  }

  lemma RssiIndicationValue()
    ensures IsValue(0x3003, Inline(PackRssiIndication()), true)
    ensures IsValue(0x3003, Inline(UnpackRssiIndication()), false)
  {
  }

  lemma CellRequestValues()
    ensures IsValue(0x3004, Inline(PackLteCellSearchRequest()), true)
    ensures IsValue(0x3004, Inline(UnpackLteCellSearchRequest()), false)
    ensures IsValue(0x3005, Inline(PackUtranCellSearchRequest()), true)
    ensures IsValue(0x3005, Inline(UnpackUtranCellSearchRequest()), false)
    ensures IsValue(0x3006, Inline(PackGeranCellSearchRequest()), true)
    ensures IsValue(0x3006, Inline(UnpackGeranCellSearchRequest()), false)
    ensures IsValue(0x3021, Inline(PackNbIotCellSearchRequest()), true)
    ensures IsValue(0x3021, Inline(UnpackNbIotCellSearchRequest()), false)
  {
  }

  lemma Cell(packing: bool)
    ensures IsStruct(Fields([U16, U8, U8, S16]), [Two, One, One, SignedTwo], packing)
  {
    TwoParts(U8, S16, One, SignedTwo, packing);
    MoreParts(U8, [U8, S16], One, [One, SignedTwo], packing);
    MoreParts(U16, [U8, U8, S16], Two, [One, One, SignedTwo], packing);
  }

  lemma CellIndicationValues()
    ensures IsValue(0x3007, Inline(PackLteCellSearchIndication()), true)
    ensures IsValue(0x3007, Inline(UnpackLteCellSearchIndication()), false)
    ensures IsValue(0x3008, Inline(PackUtranCellSearchIndication()), true)
    ensures IsValue(0x3008, Inline(UnpackUtranCellSearchIndication()), false)
    ensures IsValue(0x3022, Inline(PackNbIotCellSearchIndication()), true)
    ensures IsValue(0x3022, Inline(UnpackNbIotCellSearchIndication()), false)
  {
    hide Fields, IsStruct;
    Cell(true);
    Cell(false);
  }

  lemma GeranCell(packing: bool)
    ensures IsStruct(Fields([U16, U8, U8, U8, S16, U32]), [Two, One, One, One, SignedTwo, Four], packing)
  {
    TwoParts(S16, U32, SignedTwo, Four, packing);
    MoreParts(U8, [S16, U32], One, [SignedTwo, Four], packing);
    MoreParts(U8, [U8, S16, U32], One, [One, SignedTwo, Four], packing);
    MoreParts(U8, [U8, U8, S16, U32], One, [One, One, SignedTwo, Four], packing);
    MoreParts(U16, [U8, U8, U8, S16, U32], Two, [One, One, One, SignedTwo, Four], packing);
  }

  lemma GeranCellSearchIndicationValue()
    ensures IsValue(0x3009, Inline(PackGeranCellSearchIndication()), true)
    ensures IsValue(0x3009, Inline(UnpackGeranCellSearchIndication()), false)
  {
    hide Fields, IsStruct;
    GeranCell(true);
    GeranCell(false);
  }

  lemma DetectRequestValues()
    ensures IsValue(0x300B, Inline(PackLteBroadcastDetectRequest()), true)
    ensures IsValue(0x300B, Inline(UnpackLteBroadcastDetectRequest()), false)
    ensures IsValue(0x300C, Inline(PackUtranBroadcastDetectRequest()), true)
    ensures IsValue(0x300C, Inline(UnpackUtranBroadcastDetectRequest()), false)
    ensures IsValue(0x3023, Inline(PackNbIotBroadcastDetectRequest()), true)
    ensures IsValue(0x3023, Inline(UnpackNbIotBroadcastDetectRequest()), false)
  {
  }

  lemma DetectIndicationValues()
    ensures IsValue(0x300E, Inline(PackLteBroadcastDetectIndication()), true)
    ensures IsValue(0x300E, Inline(UnpackLteBroadcastDetectIndication()), false)
    ensures IsValue(0x300F, Inline(PackUtranBroadcastDetectIndication()), true)
    ensures IsValue(0x300F, Inline(UnpackUtranBroadcastDetectIndication()), false)
    ensures IsValue(0x3024, Inline(PackNbIotBroadcastDetectIndication()), true)
    ensures IsValue(0x3024, Inline(UnpackNbIotBroadcastDetectIndication()), false)
  {
  }

  lemma LteScheduleRequestValue()
    ensures IsValue(0x3011, Inline(PackLteScheduleRequest()), true)
    ensures IsValue(0x3011, Inline(UnpackLteScheduleRequest()), false)
  {
  }

  lemma LteInformationRequestValue()
    ensures IsValue(0x3014, Inline(PackLteInformationRequest()), true)
    ensures IsValue(0x3014, Inline(UnpackLteInformationRequest()), false)
  {
  }

  lemma ShortRequestValues()
    ensures IsValue(0x3015, Inline(PackUtranInformationRequest()), true)
    ensures IsValue(0x3015, Inline(UnpackUtranInformationRequest()), false)
    ensures IsValue(0x3016, Inline(PackGeranInformationRequest()), true)
    ensures IsValue(0x3016, Inline(UnpackGeranInformationRequest()), false)
    ensures IsValue(0x3025, Inline(PackNbIotScheduleRequest()), true)
    ensures IsValue(0x3025, Inline(UnpackNbIotScheduleRequest()), false)
  {
  }

  lemma InformationIndicationValues()
    ensures IsValue(0x3018, Inline(PackLteInformationIndication()), true)
    ensures IsValue(0x3018, Inline(UnpackLteInformationIndication()), false)
    ensures IsValue(0x3026, Inline(PackNbIotInformationIndication()), true)
    ensures IsValue(0x3026, Inline(UnpackNbIotInformationIndication()), false)
    ensures IsValue(0x3019, Inline(PackUtranInformationIndication()), true)
    ensures IsValue(0x3019, Inline(UnpackUtranInformationIndication()), false)
    ensures IsValue(0x301A, Inline(PackGeranInformationIndication()), true)
    ensures IsValue(0x301A, Inline(UnpackGeranInformationIndication()), false)
  {
  }

  lemma NbIotRssiRequestValue()
    ensures IsValue(0x3020, Inline(PackNbIotRssiRequest()), true)
    ensures IsValue(0x3020, Inline(UnpackNbIotRssiRequest()), false)
  {
    assert IsStruct(U8, [One], true) && IsStruct(U8, [One], false);
    TwoParts(U16, Loop8(U8), Two, List(1, NO_LIMIT, 8, [One]), true);
    TwoParts(U16, List8(8, U8), Two, List(1, NO_LIMIT, 8, [One]), false);
  }

  lemma NbIotPeriod(packing: bool)
    ensures IsStruct(Fields([U8, U8, U8, Loop8(U8)]), [One, One, One, List(1, NO_LIMIT, NO_LIMIT, [One])], packing)
  {
    var list := List(1, NO_LIMIT, NO_LIMIT, [One]);
    assert IsStruct(U8, [One], packing);
    TwoParts(U8, Loop8(U8), One, list, packing);
    MoreParts(U8, [U8, Loop8(U8)], One, [One, list], packing);
    MoreParts(U8, [U8, U8, Loop8(U8)], One, [One, One, list], packing);
  }

  lemma NbIotInformationRequestValue()
    ensures IsValue(0x3027, Inline(PackNbIotInformationRequest()), true)
    ensures IsValue(0x3027, Inline(UnpackNbIotInformationRequest()), false)
  {
    hide Fields, IsStruct;
    NbIotPeriod(true);
    NbIotPeriod(false);
  }

  /** All TLVs of a message, as they are packed and as they are unpacked. */
  ghost predicate SourceValues(k: Layout) {
    && (forall i :: 0 <= i < |k.table| ==> IsValue(k.table[i].tag, k.table[i].format, false))
    && (forall rat :: rat in k.byRat ==> IsValue(k.byRat[rat].tag, k.byRat[rat].format, true))
    && (forall j :: 0 <= j < |k.always| ==> IsValue(k.always[j].tag, k.always[j].format, true))
  }

  lemma RssiRequestValues()
    ensures SourceValues(RSSI_REQUEST)
  {
    hide IsValue;
    MeasureRequestValues();
    NbIotRssiRequestValue();
  }

  lemma RssiIndicationValues()
    ensures SourceValues(RSSI_INDICATION)
  {
    hide IsValue;
    RssiIndicationValue();
  }

  lemma CellSearchRequestValues()
    ensures SourceValues(CELL_SEARCH_REQUEST)
  {
    hide IsValue;
    CellRequestValues();
  }

  lemma CellSearchIndicationValues()
    ensures SourceValues(CELL_SEARCH_INDICATION)
  {
    hide IsValue;
    CellIndicationValues();
    GeranCellSearchIndicationValue();
    OpaqueValues();
  }

  lemma BroadcastDetectRequestValues()
    ensures SourceValues(BROADCAST_DETECT_REQUEST)
  {
    hide IsValue;
    DetectRequestValues();
    OpaqueValues();
  }

  lemma BroadcastDetectIndicationValues()
    ensures SourceValues(BROADCAST_DETECT_INDICATION)
  {
    hide IsValue;
    DetectIndicationValues();
    OpaqueValues();
  }

  lemma ScheduleRequestValues()
    ensures SourceValues(SCHEDULE_REQUEST)
  {
    hide IsValue;
    LteScheduleRequestValue();
    ShortRequestValues();
    OpaqueValues();
  }

  lemma ScheduleIndicationValues()
    ensures SourceValues(SCHEDULE_INDICATION)
  {
    hide IsValue;
    InformationIndicationValues();
  }

  lemma SystemInformationRequestValues()
    ensures SourceValues(SYSTEM_INFORMATION_REQUEST)
  {
    hide IsValue;
    LteInformationRequestValue();
    ShortRequestValues();
    NbIotInformationRequestValue();
    OpaqueValues();
  }

  lemma SystemInformationIndicationValues()
    ensures SourceValues(SYSTEM_INFORMATION_INDICATION)
  {
    hide IsValue;
    InformationIndicationValues();
  }

  lemma OpaqueValues()
    ensures forall packing :: IsValue(0x300A, Opaque, packing) && IsValue(0x3010, Opaque, packing)
  {
  }

  /** The values of the TLVs of all seventeen messages: their numbers in order, and the limits of
      their lists. */
  lemma AllValues(id: uint16)
    requires KindOf(id).Some?
    ensures SourceValues(KindOf(id).value)
  {
    hide SourceValues, Layout.Valid;
    if id == 0x0200 {
      RssiRequestValues();
    } else if id == 0x0202 {
      RssiIndicationValues();
    } else if id == 0x0203 {
      CellSearchRequestValues();
    } else if id == 0x0205 {
      CellSearchIndicationValues();
    } else if id == 0x0206 {
      BroadcastDetectRequestValues();
    } else if id == 0x0208 {
      BroadcastDetectIndicationValues();
    } else if id == 0x0209 {
      ScheduleRequestValues();
    } else if id == 0x020B {
      ScheduleIndicationValues();
    } else if id == 0x020C {
      SystemInformationRequestValues();
    } else if id == 0x020E {
      SystemInformationIndicationValues();
    } else {
      NoValues();
    }
  }

  lemma NoValues()
    ensures SourceValues(RESPONSE) && SourceValues(STOP_REQUEST)
  {
  }
}
