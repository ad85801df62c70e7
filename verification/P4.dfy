/** The P4 messages: what nfapi_p4_message_pack writes and what nfapi_p4_message_unpack of
    open-nFAPI/nfapi/src/nfapi_p4.c makes of any bytes. */
module P4 {
  import opened Wrappers
  import opened Words
  import opened Cursors
  import opened Formats
  import opened Tlv
  import opened P4Values
  import opened P4Kinds

  const HEADER_LENGTH := 8

  // ---- Messages ---------------------------------------------------------------------------

  /** prefix is the RAT type or the error code, and 0 where there is neither. */
  datatype Message = Message(phyId: uint16, id: uint16, length: uint16, spare: uint16, prefix: nat, slots: seq<Slot>)

  ghost predicate PrefixFits(p: Prefix, n: nat) {
    match p
    case NoPrefix => n == 0
    case RatType => n < 0x100
    case ErrorCode => n < 0x1_0000_0000
  }

  ghost predicate MessageFits(k: Kind, m: Message) {
    PrefixFits(k.prefix, m.prefix) && SlotsFit(k.table, m.slots)
  }

  ghost function PrefixBytes(p: Prefix, n: nat): seq<byte>
    requires PrefixFits(p, n)
  {
    match p
    case NoPrefix => []
    case RatType => [n]
    case ErrorCode => Bytes32(n)
  }

  function MessageHeader(m: Message, length: uint16): seq<byte> {
    Bytes16(m.phyId) + Bytes16(m.id) + Bytes16(length) + Bytes16(m.spare)
  }

  lemma KindCalls(k: Kind, n: nat)
    ensures CallsMatch(k.table, k.Calls(n))
  {
  }

  /** What is packed after the header. */
  ghost function Content(k: Kind, m: Message): Option<seq<byte>>
    requires MessageFits(k, m)
  {
    KindCalls(k, m.prefix);
    Append(Some(PrefixBytes(k.prefix, m.prefix)), PackList(false, k.table, m.slots, k.Calls(m.prefix)))
  }

  /** The bytes of a message of this kind. */
  ghost function Pack(k: Kind, m: Message): Option<seq<byte>>
    requires MessageFits(k, m)
  {
    var content := Content(k, m);
    if content.None? || HEADER_LENGTH + |content.value| > 0xFFFF then None
    else Some(MessageHeader(m, HEADER_LENGTH + |content.value|) + content.value)
  }

  /** The message fits its kind, if its id has one. */
  ghost predicate Fitting(m: Message) {
    KindOf(m.id).Some? ==> MessageFits(KindOf(m.id).value, m)
  }

  /** nfapi_p4_message_pack, given room. */
  ghost function PackMessage(m: Message): Option<seq<byte>>
    requires Fitting(m)
  {
    if KindOf(m.id).None? then None else Pack(KindOf(m.id).value, m)
  }

  /** The slots of a message that has been blanked by memset. */
  function Blank(table: seq<Entry>): (slots: seq<Slot>)
    ensures |slots| == |table|
    ensures forall i :: 0 <= i < |table| ==> slots[i] == Slot(0, 0, ZeroBody(table[i].format))
  {
    seq(|table|, i requires 0 <= i < |table| => Slot(0, 0, ZeroBody(table[i].format)))
  }

  ghost function PrefixOf(p: Prefix, s: seq<byte>): Option<(nat, seq<byte>)> {
    match p
    case NoPrefix => Some((0, s))
    case RatType => if |s| >= 1 then Some((s[0] as nat, s[1..])) else None
    case ErrorCode => if |s| >= 4 then Some((Number32(s) as nat, s[4..])) else None
  }

  /** What is unpacked after the header. */
  ghost function UnpackContent(k: Kind, s: seq<byte>): Option<(nat, seq<Slot>)>
  {
    var p := PrefixOf(k.prefix, s);
    if p.None? then None
    else
      match Parse(false, k.table, Blank(k.table), 0, p.value.1)
      case Parsed(slots) =>
        if |slots| == |k.table| && k.Accepts(p.value.0, slots) then Some((p.value.0, slots)) else None
      case _ => None
  }

  /** nfapi_p4_message_unpack, into a buffer that is large enough for the message. */
  ghost function Unpack(s: seq<byte>): Option<Message> {
    if |s| < HEADER_LENGTH then None
    else
      var id := Number16(s[2..]);
      if KindOf(id).None? then None
      else
        var r := UnpackContent(KindOf(id).value, s[8..]);
        if r.None? then None
        else Some(Message(Number16(s), id, Number16(s[4..]), Number16(s[6..]), r.value.0, r.value.1))
  }

  // ---- Round trip -------------------------------------------------------------------------

  /** The message can be received: every list that is sent is within its limit, and where the
      RAT type is checked it is one that is accepted, with its TLV present. */
  ghost predicate Deliverable(k: Kind, m: Message)
    requires MessageFits(k, m)
  {
    && CallsWithin(k.table, m.slots, k.Calls(m.prefix))
    && RatAccepted(k, m)
  }

  ghost predicate RatAccepted(k: Kind, m: Message)
    requires MessageFits(k, m)
  {
    k.accepted.Some? ==> m.prefix in k.accepted.value && Present(k.table, m.slots, k.accepted.value[m.prefix])
  }

  /** What the receiver gets in the slots: those sent, and the others blank. */
  ghost predicate Received(k: Kind, m: Message, slots: seq<Slot>)
    requires MessageFits(k, m)
  {
    KindCalls(k, m.prefix);
    Delivered(k.table, m.slots, k.Calls(m.prefix), Blank(k.table), slots)
  }

  lemma PrefixRoundTrip(p: Prefix, n: nat, rest: seq<byte>)
    requires PrefixFits(p, n)
    ensures PrefixOf(p, PrefixBytes(p, n) + rest) == Some((n, rest))
  {
    match p
    case NoPrefix => assert [] + rest == rest;
    case RatType => assert ([n as byte] + rest)[1..] == rest;
    case ErrorCode => Number32Bytes(n, rest);
  }

  /** A row that the RAT type picks is accepted exactly when its TLV was present. */
  lemma AcceptsWhenPresent(k: Kind, m: Message, got: seq<Slot>)
    requires MessageFits(k, m) && |got| == |k.table| && Received(k, m, got)
    ensures k.Accepts(m.prefix, got) <==> RatAccepted(k, m)
  {
    if k.accepted.Some? && m.prefix in k.accepted.value {
      var calls, i := k.Calls(m.prefix), k.accepted.value[m.prefix];
      KindCalls(k, m.prefix);
      assert calls[0] == k.byRat[m.prefix] && calls[0].at == i;
      assert Called(calls, i) && Got(k.table, m.slots, calls[0], got);
    }
  }

  lemma ContentRoundTrip(k: Kind, m: Message)
    requires MessageFits(k, m) && Content(k, m).Some?
    ensures var r := UnpackContent(k, Content(k, m).value);
      && (r.Some? <==> Deliverable(k, m))
      && (r.Some? ==> r.value.0 == m.prefix && Received(k, m, r.value.1))
  {
    KindCalls(k, m.prefix);
    var tlvs := PackList(false, k.table, m.slots, k.Calls(m.prefix)).value;
    PrefixRoundTrip(k.prefix, m.prefix, tlvs);
    ParsePacked(false, k.table, m.slots, k.Calls(m.prefix), Blank(k.table));
    if CallsWithin(k.table, m.slots, k.Calls(m.prefix)) {
      AcceptsWhenPresent(k, m, Parse(false, k.table, Blank(k.table), 0, tlvs).slots);
    }
  }

  lemma HeaderParts(m: Message, length: uint16, content: seq<byte>)
    ensures var s := MessageHeader(m, length) + content;
      && |s| == HEADER_LENGTH + |content| && s[8..] == content
      && Number16(s) == m.phyId && Number16(s[2..]) == m.id && Number16(s[4..]) == length && Number16(s[6..]) == m.spare
  {
    var s := MessageHeader(m, length) + content;
    assert s[0..2] == Bytes16(m.phyId) && s[2..4] == Bytes16(m.id);
    assert s[4..6] == Bytes16(length) && s[6..8] == Bytes16(m.spare);
  }

  /** The header comes back, with the length that was filled in. */
  lemma HeaderRoundTrip(k: Kind, m: Message, length: uint16, content: seq<byte>)
    requires KindOf(m.id) == Some(k)
    ensures var s, r := MessageHeader(m, length) + content, UnpackContent(k, content);
      Unpack(s) == if r.None? then None else Some(m.(length := length, prefix := r.value.0, slots := r.value.1))
  {
    HeaderParts(m, length, content);
  }

  /** Unpacking a packed message gives it back exactly when it is deliverable, and fails
      otherwise. The length field is the number of bytes packed; the slots that were sent have
      their lengths filled in, and those that were not are blank. */
  lemma MessageRoundTrip(m: Message)
    requires KindOf(m.id).Some? && MessageFits(KindOf(m.id).value, m)
    requires Pack(KindOf(m.id).value, m).Some?
    ensures var k := KindOf(m.id).value;
      var s := Pack(k, m).value;
      && (Unpack(s).Some? <==> Deliverable(k, m))
      && (Unpack(s).Some? ==>
          var r := Unpack(s).value;
          r == m.(length := |s|, slots := r.slots) && Received(k, m, r.slots))
  {
    hide KindOf, PackList, Parse, Layout.Valid, UnpackContent;
    var k := KindOf(m.id).value;
    var content := Content(k, m).value;
    HeaderParts(m, HEADER_LENGTH + |content|, content);
    HeaderRoundTrip(k, m, HEADER_LENGTH + |content|, content);
    ContentRoundTrip(k, m);
  }

  /** Such a message, whose slots say exactly what is received, comes back as it was sent, but
      for its length field. */
  lemma ExactRoundTrip(m: Message)
    requires KindOf(m.id).Some? && MessageFits(KindOf(m.id).value, m)
    requires Pack(KindOf(m.id).value, m).Some?
    requires Received(KindOf(m.id).value, m, m.slots) && Deliverable(KindOf(m.id).value, m)
    ensures Unpack(Pack(KindOf(m.id).value, m).value) == Some(m.(length := |Pack(KindOf(m.id).value, m).value|))
  {
    MessageRoundTrip(m);
    var k := KindOf(m.id).value;
    KindCalls(k, m.prefix);
    DeliveredOnce(k.table, m.slots, k.Calls(m.prefix), Blank(k.table), m.slots,
                  Unpack(Pack(k, m).value).value.slots);
  }

  /** The code packs an NB-IoT system information request, and never unpacks one. */
  lemma NbIotRequestRefused(m: Message)
    requires m.id == 0x020C && m.prefix == NB_IOT
    ensures KindOf(m.id).Some?
    ensures MessageFits(KindOf(m.id).value, m) ==>
      var s := Pack(KindOf(m.id).value, m);
      s.Some? ==> Unpack(s.value) == None
  {
    var k := KindOf(m.id).value;
    assert k == SYSTEM_INFORMATION_REQUEST;
    NbIotNotAccepted();
    if MessageFits(k, m) && Pack(k, m).Some? {
      MessageRoundTrip(m);
    }
  }

  lemma NbIotNotAccepted()
    ensures SYSTEM_INFORMATION_REQUEST.accepted.Some? && NB_IOT !in SYSTEM_INFORMATION_REQUEST.accepted.value
  {
  }

  /** Every value that an unpack function accepts, packing the same TLV turns back
      into the same bytes. */
  lemma ValuesReencode(k: Kind, call: Call, s: seq<byte>)
    requires call in k.byRat.Values || call in k.always
    requires call.format.Inline?
    ensures call.at < |k.table| && k.table[call.at].format.Inline?
    ensures var u := Fields(k.table[call.at].format.fields);
      Decode(u, s).Some? ==>
        var (v, rest) := Decode(u, s).value;
        Within(u, v) && Reencodes(Fields(call.format.fields), v, s, rest)
  {
    assert Matches(k.table, call);
    FieldsAgree(call.format.fields, k.table[call.at].format.fields);
    var u := Fields(k.table[call.at].format.fields);
    if Decode(u, s).Some? {
      EncodeDecode(Fields(call.format.fields), u, s);
    }
  }

  // ---- A list that is too long ------------------------------------------------------------

  function LteCell(): Format { Fields([U16, U8, U8, S16]) }

  lemma LteCellBytes()
    ensures Encode(LteCell(), Zero(LteCell())).Some? && |Encode(LteCell(), Zero(LteCell())).value| == 6
  {
    var tail: FieldList := [U8, S16];
    assert Fields(tail) == Pair(U8, S16);
    assert [U8, U8, S16][1..] == tail && Fields([U8, U8, S16]) == Pair(U8, Pair(U8, S16));
    assert [U16, U8, U8, S16][1..] == [U8, U8, S16];
  }

  function LteCells(n: nat): (cells: seq<Value>)
    ensures |cells| == n && AllFit(LteCell(), cells) && AllWithin(LteCell(), cells)
  {
    seq(n, _ => Zero(LteCell()))
  }

  lemma {:induction false} LteCellsBytes(n: nat)
    ensures EncodeItems(LteCell(), LteCells(n)).Some? && |EncodeItems(LteCell(), LteCells(n)).value| == 6 * n
  {
    if n > 0 {
      assert LteCells(n)[1..] == LteCells(n - 1);
      LteCellsBytes(n - 1);
      LteCellBytes();
    }
  }

  /** The TLV body of n LTE cells: packing does not check their number, unpacking does. */
  lemma LteCellsBody(n: nat)
    requires n < 0x1_0000
    ensures var p, u := Inline(PackLteCellSearchIndication()), Inline(UnpackLteCellSearchIndication());
      var v := Items(LteCells(n));
      && FitsBody(p, v) && FitsBody(u, v)
      && EncodeBody(p, v).Some? && |EncodeBody(p, v).value| == 2 + 6 * n
      && (WithinBody(u, v) <==> n <= MAX_LTE_CELLS_FOUND)
  {
    LteCellsBytes(n);
  }

  lemma {:induction false} PackAbsent(table: seq<Entry>, slots: seq<Slot>, calls: seq<Call>)
    requires SlotsFit(table, slots) && CallsMatch(table, calls)
    requires forall k :: 0 <= k < |calls| ==> slots[calls[k].at].tag != calls[k].tag
    ensures PackList(false, table, slots, calls) == Some([])
    decreases |calls|
  {
    if calls != [] {
      CallFits(table, slots, calls[0]);
      PackAbsent(table, slots, calls[1..]);
      AppendNothing(PackList(false, table, slots, calls[1..]));
    }
  }

  /** Packing where only the first call's slot is present. */
  lemma PackFirst(table: seq<Entry>, slots: seq<Slot>, calls: seq<Call>)
    requires SlotsFit(table, slots) && CallsMatch(table, calls) && calls != []
    requires slots[calls[0].at].tag == calls[0].tag
    requires forall k :: 1 <= k < |calls| ==> slots[calls[k].at].tag != calls[k].tag
    ensures FitsBody(calls[0].format, slots[calls[0].at].value)
    ensures var body := EncodeBody(calls[0].format, slots[calls[0].at].value);
      var all := PackList(false, table, slots, calls);
      body.Some? ==> all.Some? && |all.value| == 4 + |body.value|
    ensures CallsWithin(table, slots, calls) <==> PresentWithin(table, slots, calls[0].at)
  {
    CallFits(table, slots, calls[0]);
    PackAbsent(table, slots, calls[1..]);
    assert forall k :: 0 <= k < |calls| ==> Matches(table, calls[k]);
  }

  /** A cell search indication with n LTE cells and nothing else. */
  function CellSearch(n: nat): Message {
    var table := CELL_SEARCH_INDICATION.table;
    Message(0, 0x0205, 0, 0, 0, Blank(table)[0 := Slot(0x3007, 0, Items(LteCells(n)))])
  }

  lemma CellSearchFits(n: nat)
    requires n < 0x1_0000
    ensures KindOf(0x0205) == Some(CELL_SEARCH_INDICATION) && MessageFits(KindOf(0x0205).value, CellSearch(n))
  {
    hide FitsBody;
    CellSearchIndicationValid();
    LteCellsBody(n);
    var table, slots := CELL_SEARCH_INDICATION.table, CellSearch(n).slots;
    forall i | 0 <= i < |table|
      ensures SlotFits(table[i].tag, table[i].format, slots[i])
    {
      assert i > 0 ==> slots[i].tag == 0;
    }
  }

  /** Such a message is packed up to 10919 cells, and unpacked up to eight. */
  lemma CellSearchRefused(n: nat)
    requires n < 0x1_0000
    ensures KindOf(0x0205).Some? && MessageFits(KindOf(0x0205).value, CellSearch(n))
    ensures var s := Pack(KindOf(0x0205).value, CellSearch(n));
      && (s.Some? <==> n <= 10919)
      && (s.Some? ==> (Unpack(s.value).Some? <==> n <= MAX_LTE_CELLS_FOUND))
  {
    hide KindOf, PackList, Unpack, EncodeBody, FitsBody, WithinBody;
    CellSearchFits(n);
    LteCellsBody(n);
    var m, k := CellSearch(n), KindOf(0x0205).value;
    KindCalls(k, 0);
    PackFirst(k.table, m.slots, k.Calls(0));
    if Pack(k, m).Some? {
      MessageRoundTrip(m);
    }
  }
}
