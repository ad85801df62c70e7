/** The seventeen P4 message kinds of open-nFAPI/nfapi/src/nfapi_p4.c: for each, the pack_tlv
    calls of its pack function, in order, and the table and the final check of its unpack
    function. Vendor extensions are taken to be absent. */
module P4Kinds {
  import opened Wrappers
  import opened Words
  import opened Formats
  import opened Tlv
  import opened P4Values

  /** What stands between the header and the TLVs. */
  datatype Prefix = NoPrefix | RatType | ErrorCode

  const LTE := 0
  const UTRAN := 1
  const GERAN := 2
  const NB_IOT := 3

  /** A message kind. Its pack function makes the call that the switch on the RAT type picks, if
      there is one, and then the others; its unpack function has a table, and for some kinds it
      then checks that the row for the RAT type was found. */
  datatype Layout = Layout(prefix: Prefix, byRat: map<nat, Call>, always: seq<Call>,
                           table: seq<Entry>, accepted: Option<map<nat, nat>>)
  {
    function Calls(prefixValue: nat): seq<Call> {
      (if prefix.RatType? && prefixValue in byRat then [byRat[prefixValue]] else []) + always
    }

    /** Packing and unpacking belong together: tags, slots and fields agree, and a RAT
        type that is accepted is one that packing knows. */
    ghost predicate Valid() {
      && DistinctTags(table)
      && (forall i :: 0 <= i < |table| ==> table[i].tag != 0)
      && CallsMatch(table, always)
      && (forall rat :: rat in byRat ==>
        Matches(table, byRat[rat]) && forall k :: 0 <= k < |always| ==> always[k].at != byRat[rat].at)
      && (accepted.Some? ==>
        && prefix.RatType?
        && forall rat :: rat in accepted.value ==> rat in byRat && byRat[rat].at == accepted.value[rat])
    }

    /** The check that the RAT type and the TLV match. */
    predicate Accepts(prefixValue: nat, slots: seq<Slot>)
      requires |slots| == |table| && Valid()
    {
      accepted.Some? ==>
        && prefixValue in accepted.value
        && slots[accepted.value[prefixValue]].tag == table[accepted.value[prefixValue]].tag
    }
  }

  type Kind = k: Layout | k.Valid() ghost witness Layout(NoPrefix, map[], [], [], None)

  /** A pack_tlv call with this pack function, and a table row with this unpack function. */
  function CallOf(tag: uint16, at: nat, fields: FieldList): Call { Call(tag, at, Inline(fields)) }
  function Row(tag: uint16, fields: FieldList): Entry { Entry(tag, Inline(fields)) }

  const RESPONSE: Layout := Layout(ErrorCode, map[], [], [], None)

  const RSSI_REQUEST: Layout := Layout(
    RatType,
    map[LTE := CallOf(0x3000, 0, PackLteRssiRequest()), UTRAN := CallOf(0x3001, 1, PackUtranRssiRequest()),
        GERAN := CallOf(0x3002, 2, PackGeranRssiRequest()), NB_IOT := CallOf(0x3020, 3, PackNbIotRssiRequest())],
    [],
    [Row(0x3000, UnpackLteRssiRequest()), Row(0x3001, UnpackUtranRssiRequest()),
     Row(0x3002, UnpackGeranRssiRequest()), Row(0x3020, UnpackNbIotRssiRequest())],
    Some(map[LTE := 0, UTRAN := 1, GERAN := 2, NB_IOT := 3]))

  const RSSI_INDICATION: Layout := Layout(
    ErrorCode, map[], [CallOf(0x3003, 0, PackRssiIndication())], [Row(0x3003, UnpackRssiIndication())], None)

  const CELL_SEARCH_REQUEST: Layout := Layout(
    RatType,
    map[LTE := CallOf(0x3004, 0, PackLteCellSearchRequest()),
        UTRAN := CallOf(0x3005, 1, PackUtranCellSearchRequest()),
        GERAN := CallOf(0x3006, 2, PackGeranCellSearchRequest()),
        NB_IOT := CallOf(0x3021, 3, PackNbIotCellSearchRequest())],
    [],
    [Row(0x3004, UnpackLteCellSearchRequest()), Row(0x3005, UnpackUtranCellSearchRequest()),
     Row(0x3006, UnpackGeranCellSearchRequest()), Row(0x3021, UnpackNbIotCellSearchRequest())],
    Some(map[LTE := 0, UTRAN := 1, GERAN := 2, NB_IOT := 3]))

  const CELL_SEARCH_INDICATION: Layout := Layout(
    ErrorCode, map[],
    [CallOf(0x3007, 0, PackLteCellSearchIndication()), CallOf(0x3008, 1, PackUtranCellSearchIndication()),
     CallOf(0x3009, 2, PackGeranCellSearchIndication()), Call(0x300A, 3, Opaque),
     CallOf(0x3022, 4, PackNbIotCellSearchIndication())],
    [Row(0x3007, UnpackLteCellSearchIndication()), Row(0x3008, UnpackUtranCellSearchIndication()),
     Row(0x3009, UnpackGeranCellSearchIndication()), Entry(0x300A, Opaque),
     Row(0x3022, UnpackNbIotCellSearchIndication())],
    None)

  const BROADCAST_DETECT_REQUEST: Layout := Layout(
    RatType,
    map[LTE := CallOf(0x300B, 0, PackLteBroadcastDetectRequest()),
        UTRAN := CallOf(0x300C, 1, PackUtranBroadcastDetectRequest()),
        NB_IOT := CallOf(0x3023, 3, PackNbIotBroadcastDetectRequest())],
    [Call(0x300A, 2, Opaque)],
    [Row(0x300B, UnpackLteBroadcastDetectRequest()), Row(0x300C, UnpackUtranBroadcastDetectRequest()),
     Entry(0x300A, Opaque), Row(0x3023, UnpackNbIotBroadcastDetectRequest())],
    None)

  const BROADCAST_DETECT_INDICATION: Layout := Layout(
    ErrorCode, map[],
    [CallOf(0x300E, 0, PackLteBroadcastDetectIndication()), CallOf(0x300F, 1, PackUtranBroadcastDetectIndication()),
     Call(0x3010, 3, Opaque), CallOf(0x3024, 2, PackNbIotBroadcastDetectIndication())],
    [Row(0x300E, UnpackLteBroadcastDetectIndication()), Row(0x300F, UnpackUtranBroadcastDetectIndication()),
     Row(0x3024, UnpackNbIotBroadcastDetectIndication()), Entry(0x3010, Opaque)],
    None)

  const SCHEDULE_REQUEST: Layout := Layout(
    RatType,
    map[LTE := CallOf(0x3011, 0, PackLteScheduleRequest()), NB_IOT := CallOf(0x3025, 1, PackNbIotScheduleRequest())],
    [Call(0x3010, 2, Opaque)],
    [Row(0x3011, UnpackLteScheduleRequest()), Row(0x3025, UnpackNbIotScheduleRequest()), Entry(0x3010, Opaque)],
    None)

  const SCHEDULE_INDICATION: Layout := Layout(
    ErrorCode, map[],
    [CallOf(0x3018, 0, PackLteInformationIndication()), CallOf(0x3026, 1, PackNbIotInformationIndication())],
    [Row(0x3018, UnpackLteInformationIndication()), Row(0x3026, UnpackNbIotInformationIndication())],
    None)

  /** Packing knows four RAT types, and the check in unpacking three. */
  const SYSTEM_INFORMATION_REQUEST: Layout := Layout(
    RatType,
    map[LTE := CallOf(0x3014, 0, PackLteInformationRequest()),
        UTRAN := CallOf(0x3015, 1, PackUtranInformationRequest()),
        GERAN := CallOf(0x3016, 2, PackGeranInformationRequest()),
        NB_IOT := CallOf(0x3027, 3, PackNbIotInformationRequest())],
    [Call(0x3010, 4, Opaque)],
    [Row(0x3014, UnpackLteInformationRequest()), Row(0x3015, UnpackUtranInformationRequest()),
     Row(0x3016, UnpackGeranInformationRequest()), Row(0x3027, UnpackNbIotInformationRequest()),
     Entry(0x3010, Opaque)],
    Some(map[LTE := 0, UTRAN := 1, GERAN := 2]))

  const SYSTEM_INFORMATION_INDICATION: Layout := Layout(
    ErrorCode, map[],
    [CallOf(0x3018, 0, PackLteInformationIndication()), CallOf(0x3019, 1, PackUtranInformationIndication()),
     CallOf(0x301A, 2, PackGeranInformationIndication()), CallOf(0x3026, 3, PackNbIotInformationIndication())],
    [Row(0x3018, UnpackLteInformationIndication()), Row(0x3019, UnpackUtranInformationIndication()),
     Row(0x301A, UnpackGeranInformationIndication()), Row(0x3026, UnpackNbIotInformationIndication())],
    None)

  const STOP_REQUEST: Layout := Layout(NoPrefix, map[], [], [], None)

  // ---- The functions of each kind belong together -----------------------------------------

  lemma RssiRequestValid()
    ensures RSSI_REQUEST.Valid()
  {
    hide ListsAgree;
    RssiRequestFormats();
  }

  lemma RssiIndicationValid()
    ensures RSSI_INDICATION.Valid()
  {
    hide ListsAgree;
    RssiIndicationFormats();
  }

  lemma CellSearchRequestValid()
    ensures CELL_SEARCH_REQUEST.Valid()
  {
    hide ListsAgree;
    CellSearchRequestFormats();
  }

  lemma CellSearchIndicationValid()
    ensures CELL_SEARCH_INDICATION.Valid()
  {
    hide ListsAgree;
    CellSearchIndicationFormats();
  }

  lemma BroadcastDetectRequestValid()
    ensures BROADCAST_DETECT_REQUEST.Valid()
  {
    hide ListsAgree;
    BroadcastDetectRequestFormats();
  }

  lemma BroadcastDetectIndicationValid()
    ensures BROADCAST_DETECT_INDICATION.Valid()
  {
    hide ListsAgree;
    BroadcastDetectIndicationFormats();
  }

  lemma ScheduleRequestValid()
    ensures SCHEDULE_REQUEST.Valid()
  {
    hide ListsAgree;
    ScheduleRequestFormats();
  }

  lemma ScheduleIndicationValid()
    ensures SCHEDULE_INDICATION.Valid()
  {
    hide ListsAgree;
    ScheduleIndicationFormats();
  }

  lemma SystemInformationRequestValid()
    ensures SYSTEM_INFORMATION_REQUEST.Valid()
  {
    hide ListsAgree;
    SystemInformationRequestFormats();
  }

  lemma SystemInformationIndicationValid()
    ensures SYSTEM_INFORMATION_INDICATION.Valid()
  {
    hide ListsAgree;
    ScheduleIndicationFormats();
    SystemInformationIndicationFormats();
  }

  lemma StopRequestValid()
    ensures STOP_REQUEST.Valid()
  {
  }

  lemma ResponseValid()
    ensures RESPONSE.Valid()
  {
  }

  /** The kinds of the message ids NFAPI_RSSI_REQUEST to NFAPI_NMM_STOP_RESPONSE. */
  function KindOf(id: uint16): (k: Option<Kind>)
    ensures k.Some? <==> 0x0200 <= id <= 0x0210
    ensures k.Some? ==> k.value.Valid()
  {
    if id == 0x0200 then
      RssiRequestValid();
      Some(RSSI_REQUEST)
    else if id == 0x0202 then
      RssiIndicationValid();
      Some(RSSI_INDICATION)
    else if id == 0x0203 then
      CellSearchRequestValid();
      Some(CELL_SEARCH_REQUEST)
    else if id == 0x0205 then
      CellSearchIndicationValid();
      Some(CELL_SEARCH_INDICATION)
    else if id == 0x0206 then
      BroadcastDetectRequestValid();
      Some(BROADCAST_DETECT_REQUEST)
    else if id == 0x0208 then
      BroadcastDetectIndicationValid();
      Some(BROADCAST_DETECT_INDICATION)
    else if id == 0x0209 then
      ScheduleRequestValid();
      Some(SCHEDULE_REQUEST)
    else if id == 0x020B then
      ScheduleIndicationValid();
      Some(SCHEDULE_INDICATION)
    else if id == 0x020C then
      SystemInformationRequestValid();
      Some(SYSTEM_INFORMATION_REQUEST)
    else if id == 0x020E then
      SystemInformationIndicationValid();
      Some(SYSTEM_INFORMATION_INDICATION)
    else if id == 0x020F then
      StopRequestValid();
      Some(STOP_REQUEST)
    else if id == 0x0201 || id == 0x0204 || id == 0x0207 || id == 0x020A || id == 0x020D || id == 0x0210 then
      ResponseValid();
      Some(RESPONSE)
    else None
  }
}
