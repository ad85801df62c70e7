/** The TLV values of the P4 messages: for each TLV, the numbers that its pack function in
    open-nFAPI/nfapi/src/nfapi_p4.c pushes and those that its unpack function pulls. */
module P4Values {
  import opened Formats

  const MAX_RSSI := 8
  const MAX_PSC_LIST := 32
  const MAX_PCI_LIST := 32
  const MAX_CARRIER_LIST := 32
  const MAX_ARFCN_LIST := 128
  const MAX_LTE_CELLS_FOUND := 8
  const MAX_UTRAN_CELLS_FOUND := 8
  const MAX_GSM_CELLS_FOUND := 8
  const MAX_NB_IOT_CELLS_FOUND := 8
  const MAX_SI_PERIODICITY := 8
  const MAX_MIB_LENGTH := 32
  const MAX_SIB_LENGTH := 256
  const MAX_SI_LENGTH := 256
  const MAX_RO_DL := 8

  /** A count of one or two bytes, and a list whose count is checked: by pusharray when it is
      packed, and by the if or by pullarray when it is unpacked. */
  function List8(max: nat, elem: Format): Format { Counted(false, max, elem) }
  function List16(max: nat, elem: Format): Format { Counted(true, max, elem) }

  /** A list that a loop packs or unpacks without checking the count. */
  function Loop8(elem: Format): Format { Counted(false, UNCHECKED, elem) }
  function Loop16(elem: Format): Format { Counted(true, UNCHECKED, elem) }

  // What is packed

  function PackLteRssiRequest(): FieldList { [U8, U16, U8, U32, List8(MAX_CARRIER_LIST, U16)] }
  function PackUtranRssiRequest(): FieldList { [U8, U16, U32, List8(MAX_CARRIER_LIST, U16)] }
  function PackGeranRssiRequest(): FieldList { [U8, U16, U32, Loop8(Fields([U16, U8]))] }
  function PackNbIotRssiRequest(): FieldList { [U8, U16, U32, Loop8(Fields([U16, Loop8(U8)]))] }
  function PackRssiIndication(): FieldList { [List16(MAX_RSSI, S16)] }
  function PackLteCellSearchRequest(): FieldList { [U16, U8, U8, U32, List8(MAX_PCI_LIST, U16)] }
  function PackUtranCellSearchRequest(): FieldList { [U16, U8, U32, List8(MAX_PSC_LIST, U16)] }
  function PackGeranCellSearchRequest(): FieldList { [U32, List8(MAX_ARFCN_LIST, U16)] }
  function PackNbIotCellSearchRequest(): FieldList { [U16, U8, U8, U32, List8(MAX_PCI_LIST, U16)] }
  function PackLteCellSearchIndication(): FieldList { [Loop16(Fields([U16, U8, U8, S16]))] }
  function PackUtranCellSearchIndication(): FieldList { [Loop16(Fields([U16, U8, U8, S16]))] }
  function PackGeranCellSearchIndication(): FieldList { [Loop16(Fields([U16, U8, U8, U8, S16, U32]))] }
  function PackNbIotCellSearchIndication(): FieldList { [Loop16(Fields([U16, U8, U8, S16]))] }
  function PackLteBroadcastDetectRequest(): FieldList { [U16, U16, U32] }
  function PackUtranBroadcastDetectRequest(): FieldList { [U16, U16, U32] }
  function PackNbIotBroadcastDetectRequest(): FieldList { [U16, U8, U16, U32] }
  function PackLteBroadcastDetectIndication(): FieldList { [U8, List16(MAX_MIB_LENGTH, U8), U32] }
  function PackUtranBroadcastDetectIndication(): FieldList { [List16(MAX_MIB_LENGTH, U8), U32] }
  function PackNbIotBroadcastDetectIndication(): FieldList { [U8, List16(MAX_MIB_LENGTH, U8), U32] }
  function PackLteScheduleRequest(): FieldList { [U16, U16, U16, U8, U8, U8, U32] }
  function PackNbIotScheduleRequest(): FieldList { [U16, U8, U16, U8, U32] }
  function PackLteInformationIndication(): FieldList { [U8, List16(MAX_SIB_LENGTH, U8)] }
  function PackNbIotInformationIndication(): FieldList { [U8, List16(MAX_SIB_LENGTH, U8)] }
  function PackLteInformationRequest(): FieldList { [U16, U16, U16, U8, U8, Loop8(Fields([U8, U8])), U8, U32] }
  function PackUtranInformationRequest(): FieldList { [U16, U16, U32] }
  function PackGeranInformationRequest(): FieldList { [U16, U8, U32] }
  function PackNbIotInformationRequest(): FieldList {
    [U16, U8, U16, Loop8(Fields([U8, U8, U8, Loop8(U8)])), U8, U32]
  }
  function PackUtranInformationIndication(): FieldList { [List16(MAX_SIB_LENGTH, U8)] }
  function PackGeranInformationIndication(): FieldList { [List16(MAX_SIB_LENGTH, U8)] }

  // What is unpacked

  function UnpackLteRssiRequest(): FieldList { [U8, U16, U8, U32, List8(MAX_CARRIER_LIST, U16)] }
  function UnpackUtranRssiRequest(): FieldList { [U8, U16, U32, List8(MAX_CARRIER_LIST, U16)] }
  function UnpackGeranRssiRequest(): FieldList { [U8, U16, U32, List8(MAX_CARRIER_LIST, Fields([U16, U8]))] }
  function UnpackNbIotRssiRequest(): FieldList {
    [U8, U16, U32, List8(MAX_CARRIER_LIST, Fields([U16, List8(MAX_RO_DL, U8)]))]
  }
  function UnpackRssiIndication(): FieldList { [List16(MAX_RSSI, S16)] }
  function UnpackLteCellSearchRequest(): FieldList { [U16, U8, U8, U32, List8(MAX_PCI_LIST, U16)] }
  function UnpackUtranCellSearchRequest(): FieldList { [U16, U8, U32, List8(MAX_PSC_LIST, U16)] }
  function UnpackGeranCellSearchRequest(): FieldList { [U32, List8(MAX_ARFCN_LIST, U16)] }
  function UnpackNbIotCellSearchRequest(): FieldList { [U16, U8, U8, U32, List8(MAX_PCI_LIST, U16)] }
  function UnpackLteCellSearchIndication(): FieldList { [List16(MAX_LTE_CELLS_FOUND, Fields([U16, U8, U8, S16]))] }
  function UnpackUtranCellSearchIndication(): FieldList {
    [List16(MAX_UTRAN_CELLS_FOUND, Fields([U16, U8, U8, S16]))]
  }
  function UnpackGeranCellSearchIndication(): FieldList {
    [List16(MAX_GSM_CELLS_FOUND, Fields([U16, U8, U8, U8, S16, U32]))]
  }
  function UnpackNbIotCellSearchIndication(): FieldList {
    [List16(MAX_NB_IOT_CELLS_FOUND, Fields([U16, U8, U8, S16]))]
  }
  function UnpackLteBroadcastDetectRequest(): FieldList { [U16, U16, U32] }
  function UnpackUtranBroadcastDetectRequest(): FieldList { [U16, U16, U32] }
  function UnpackNbIotBroadcastDetectRequest(): FieldList { [U16, U8, U16, U32] }
  function UnpackLteBroadcastDetectIndication(): FieldList { [U8, List16(MAX_MIB_LENGTH, U8), U32] }
  function UnpackUtranBroadcastDetectIndication(): FieldList { [List16(MAX_MIB_LENGTH, U8), U32] }
  function UnpackNbIotBroadcastDetectIndication(): FieldList { [U8, List16(MAX_MIB_LENGTH, U8), U32] }
  function UnpackLteScheduleRequest(): FieldList { [U16, U16, U16, U8, U8, U8, U32] }
  function UnpackNbIotScheduleRequest(): FieldList { [U16, U8, U16, U8, U32] }
  function UnpackLteInformationIndication(): FieldList { [U8, List16(MAX_SIB_LENGTH, U8)] }
  function UnpackNbIotInformationIndication(): FieldList { [U8, List16(MAX_SIB_LENGTH, U8)] }
  function UnpackLteInformationRequest(): FieldList {
    [U16, U16, U16, U8, U8, List8(MAX_SI_PERIODICITY, Fields([U8, U8])), U8, U32]
  }
  function UnpackUtranInformationRequest(): FieldList { [U16, U16, U32] }
  function UnpackGeranInformationRequest(): FieldList { [U16, U8, U32] }

  /** The innermost count is not checked. */
  function UnpackNbIotInformationRequest(): FieldList {
    [U16, U8, U16, List8(MAX_SI_PERIODICITY, Fields([U8, U8, U8, Loop8(U8)])), U8, U32]
  }
  function UnpackUtranInformationIndication(): FieldList { [List16(MAX_SIB_LENGTH, U8)] }
  function UnpackGeranInformationIndication(): FieldList { [List16(MAX_SI_LENGTH, U8)] }

  // ---- The two functions of each TLV agree ------------------------------------------------

  lemma RssiRequestFormats()
    ensures ListsAgree(PackLteRssiRequest(), UnpackLteRssiRequest())
    ensures ListsAgree(PackUtranRssiRequest(), UnpackUtranRssiRequest())
    ensures ListsAgree(PackGeranRssiRequest(), UnpackGeranRssiRequest())
    ensures ListsAgree(PackNbIotRssiRequest(), UnpackNbIotRssiRequest())
  {
    FieldsAgree([U16, U8], [U16, U8]);
    FieldsAgree([U16, Loop8(U8)], [U16, List8(MAX_RO_DL, U8)]);
  }

  lemma RssiIndicationFormats()
    ensures ListsAgree(PackRssiIndication(), UnpackRssiIndication())
  {
  }

  lemma CellSearchRequestFormats()
    ensures ListsAgree(PackLteCellSearchRequest(), UnpackLteCellSearchRequest())
    ensures ListsAgree(PackUtranCellSearchRequest(), UnpackUtranCellSearchRequest())
    ensures ListsAgree(PackGeranCellSearchRequest(), UnpackGeranCellSearchRequest())
    ensures ListsAgree(PackNbIotCellSearchRequest(), UnpackNbIotCellSearchRequest())
  {
  }

  lemma CellSearchIndicationFormats()
    ensures ListsAgree(PackLteCellSearchIndication(), UnpackLteCellSearchIndication())
    ensures ListsAgree(PackUtranCellSearchIndication(), UnpackUtranCellSearchIndication())
    ensures ListsAgree(PackGeranCellSearchIndication(), UnpackGeranCellSearchIndication())
    ensures ListsAgree(PackNbIotCellSearchIndication(), UnpackNbIotCellSearchIndication())
  {
    AgreeReflexive(Fields([U16, U8, U8, S16]));
    AgreeReflexive(Fields([U16, U8, U8, U8, S16, U32]));
  }

  lemma BroadcastDetectRequestFormats()
    ensures ListsAgree(PackLteBroadcastDetectRequest(), UnpackLteBroadcastDetectRequest())
    ensures ListsAgree(PackUtranBroadcastDetectRequest(), UnpackUtranBroadcastDetectRequest())
    ensures ListsAgree(PackNbIotBroadcastDetectRequest(), UnpackNbIotBroadcastDetectRequest())
  {
  }

  lemma BroadcastDetectIndicationFormats()
    ensures ListsAgree(PackLteBroadcastDetectIndication(), UnpackLteBroadcastDetectIndication())
    ensures ListsAgree(PackUtranBroadcastDetectIndication(), UnpackUtranBroadcastDetectIndication())
    ensures ListsAgree(PackNbIotBroadcastDetectIndication(), UnpackNbIotBroadcastDetectIndication())
  {
  }

  lemma ScheduleRequestFormats()
    ensures ListsAgree(PackLteScheduleRequest(), UnpackLteScheduleRequest())
    ensures ListsAgree(PackNbIotScheduleRequest(), UnpackNbIotScheduleRequest())
  {
  }

  lemma ScheduleIndicationFormats()
    ensures ListsAgree(PackLteInformationIndication(), UnpackLteInformationIndication())
    ensures ListsAgree(PackNbIotInformationIndication(), UnpackNbIotInformationIndication())
  {
  }

  lemma SystemInformationRequestFormats()
    ensures ListsAgree(PackLteInformationRequest(), UnpackLteInformationRequest())
    ensures ListsAgree(PackUtranInformationRequest(), UnpackUtranInformationRequest())
    ensures ListsAgree(PackGeranInformationRequest(), UnpackGeranInformationRequest())
    ensures ListsAgree(PackNbIotInformationRequest(), UnpackNbIotInformationRequest())
  {
    FieldsAgree([U8, U8], [U8, U8]);
    FieldsAgree([U8, U8, U8, Loop8(U8)], [U8, U8, U8, Loop8(U8)]);
  }

  lemma SystemInformationIndicationFormats()
    ensures ListsAgree(PackUtranInformationIndication(), UnpackUtranInformationIndication())
    ensures ListsAgree(PackGeranInformationIndication(), UnpackGeranInformationIndication())
  {
  }
}
