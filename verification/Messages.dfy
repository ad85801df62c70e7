/** Uplink packets from the simulated UEs, and the header fields that the subframe and slot
    tasks of src/nfapi_pnf.c read out of their bytes. */
module UplinkMessages {
  import opened Wrappers
  import opened Words
  import opened Frames

  /** The identity of a heap buffer: the ticket-th packet accepted from a UE. The source
      tells buffers apart by their addresses. */
  datatype Handle = Handle(ue: nat, ticket: nat)

  datatype Message = Message(handle: Handle, data: seq<byte>)

  /** sizeof(nfapi_p7_message_header_t) */
  const P7_HEADER_LENGTH := 16

  /** The length of the keep-alive packets that carry no message. */
  const DUMMY_LENGTH := 4

  /** pull16 at an offset of the packet. */
  function Word(data: seq<byte>, at: nat): Option<uint16> {
    if at + 2 <= |data| then Some(data[at] as int * 0x100 + data[at + 1] as int) else None
  }

  /** get_message_id: 0xFFFF when the packet is too short. */
  function MessageId(m: Message): uint16 {
    match Word(m.data, 2)
    case Some(id) => id
    case None => 0xFFFF
  }

  const NFAPI_HARQ_INDICATION := 0x0085
  const NFAPI_CRC_INDICATION := 0x0086
  const NFAPI_RX_ULSCH_INDICATION := 0x0087
  const NFAPI_RACH_INDICATION := 0x0088
  const NFAPI_RX_SR_INDICATION := 0x008A
  const NFAPI_RX_CQI_INDICATION := 0x008B

  const NR_RX_DATA_INDICATION := 0x85
  const NR_CRC_INDICATION := 0x86
  const NR_UCI_INDICATION := 0x87
  const NR_SRS_INDICATION := 0x88
  const NR_RACH_INDICATION := 0x89

  /** The message ids that get_sfnsf and get_sfnslot let through. */
  predicate KnownId(air: Air, id: uint16) {
    if air.Lte? then
      id == NFAPI_RACH_INDICATION || id == NFAPI_CRC_INDICATION || id == NFAPI_RX_ULSCH_INDICATION
      || id == NFAPI_RX_CQI_INDICATION || id == NFAPI_HARQ_INDICATION || id == NFAPI_RX_SR_INDICATION
    else
      id == NR_RACH_INDICATION || id == NR_CRC_INDICATION || id == NR_RX_DATA_INDICATION
      || id == NR_UCI_INDICATION || id == NR_SRS_INDICATION
  }

  /** get_sfnsf and get_sfnslot: the packed frame word, or None for a packet that is too short
      or has an unknown message id. LTE sends the packed word; NR sends the frame and the slot
      separately, and the source packs them into 16 bits. */
  function FrameWord(air: Air, m: Message): Option<uint16> {
    if Word(m.data, 2).None? || !KnownId(air, MessageId(m)) then None
    else if air.Lte? then Word(m.data, P7_HEADER_LENGTH)
    else
      match (Word(m.data, P7_HEADER_LENGTH), Word(m.data, P7_HEADER_LENGTH + 2))
      case (Some(sfn), Some(slot)) => Some(sfn % 0x400 * 0x40 + slot % 0x40)
      case _ => None
  }

  /** A packet that the dequeue loops do not throw away on sight. */
  predicate WellFormed(air: Air, m: Message) {
    |m.data| != DUMMY_LENGTH && FrameWord(air, m).Some?
  }
}
