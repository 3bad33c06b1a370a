/** Internal constants of the driver (usb/inc/usb_internal.h): FIFO sizes and the codes of
    the RX packet status, of bRequest and of the descriptor type. Each code set is decoded
    totally: values without a name decode to an explicit "other" case, as the switch
    statements of the handlers fall to their `default` branch. */
module UsbInternal {

  const GlobalRxFifoSize: nat := 128
  const Ep0RxFifoSize: nat := 64
  const Ep0TxFifoSize: nat := 64

  /** Constant check: the FIFO sizes in 32-bit words. */
  lemma FifoSizesInWords()
    ensures Ep0RxFifoSize / 4 == 16 && Ep0TxFifoSize / 4 == 16 && GlobalRxFifoSize / 4 == 32
  {}

  /** usb_rx_status_e: the PKTSTS field of a popped RX status word. */
  datatype RxPacketStatus = Nak | DataUpdate | TransferComplete | SetupComplete | SetupUpdate
                          | OtherStatus(code: bv32)

  function RxStatusCode(s: RxPacketStatus): bv32
  {
    match s
    case Nak => 1
    case DataUpdate => 2
    case TransferComplete => 3
    case SetupComplete => 4
    case SetupUpdate => 6
    case OtherStatus(c) => c
  }

  function RxStatusOf(code: bv32): (s: RxPacketStatus)
    ensures RxStatusCode(s) == code
  {
    if code == 1 then Nak
    else if code == 2 then DataUpdate
    else if code == 3 then TransferComplete
    else if code == 4 then SetupComplete
    else if code == 6 then SetupUpdate
    else OtherStatus(code)
  }

  predicate IsNamedRxStatusCode(code: bv32)
  {
    code == 1 || code == 2 || code == 3 || code == 4 || code == 6
  }

  /** The five named codes are distinct and decode back to their names; 0, 5 and 7 .. 15
      (indeed every other value) have no name. */
  lemma RxStatusCodes(s: RxPacketStatus, code: bv32)
    requires !s.OtherStatus?
    ensures RxStatusOf(RxStatusCode(s)) == s
    ensures RxStatusOf(code).OtherStatus? <==> !IsNamedRxStatusCode(code)
  {}

  /** usb_request_e: bRequest values, as in Table 9-4 of USB 2.0. */
  datatype Request = GetStatus | ClearFeature | SetFeature | SetAddress | GetDescriptor
                   | SetDescriptor | GetConfiguration | SetConfiguration | GetInterface
                   | SetInterface | SynchFrame | OtherRequest(code: bv8)

  function RequestCode(r: Request): bv8
  {
    match r
    case GetStatus => 0
    case ClearFeature => 1
    case SetFeature => 3
    case SetAddress => 5
    case GetDescriptor => 6
    case SetDescriptor => 7
    case GetConfiguration => 8
    case SetConfiguration => 9
    case GetInterface => 10
    case SetInterface => 11
    case SynchFrame => 12
    case OtherRequest(c) => c
  }

  function RequestOf(code: bv8): (r: Request)
    ensures RequestCode(r) == code
  {
    if code == 0 then GetStatus
    else if code == 1 then ClearFeature
    else if code == 3 then SetFeature
    else if code == 5 then SetAddress
    else if code == 6 then GetDescriptor
    else if code == 7 then SetDescriptor
    else if code == 8 then GetConfiguration
    else if code == 9 then SetConfiguration
    else if code == 10 then GetInterface
    else if code == 11 then SetInterface
    else if code == 12 then SynchFrame
    else OtherRequest(code)
  }

  /** Named requests have distinct codes that decode back to them; 2, 4 and 13 .. 255 are
      reserved and decode to OtherRequest. */
  lemma RequestCodes(r: Request, code: bv8)
    requires !r.OtherRequest?
    ensures RequestOf(RequestCode(r)) == r
    ensures RequestOf(code).OtherRequest? <==> (code == 2 || code == 4 || code > 12)
  {}

  /** usb_descriptor_value_e: descriptor types 1 .. 8 of Table 9-5 of USB 2.0, OTG (9) and
      the HID report descriptor (0x22, section 7.1 of HID 1.11). */
  datatype DescriptorType = Device | Configuration | String | Interface | Endpoint
                          | DeviceQualifier | OtherSpeedConfiguration | InterfacePower
                          | Otg | Report | OtherType(code: bv16)

  function DescriptorTypeCode(t: DescriptorType): bv16
  {
    match t
    case Device => 1
    case Configuration => 2
    case String => 3
    case Interface => 4
    case Endpoint => 5
    case DeviceQualifier => 6
    case OtherSpeedConfiguration => 7
    case InterfacePower => 8
    case Otg => 9
    case Report => 0x22
    case OtherType(c) => c
  }

  function DescriptorTypeOf(code: bv16): (t: DescriptorType)
    ensures DescriptorTypeCode(t) == code
  {
    if code == 1 then Device
    else if code == 2 then Configuration
    else if code == 3 then String
    else if code == 4 then Interface
    else if code == 5 then Endpoint
    else if code == 6 then DeviceQualifier
    else if code == 7 then OtherSpeedConfiguration
    else if code == 8 then InterfacePower
    else if code == 9 then Otg
    else if code == 0x22 then Report
    else OtherType(code)
  }

  /** Named descriptor types have distinct codes that decode back to them. */
  lemma DescriptorTypeCodes(t: DescriptorType, code: bv16)
    requires !t.OtherType?
    ensures DescriptorTypeOf(DescriptorTypeCode(t)) == t
    ensures DescriptorTypeOf(code).OtherType? <==> (code == 0 || (9 < code && code != 0x22))
  {}
}
