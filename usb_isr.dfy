/** The interrupt service routine of the device (usb/src/usb_isr.c): the dispatcher on
    GINTSTS and the handlers it calls. Each handler is specified by a function on the
    register state (and the driver's stored setup packet) that performs the same register
    accesses in the same order, and implemented by a method on the peripheral proved to
    have exactly that effect.

    A failed ENSURE or ASSERT, and the endless loop taken on a mode mismatch, stop the
    program; the model returns the outcome Halted with the state reached at that point. */
module UsbIsr {
  import opened UsbTypes
  import opened UsbInternal
  import opened UsbDesc
  import opened Otg
  import opened Usb

  /** Value written to DIEPINT / DOEPINT to clear every interrupt flag of an endpoint. */
  const EpIntClearAll: bv32 := 0xFB7F

  /** The OUT endpoint events usbrst_handler unmasks in DOEPMSK. */
  const OutEventMask: bv32 := DOEPMSK_STUPM | DOEPMSK_XFRCM | DOEPMSK_EPDM | DOEPMSK_OTEPSPRM | DOEPMSK_NAKM

  /** The IN endpoint events usbrst_handler unmasks in DIEPMSK. */
  const InEventMask: bv32 := DIEPMSK_TOM | DIEPMSK_XFRCM | DIEPMSK_EPDM

  /** EP0 IN and EP0 OUT in DAINTMSK. */
  const Ep0Interrupts: bv32 := 0x1_0001

  /** The GINTSTS flags the dispatcher handles and acknowledges when it completes. */
  const HandledBits: bv32 :=
    GINTSTS_SRQINT | GINTSTS_USBRST | GINTSTS_ENUMDNE | GINTSTS_SOF | GINTSTS_RXFLVL |
    GINTSTS_ESUSP | GINTSTS_USBSUSP | GINTSTS_WKUINT | GINTSTS_OEPINT | GINTSTS_IEPINT

  /** The DOEPINT flags oepint_handler acknowledges. */
  const OutHandledFlags: bv32 :=
    DOEPINT_XFRC | DOEPINT_EPDISD | DOEPINT_STUP | DOEPINT_OTEPDIS | DOEPINT_NAK

  /** The DIEPINT flags iepint_handler acknowledges. */
  const InHandledFlags: bv32 :=
    DIEPINT_XFRC | DIEPINT_EPDISD | DIEPINT_TOC | DIEPINT_ITTXFE | DIEPINT_INEPNE |
    DIEPINT_TXFE | DIEPINT_PKTDRPSTS | DIEPINT_NAK

  /** What a handler leaves: the register state, the driver's setup packet, the outcome. */
  datatype Step = Step(hw: OtgState, setup: Packet8, outcome: Outcome)

  /** What a handler that does not store a setup packet leaves. */
  datatype Effect = Effect(hw: OtgState, outcome: Outcome)

  /** The register and the queues the handlers consult to choose a handler or an endpoint.
      A handler that leaves them alone does not change what a later handler sees. */
  predicate SameRouting(s: OtgState, r: OtgState)
  {
    r.device.daint == s.device.daint && r.rxStatus == s.rxStatus && r.rxData == s.rxData
  }

  // ---------------------------------------------------------------------------------
  // Lowest set bit (__builtin_ctz)

  /** Bit k of x is set. */
  predicate BitAt(x: bv32, k: nat)
    decreases k
  {
    if k == 0 then x & 1 == 1 else BitAt(x >> 1, k - 1)
  }

  /** The number of trailing zero bits: the index of the lowest set bit. */
  function Ctz(x: bv32): (n: nat)
    requires x != 0
    ensures BitAt(x, n)
    ensures forall k: nat :: k < n ==> !BitAt(x, k)
    decreases x
  {
    if x & 1 == 1 then 0 else 1 + Ctz(x >> 1)
  }

  /** DAINT's OUT half: bit n set while OUT endpoint n has an interrupt pending. */
  function OutEndpointHalf(s: OtgState): bv32
  {
    (s.device.daint & DAINT_OEPINT) >> DAINT_OEPINT_Pos
  }

  /** DAINT's IN half: bit n set while IN endpoint n has an interrupt pending. */
  function InEndpointHalf(s: OtgState): bv32
  {
    (s.device.daint & DAINT_IEPINT) >> DAINT_IEPINT_Pos
  }

  /** Only endpoint registers differ between s and r. */
  predicate EndpointsOnly(s: OtgState, r: OtgState)
  {
    r.global == s.global && r.device == s.device && r.txFifo == s.txFifo &&
    r.rxStatus == s.rxStatus && r.rxData == s.rxData
  }

  /** Acknowledges `bit` of DOEPINTx if it was among the flags read. */
  function AckOutIf(s: OtgState, ep: nat, flags: bv32, bit: bv32): (r: OtgState)
    ensures EndpointsOnly(s, r)
  {
    if Has(flags, bit) then UpdateDoepint(s, ep, Acknowledge(bit)) else s
  }

  /** Acknowledges `bit` of DIEPINTx if it was among the flags read. */
  function AckInIf(s: OtgState, ep: nat, flags: bv32, bit: bv32): (r: OtgState)
    ensures EndpointsOnly(s, r)
  {
    if Has(flags, bit) then UpdateDiepint(s, ep, Acknowledge(bit)) else s
  }

  // ---------------------------------------------------------------------------------
  // GRXSTSP decoding

  /** A popped receive status word, field by field. */
  datatype RxEvent = RxEvent(status: RxPacketStatus, byteCount: bv32, ep: bv32, dataPid: bv32)

  function DecodeRxStatus(w: bv32): RxEvent
  {
    RxEvent(RxStatusOf((w & GRXSTSP_PKTSTS) >> GRXSTSP_PKTSTS_Pos),
            (w & GRXSTSP_BCNT) >> GRXSTSP_BCNT_Pos,
            w & GRXSTSP_EPNUM,
            (w & GRXSTSP_DPID) >> GRXSTSP_DPID_Pos)
  }

  /** `(byte_count + 3) / 4`: the number of FIFO words the packet occupies. */
  function RxWordCount(e: RxEvent): nat
  {
    ((e.byteCount + 3) / 4) as nat
  }

  /** A SETUP packet the handler accepts: eight bytes on endpoint 0. */
  predicate AcceptedSetup(e: RxEvent)
  {
    e.status == SetupUpdate && e.ep == 0 && e.byteCount == 8
  }

  /** What the core guarantees when it raises RXFLVL: a status word is waiting, and a
      SETUP packet it announces has its two data words in the FIFO. */
  predicate RxReady(s: OtgState)
  {
    |s.rxStatus| > 0 && (AcceptedSetup(DecodeRxStatus(s.rxStatus[0])) ==> |s.rxData| >= 2)
  }

  /** The setup packet after the first n words of `data` are stored through
      raw_packet_data, word by word. */
  function CopyWords(packet: Packet8, data: seq<bv32>, n: nat): Packet8
    requires n <= 2 && n <= |data|
  {
    if n == 0 then packet else StoreRawWord(CopyWords(packet, data, n - 1), n - 1, data[n - 1])
  }

  // ---------------------------------------------------------------------------------
  // Handler specifications

  /** srqint_handler: acknowledge the session request. */
  function SrqintSpec(s: OtgState): (r: OtgState)
    ensures SameRouting(s, r)
  {
    UpdateGintsts(s, Acknowledge(GINTSTS_SRQINT))
  }

  /** usbrst_handler: stop remote wakeup signalling, flush the TX FIFO, clear EP0's
      interrupt flags and STALL, NAK EP0 OUT, unmask EP0's interrupts, the OUT events and
      the IN events it handles, forget the device address, prepare EP0 OUT for SETUP
      packets, and acknowledge the reset last. */
  function UsbrstSpec(s: OtgState): (r: OtgState)
    ensures SameRouting(s, r)
  {
    var s1 := UpdateDctl(s, ClearBits(DCTL_RWUSIG));
    var s2 := FlushedTx(s1);
    var s3 := UpdateDiepint(s2, 0, Acknowledge(EpIntClearAll));
    var s4 := UpdateDiepctl(s3, 0, ClearBits(EPCTL_STALL));
    var s5 := UpdateDoepint(s4, 0, Acknowledge(EpIntClearAll));
    var s6 := UpdateDoepctl(s5, 0, ClearBits(EPCTL_STALL));
    var s7 := UpdateDoepctl(s6, 0, SetBits(EPCTL_SNAK));
    var s8 := UpdateDaintmsk(s7, SetBits(Ep0Interrupts));
    var s9 := UpdateDoepmsk(s8, SetBits(OutEventMask));
    var s10 := UpdateDiepmsk(s9, SetBits(InEventMask));
    var s11 := UpdateDcfg(s10, ClearBits(DCFG_DAD));
    var s12 := UpdateDoeptsiz(s11, 0, SetBits(Ep0SetupTransferSize));
    UpdateGintsts(s12, Acknowledge(GINTSTS_USBRST))
  }

  /** enumdne_handler: 64-byte maximum packet size on EP0 (MPSIZ = 0), clear the global IN
      NAK, set the turnaround time, unmask exactly EP0's interrupts, activate EP0 in both
      directions, clear EP0 IN's flags, and acknowledge. */
  function EnumdneSpec(s: OtgState): (r: OtgState)
    ensures SameRouting(s, r)
  {
    var s1 := UpdateDiepctl(s, 0, ClearBits(EPCTL_MPSIZ));
    var s2 := UpdateDoepctl(s1, 0, ClearBits(EPCTL_MPSIZ));
    var s3 := UpdateDctl(s2, SetBits(DCTL_CGINAK));
    var s4 := UpdateGusbcfg(s3, SetBits(6 << GUSBCFG_TRDT_Pos));
    var s5 := UpdateDaintmsk(s4, WriteValue(Ep0Interrupts));
    var s6 := UpdateDiepctl(s5, 0, SetBits(EPCTL_USBAEP));
    var s7 := UpdateDoepctl(s6, 0, SetBits(EPCTL_USBAEP));
    var s8 := UpdateDiepint(s7, 0, Acknowledge(EpIntClearAll));
    UpdateGintsts(s8, Acknowledge(GINTSTS_ENUMDNE))
  }

  /** The end of rxflvl_handler: unmask RXFLVL again and acknowledge it. */
  function RxflvlDone(s: OtgState): (r: OtgState)
  {
    UpdateGintsts(UpdateGintmsk(s, SetBits(GINTMSK_RXFLVLM)), Acknowledge(GINTSTS_RXFLVL))
  }

  /** rxflvl_handler: mask RXFLVL, pop one status word; a SETUP packet must be eight bytes
      on endpoint 0 (otherwise the driver halts) and its two data words are popped into the
      setup packet; every other status pops no data. Then unmask and acknowledge. */
  function RxflvlSpec(s: OtgState, setup: Packet8): (r: Step)
    requires RxReady(s)
    ensures r.hw.device.daint == s.device.daint
  {
    var masked := UpdateGintmsk(s, ClearBits(GINTMSK_RXFLVLM));
    var e := DecodeRxStatus(masked.rxStatus[0]);
    var popped := masked.(rxStatus := masked.rxStatus[1..]);
    if e.status == SetupUpdate then
      if !(e.ep == 0 && e.byteCount == 8) then Step(popped, setup, Halted)
      else
        var copied := popped.(rxData := popped.rxData[2..]);
        Step(RxflvlDone(copied), FromRawWords(popped.rxData[0], popped.rxData[1]), Completed)
    else Step(RxflvlDone(popped), setup, Completed)
  }

  /** The descriptor types the switch of oepint_stup_get_descriptor_handler names: those of
      Table 9-5 of USB 2.0 and OTG. The HID report type is not among them. */
  predicate Recognised(t: DescriptorType)
  {
    !t.OtherType? && t != Report
  }

  /** The descriptor stored for a type; empty where the handler has none (NULL in the code). */
  function DescriptorTable(t: DescriptorType): (table: seq<bv8>)
    ensures |table| <= |ConfigurationDescriptor|
  {
    match t
    case Device => DeviceDescriptor
    case Configuration => ConfigurationDescriptor
    case _ => []
  }

  /** The length sent: the descriptor's length, cut to the wLength the host asked for. */
  function SentLength(size: nat, requested: nat): (len: nat)
    ensures len <= size
  {
    if size > requested then requested else size
  }

  /** oepint_stup_get_descriptor_handler: the type is wValue's high byte; an unnamed type
      fails the assertion; otherwise the stored descriptor, cut to wLength, is written to
      EP0 if there is one and the length is not zero. */
  function GetDescriptorSpec(s: OtgState, f: SetupFields): (r: Effect)
    ensures SameRouting(s, r.hw)
  {
    DescriptorRequestSpec(s, DescriptorTypeOf(f.value >> 8), f.length as nat)
  }

  /** The same, once the type and the length requested are known: an unnamed type fails
      the assertion; otherwise the stored descriptor, cut to the length requested, is
      written to EP0 if there is one and that length is not zero. */
  function DescriptorRequestSpec(s: OtgState, t: DescriptorType, requested: nat): (r: Effect)
    ensures SameRouting(s, r.hw)
  {
    if !Recognised(t) then Effect(s, Halted)
    else
      var table := DescriptorTable(t);
      var len := SentLength(|table|, requested);
      if |table| > 0 && len > 0 then Effect(WriteFifoSpec(s, table, len), Completed)
      else Effect(s, Completed)
  }

  /** SET_ADDRESS: OR wValue into DCFG's address field and acknowledge with a zero-length
      IN packet. */
  function SetAddressSpec(s: OtgState, f: SetupFields): (r: OtgState)
    ensures SameRouting(s, r)
  {
    WriteFifoSpec(UpdateDcfg(s, SetBits(Widen(f.value) << DCFG_DAD_Pos)), [], 0)
  }

  /** oepint_stup_handler: SET_ADDRESS and GET_DESCRIPTOR are served, every other request
      is ignored. */
  function StupSpec(s: OtgState, setup: Packet8): (r: Effect)
    ensures SameRouting(s, r.hw)
  {
    var f := Fields(setup);
    match RequestOf(f.request)
    case SetAddress => Effect(SetAddressSpec(s, f), Completed)
    case GetDescriptor => GetDescriptorSpec(s, f)
    case _ => Effect(s, Completed)
  }

  /** The last part of oepint_handler: the OTEPDIS and NAK flags, then OEPINT. */
  function OepintDone(s: OtgState, ep: nat, flags: bv32): (r: OtgState)
    ensures SameRouting(s, r)
  {
    var s1 := AckOutIf(s, ep, flags, DOEPINT_OTEPDIS);
    var s2 := AckOutIf(s1, ep, flags, DOEPINT_NAK);
    UpdateGintsts(s2, Acknowledge(GINTSTS_OEPINT))
  }

  /** oepint_handler: find the endpoint, acknowledge each flag it has set in turn; a SETUP
      phase is only expected on endpoint 0 and is served before its flag is cleared. */
  function OepintSpec(s: OtgState, setup: Packet8): (r: Effect)
    requires OutEndpointHalf(s) != 0
    ensures r.hw.device.daint == s.device.daint
  {
    var ep := Ctz(OutEndpointHalf(s));
    var flags := s.Out(ep).intr;
    var s1 := AckOutIf(s, ep, flags, DOEPINT_XFRC);
    var s2 := AckOutIf(s1, ep, flags, DOEPINT_EPDISD);
    if Has(flags, DOEPINT_STUP) then
      if ep != 0 then Effect(s2, Halted)
      else
        var served := StupSpec(s2, setup);
        if served.outcome == Halted then served
        else Effect(OepintDone(UpdateDoepint(served.hw, 0, Acknowledge(DOEPINT_STUP)), ep, flags), Completed)
    else Effect(OepintDone(s2, ep, flags), Completed)
  }

  /** The transfer-complete branch of iepint_handler: arm the OUT endpoint of the same
      number for one more packet, then acknowledge XFRC. */
  function InTransferDone(s: OtgState, ep: nat, flags: bv32): (r: OtgState)
    ensures EndpointsOnly(s, r)
  {
    if Has(flags, DIEPINT_XFRC) then
      UpdateDiepint(UpdateDoeptsiz(s, ep, SetBits(1 << EPTSIZ_PKTCNT_Pos)), ep, Acknowledge(DIEPINT_XFRC))
    else s
  }

  /** iepint_handler: acknowledge IEPINT first, find the endpoint, handle a completed
      transfer, and acknowledge each other flag it has set. */
  function IepintSpec(s: OtgState): (r: OtgState)
    requires InEndpointHalf(s) != 0
    ensures SameRouting(s, r)
  {
    var acked := UpdateGintsts(s, Acknowledge(GINTSTS_IEPINT));
    var ep := Ctz(InEndpointHalf(acked));
    var flags := acked.In(ep).intr;
    var s1 := InTransferDone(acked, ep, flags);
    var s2 := AckInIf(s1, ep, flags, DIEPINT_EPDISD);
    var s3 := AckInIf(s2, ep, flags, DIEPINT_TOC);
    var s4 := AckInIf(s3, ep, flags, DIEPINT_ITTXFE);
    var s5 := AckInIf(s4, ep, flags, DIEPINT_INEPNE);
    var s6 := AckInIf(s5, ep, flags, DIEPINT_TXFE);
    var s7 := AckInIf(s6, ep, flags, DIEPINT_PKTDRPSTS);
    AckInIf(s7, ep, flags, DIEPINT_NAK)
  }

  // ---------------------------------------------------------------------------------
  // The dispatcher

  /** What the core guarantees when it raises the summary flags: RXFLVL comes with a
      status word (and a SETUP packet with its data), OEPINT and IEPINT with an endpoint
      bit in DAINT. */
  predicate IrqReady(s: OtgState)
  {
    var sts := s.global.gintsts;
    && (Has(sts, GINTSTS_RXFLVL) ==> RxReady(s))
    && (Has(sts, GINTSTS_OEPINT) ==> OutEndpointHalf(s) != 0)
    && (Has(sts, GINTSTS_IEPINT) ==> InEndpointHalf(s) != 0)
  }

  /** The bus events, in the dispatcher's order: SRQINT, USBRST, ENUMDNE, SOF. */
  function BusEvents(sts: bv32, s: OtgState): (r: OtgState)
    ensures SameRouting(s, r)
  {
    var s1 := if Has(sts, GINTSTS_SRQINT) then SrqintSpec(s) else s;
    var s2 := if Has(sts, GINTSTS_USBRST) then UsbrstSpec(s1) else s1;
    var s3 := if Has(sts, GINTSTS_ENUMDNE) then EnumdneSpec(s2) else s2;
    if Has(sts, GINTSTS_SOF) then UpdateGintsts(s3, Acknowledge(GINTSTS_SOF)) else s3
  }

  /** The suspend and wakeup flags, only acknowledged: ESUSP, USBSUSP, WKUINT. */
  function PowerEvents(sts: bv32, s: OtgState): (r: OtgState)
    ensures SameRouting(s, r)
  {
    var s1 := if Has(sts, GINTSTS_ESUSP) then UpdateGintsts(s, Acknowledge(GINTSTS_ESUSP)) else s;
    var s2 := if Has(sts, GINTSTS_USBSUSP) then UpdateGintsts(s1, Acknowledge(GINTSTS_USBSUSP)) else s1;
    if Has(sts, GINTSTS_WKUINT) then UpdateGintsts(s2, Acknowledge(GINTSTS_WKUINT)) else s2
  }

  /** The session end flag of GOTGINT, read afresh after everything else. */
  function SessionEnd(s: OtgState): OtgState
  {
    if Has(s.global.gotgint, GOTGINT_SEDET) then UpdateGotgint(s, Acknowledge(GOTGINT_SEDET)) else s
  }

  /** The endpoint part of the dispatcher: OEPINT, IEPINT, then the session end flag. */
  function EndpointEvents(sts: bv32, s: OtgState, setup: Packet8): (r: Effect)
    requires Has(sts, GINTSTS_OEPINT) ==> OutEndpointHalf(s) != 0
    requires Has(sts, GINTSTS_IEPINT) ==> InEndpointHalf(s) != 0
  {
    var out := if Has(sts, GINTSTS_OEPINT) then OepintSpec(s, setup) else Effect(s, Completed);
    if out.outcome == Halted then out
    else
      var inp := if Has(sts, GINTSTS_IEPINT) then IepintSpec(out.hw) else out.hw;
      Effect(SessionEnd(inp), Completed)
  }

  /** usb_irq_handler with a driver instance: read GINTSTS once and run the handler of each
      flag set in it, in a fixed order. A halt stops the sequence. Flags without a handler
      are left pending. */
  function IrqSpec(s: OtgState, setup: Packet8): (r: Step)
    requires IrqReady(s)
  {
    var sts := s.global.gintsts;
    var bus := BusEvents(sts, s);
    var rx := if Has(sts, GINTSTS_RXFLVL) then RxflvlSpec(bus, setup) else Step(bus, setup, Completed);
    if rx.outcome == Halted then rx
    else
      var power := PowerEvents(sts, rx.hw);
      if Has(sts, GINTSTS_MMIS) then Step(UpdateGintsts(power, Acknowledge(GINTSTS_MMIS)), rx.setup, Halted)
      else
        var ends := EndpointEvents(sts, power, rx.setup);
        Step(ends.hw, rx.setup, ends.outcome)
  }

  // ---------------------------------------------------------------------------------
  // The handlers

  /** srqint_handler. */
  method SrqintHandler(p: Peripheral)
    modifies p`hw
    ensures p.hw == SrqintSpec(old(p.hw))
  {
    p.hw := UpdateGintsts(p.hw, Acknowledge(GINTSTS_SRQINT));
  }

  /** usbrst_handler. */
  method UsbrstHandler(p: Peripheral)
    requires p.Valid()
    modifies p`hw, p`ahbBusyPolls, p`txFlush, p`rxFlush, p`flushPolls
    ensures p.Valid()
    ensures p.hw == UsbrstSpec(old(p.hw))
  {
    p.hw := UpdateDctl(p.hw, ClearBits(DCTL_RWUSIG));
    var flushed := FlushTxFifo(p);
    p.hw := UpdateDiepint(p.hw, 0, Acknowledge(EpIntClearAll));
    p.hw := UpdateDiepctl(p.hw, 0, ClearBits(EPCTL_STALL));
    p.hw := UpdateDoepint(p.hw, 0, Acknowledge(EpIntClearAll));
    p.hw := UpdateDoepctl(p.hw, 0, ClearBits(EPCTL_STALL));
    p.hw := UpdateDoepctl(p.hw, 0, SetBits(EPCTL_SNAK));
    p.hw := UpdateDaintmsk(p.hw, SetBits(Ep0Interrupts));
    p.hw := UpdateDoepmsk(p.hw, SetBits(OutEventMask));
    p.hw := UpdateDiepmsk(p.hw, SetBits(InEventMask));
    p.hw := UpdateDcfg(p.hw, ClearBits(DCFG_DAD));
    p.hw := UpdateDoeptsiz(p.hw, 0, SetBits(Ep0SetupTransferSize));
    p.hw := UpdateGintsts(p.hw, Acknowledge(GINTSTS_USBRST));
  }

  /** enumdne_handler. */
  method EnumdneHandler(p: Peripheral)
    modifies p`hw
    ensures p.hw == EnumdneSpec(old(p.hw))
  {
    p.hw := UpdateDiepctl(p.hw, 0, ClearBits(EPCTL_MPSIZ));
    p.hw := UpdateDoepctl(p.hw, 0, ClearBits(EPCTL_MPSIZ));
    p.hw := UpdateDctl(p.hw, SetBits(DCTL_CGINAK));
    p.hw := UpdateGusbcfg(p.hw, SetBits(6 << GUSBCFG_TRDT_Pos));
    p.hw := UpdateDaintmsk(p.hw, WriteValue(Ep0Interrupts));
    p.hw := UpdateDiepctl(p.hw, 0, SetBits(EPCTL_USBAEP));
    p.hw := UpdateDoepctl(p.hw, 0, SetBits(EPCTL_USBAEP));
    p.hw := UpdateDiepint(p.hw, 0, Acknowledge(EpIntClearAll));
    p.hw := UpdateGintsts(p.hw, Acknowledge(GINTSTS_ENUMDNE));
  }

  /** Constant check: a SETUP packet is two words, (8 + 3) / 4 == 2. */
  lemma SetupWordCount(e: RxEvent)
    requires e.byteCount == 8
    ensures RxWordCount(e) == 2
  {}

  /** rxflvl_handler. The data words of a SETUP packet are copied into the driver's setup
      packet one at a time, in the order they are popped. */
  method RxflvlHandler(p: Peripheral, d: Driver) returns (outcome: Outcome)
    requires RxReady(p.hw)
    modifies p`hw, d`setupPacket
    ensures Step(p.hw, d.setupPacket, outcome) == RxflvlSpec(old(p.hw), old(d.setupPacket))
  {
    p.hw := UpdateGintmsk(p.hw, ClearBits(GINTMSK_RXFLVLM));
    var status := p.PopRxStatus();
    var e := DecodeRxStatus(status);
    var wordCount := RxWordCount(e);
    if e.status == SetupUpdate {
      if !(e.ep == 0 && e.byteCount == 8) {
        return Halted;
      }
      SetupWordCount(e);
      ghost var popped := p.hw;
      ghost var packet := d.setupPacket;
      var word := 0;
      while word < wordCount
        invariant word <= 2
        invariant p.hw == popped.(rxData := popped.rxData[word..])
        invariant d.setupPacket == CopyWords(packet, popped.rxData, word)
      {
        var w := p.PopRxData();
        d.setupPacket := StoreRawWord(d.setupPacket, word, w);
        word := word + 1;
      }
      StoreTwoWords(packet, popped.rxData[0], popped.rxData[1]);
    }
    p.hw := UpdateGintmsk(p.hw, SetBits(GINTMSK_RXFLVLM));
    p.hw := UpdateGintsts(p.hw, Acknowledge(GINTSTS_RXFLVL));
    outcome := Completed;
  }

  /** oepint_stup_get_descriptor_handler: the type is wValue's high byte, the length
      requested wLength. */
  method GetDescriptorHandler(p: Peripheral, d: Driver) returns (outcome: Outcome)
    modifies p`hw
    ensures Effect(p.hw, outcome) == GetDescriptorSpec(old(p.hw), Fields(d.setupPacket))
  {
    var f := Fields(d.setupPacket);
    outcome := ServeDescriptor(p, DescriptorTypeOf(f.value >> 8), f.length as nat);
  }

  /** The rest of oepint_stup_get_descriptor_handler. `len` starts as the descriptor's
      size and is cut in place to the length requested. */
  method ServeDescriptor(p: Peripheral, t: DescriptorType, requested: nat) returns (outcome: Outcome)
    modifies p`hw
    ensures Effect(p.hw, outcome) == DescriptorRequestSpec(old(p.hw), t, requested)
  {
    var table: seq<bv8> := [];
    var len: nat := 0;
    if t == Device {
      table := DeviceDescriptor;
      len := |DeviceDescriptor|;
    } else if t == Configuration {
      table := ConfigurationDescriptor;
      len := |ConfigurationDescriptor|;
    } else if !Recognised(t) {
      return Halted;
    }
    if len > requested {
      len := requested;
    }
    assert table == DescriptorTable(t) && len == SentLength(|table|, requested);
    if |table| > 0 && len > 0 {
      WriteFifo(p, table, len);
    }
    outcome := Completed;
  }

  /** oepint_stup_handler. */
  method StupHandler(p: Peripheral, d: Driver) returns (outcome: Outcome)
    modifies p`hw
    ensures Effect(p.hw, outcome) == StupSpec(old(p.hw), d.setupPacket)
  {
    var f := Fields(d.setupPacket);
    outcome := Completed;
    match RequestOf(f.request) {
      case SetAddress =>
        p.hw := UpdateDcfg(p.hw, SetBits(Widen(f.value) << DCFG_DAD_Pos));
        WriteFifo(p, [], 0);
      case GetDescriptor =>
        outcome := GetDescriptorHandler(p, d);
      case _ =>
    }
  }

  /** oepint_handler. */
  method OepintHandler(p: Peripheral, d: Driver) returns (outcome: Outcome)
    requires OutEndpointHalf(p.hw) != 0
    modifies p`hw
    ensures Effect(p.hw, outcome) == OepintSpec(old(p.hw), d.setupPacket)
  {
    var ep := Ctz(OutEndpointHalf(p.hw));
    var flags := p.hw.Out(ep).intr;
    AckOut(p, ep, flags, DOEPINT_XFRC);
    AckOut(p, ep, flags, DOEPINT_EPDISD);
    if Has(flags, DOEPINT_STUP) {
      if ep != 0 {
        return Halted;
      }
      outcome := StupHandler(p, d);
      if outcome == Halted {
        return;
      }
      p.hw := UpdateDoepint(p.hw, 0, Acknowledge(DOEPINT_STUP));
    }
    AckOut(p, ep, flags, DOEPINT_OTEPDIS);
    AckOut(p, ep, flags, DOEPINT_NAK);
    p.hw := UpdateGintsts(p.hw, Acknowledge(GINTSTS_OEPINT));
    outcome := Completed;
  }

  /** iepint_handler. */
  method IepintHandler(p: Peripheral)
    requires InEndpointHalf(p.hw) != 0
    modifies p`hw
    ensures p.hw == IepintSpec(old(p.hw))
  {
    p.hw := UpdateGintsts(p.hw, Acknowledge(GINTSTS_IEPINT));
    var ep := Ctz(InEndpointHalf(p.hw));
    var flags := p.hw.In(ep).intr;
    if Has(flags, DIEPINT_XFRC) {
      p.hw := UpdateDoeptsiz(p.hw, ep, SetBits(1 << EPTSIZ_PKTCNT_Pos));
      p.hw := UpdateDiepint(p.hw, ep, Acknowledge(DIEPINT_XFRC));
    }
    AckIn(p, ep, flags, DIEPINT_EPDISD);
    AckIn(p, ep, flags, DIEPINT_TOC);
    AckIn(p, ep, flags, DIEPINT_ITTXFE);
    AckIn(p, ep, flags, DIEPINT_INEPNE);
    AckIn(p, ep, flags, DIEPINT_TXFE);
    AckIn(p, ep, flags, DIEPINT_PKTDRPSTS);
    AckIn(p, ep, flags, DIEPINT_NAK);
  }

  /** `if (flags & bit) DIEPINTx |= bit;` */
  method AckIn(p: Peripheral, ep: nat, flags: bv32, bit: bv32)
    modifies p`hw
    ensures p.hw == AckInIf(old(p.hw), ep, flags, bit)
  {
    if Has(flags, bit) {
      p.hw := UpdateDiepint(p.hw, ep, Acknowledge(bit));
    }
  }

  /** `if (flags & bit) DOEPINTx |= bit;` */
  method AckOut(p: Peripheral, ep: nat, flags: bv32, bit: bv32)
    modifies p`hw
    ensures p.hw == AckOutIf(old(p.hw), ep, flags, bit)
  {
    if Has(flags, bit) {
      p.hw := UpdateDoepint(p.hw, ep, Acknowledge(bit));
    }
  }

  /** usb_irq_handler: nothing without a driver instance; otherwise the handlers of the
      flags read from GINTSTS, in order, until one halts. Of the driver context only the
      setup packet can change: the compiled handlers never touch the device state, the
      address or the transmit buffer. */
  method IrqHandler(g: UsbGlobals, p: Peripheral) returns (outcome: Outcome)
    requires p.Valid()
    requires g.instance != null ==> IrqReady(p.hw)
    modifies p`hw, p`ahbBusyPolls, p`txFlush, p`rxFlush, p`flushPolls, g.instance
    ensures p.Valid()
    ensures g.instance == null ==> p.hw == old(p.hw) && outcome == Completed
    ensures g.instance != null ==>
              Step(p.hw, g.instance.setupPacket, outcome) == IrqSpec(old(p.hw), old(g.instance.setupPacket))
    ensures g.instance != null ==>
              g.instance.state == old(g.instance.state)
              && g.instance.deviceAddress == old(g.instance.deviceAddress)
              && g.instance.ep0TxBuf == old(g.instance.ep0TxBuf)
              && g.instance.ep0TxBufLen == old(g.instance.ep0TxBufLen)
  {
    var d := g.GetInstance();
    if d == null {
      return Completed;
    }
    var sts := p.hw.global.gintsts;
    BusPhase(p, sts);
    if Has(sts, GINTSTS_RXFLVL) {
      outcome := RxflvlHandler(p, d);
      if outcome == Halted {
        return;
      }
    }
    PowerPhase(p, sts);
    if Has(sts, GINTSTS_MMIS) {
      p.hw := UpdateGintsts(p.hw, Acknowledge(GINTSTS_MMIS));
      return Halted;
    }
    outcome := EndpointPhase(p, d, sts);
  }

  /** The endpoint part of usb_irq_handler. */
  method EndpointPhase(p: Peripheral, d: Driver, sts: bv32) returns (outcome: Outcome)
    requires Has(sts, GINTSTS_OEPINT) ==> OutEndpointHalf(p.hw) != 0
    requires Has(sts, GINTSTS_IEPINT) ==> InEndpointHalf(p.hw) != 0
    modifies p`hw
    ensures Effect(p.hw, outcome) == EndpointEvents(sts, old(p.hw), d.setupPacket)
  {
    if Has(sts, GINTSTS_OEPINT) {
      outcome := OepintHandler(p, d);
      if outcome == Halted {
        return;
      }
    }
    if Has(sts, GINTSTS_IEPINT) {
      IepintHandler(p);
    }
    if Has(p.hw.global.gotgint, GOTGINT_SEDET) {
      p.hw := UpdateGotgint(p.hw, Acknowledge(GOTGINT_SEDET));
    }
    outcome := Completed;
  }

  /** The bus-event part of usb_irq_handler. */
  method BusPhase(p: Peripheral, sts: bv32)
    requires p.Valid()
    modifies p`hw, p`ahbBusyPolls, p`txFlush, p`rxFlush, p`flushPolls
    ensures p.Valid()
    ensures p.hw == BusEvents(sts, old(p.hw))
  {
    ghost var s0 := p.hw;
    if Has(sts, GINTSTS_SRQINT) {
      SrqintHandler(p);
    }
    ghost var s1 := p.hw;
    assert s1 == if Has(sts, GINTSTS_SRQINT) then SrqintSpec(s0) else s0;
    if Has(sts, GINTSTS_USBRST) {
      UsbrstHandler(p);
    }
    ghost var s2 := p.hw;
    assert s2 == if Has(sts, GINTSTS_USBRST) then UsbrstSpec(s1) else s1;
    if Has(sts, GINTSTS_ENUMDNE) {
      EnumdneHandler(p);
    }
    assert p.hw == if Has(sts, GINTSTS_ENUMDNE) then EnumdneSpec(s2) else s2;
    if Has(sts, GINTSTS_SOF) {
      p.hw := UpdateGintsts(p.hw, Acknowledge(GINTSTS_SOF));
    }
  }

  /** The suspend and wakeup part of usb_irq_handler. */
  method PowerPhase(p: Peripheral, sts: bv32)
    modifies p`hw
    ensures p.hw == PowerEvents(sts, old(p.hw))
  {
    if Has(sts, GINTSTS_ESUSP) {
      p.hw := UpdateGintsts(p.hw, Acknowledge(GINTSTS_ESUSP));
    }
    if Has(sts, GINTSTS_USBSUSP) {
      p.hw := UpdateGintsts(p.hw, Acknowledge(GINTSTS_USBSUSP));
    }
    if Has(sts, GINTSTS_WKUINT) {
      p.hw := UpdateGintsts(p.hw, Acknowledge(GINTSTS_WKUINT));
    }
  }
}
