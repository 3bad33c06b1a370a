/** What the interrupt service routine guarantees, proved about its specification
    functions: which interrupt flags the dispatcher acknowledges, what a bus reset and the
    end of enumeration leave in the endpoint 0 registers, how a receive status word is
    decoded and a SETUP packet copied, which endpoint flags are cleared, and what the two
    standard requests the driver serves reply. */
module UsbIsrProperties {
  import opened LittleEndian
  import opened UsbTypes
  import opened UsbInternal
  import opened UsbDesc
  import opened Otg
  import opened Usb
  import opened UsbIsr

  // ---------------------------------------------------------------------------------
  // Acknowledged interrupt flags

  const BusBits: bv32 := GINTSTS_SRQINT | GINTSTS_USBRST | GINTSTS_ENUMDNE | GINTSTS_SOF
  const PowerBits: bv32 := GINTSTS_ESUSP | GINTSTS_USBSUSP | GINTSTS_WKUINT
  const EndpointBits: bv32 := GINTSTS_OEPINT | GINTSTS_IEPINT

  /** Each bus-event handler acknowledges its own flag in GINTSTS and no other, and runs
      only when its flag was read. */
  lemma SrqintStep(sts: bv32, s: OtgState)
    ensures (if Has(sts, GINTSTS_SRQINT) then SrqintSpec(s) else s).global.gintsts ==
            AckIf(s.global.gintsts, sts, GINTSTS_SRQINT)
  {}

  lemma UsbrstStep(sts: bv32, s: OtgState)
    ensures (if Has(sts, GINTSTS_USBRST) then UsbrstSpec(s) else s).global.gintsts ==
            AckIf(s.global.gintsts, sts, GINTSTS_USBRST)
  {}

  lemma EnumdneStep(sts: bv32, s: OtgState)
    ensures (if Has(sts, GINTSTS_ENUMDNE) then EnumdneSpec(s) else s).global.gintsts ==
            AckIf(s.global.gintsts, sts, GINTSTS_ENUMDNE)
  {}

  /** The bus-event dispatch, seen from GINTSTS: each flag read is acknowledged in turn. */
  lemma BusEventsGintsts(sts: bv32, s: OtgState)
    ensures BusEvents(sts, s).global.gintsts ==
            AckIf(AckIf(AckIf(AckIf(s.global.gintsts, sts, GINTSTS_SRQINT), sts, GINTSTS_USBRST),
                        sts, GINTSTS_ENUMDNE), sts, GINTSTS_SOF)
  {
    var s1 := if Has(sts, GINTSTS_SRQINT) then SrqintSpec(s) else s;
    var s2 := if Has(sts, GINTSTS_USBRST) then UsbrstSpec(s1) else s1;
    SrqintStep(sts, s);
    UsbrstStep(sts, s1);
    EnumdneStep(sts, s2);
  }

  /** Four one-bit flags acknowledged in turn, each only if it was read, are the flags read
      among the four, cleared at once. */
  lemma AckFourIfRead(x: bv32, sts: bv32)
    ensures AckIf(AckIf(AckIf(AckIf(x, sts, GINTSTS_SRQINT), sts, GINTSTS_USBRST), sts, GINTSTS_ENUMDNE),
                  sts, GINTSTS_SOF) == x & !(sts & BusBits)
  {}

  /** The bus-event handlers acknowledge exactly the bus flags that were read. */
  lemma BusEventsAcknowledge(sts: bv32, s: OtgState)
    ensures BusEvents(sts, s).global.gintsts == s.global.gintsts & !(sts & BusBits)
  {
    BusEventsGintsts(sts, s);
    AckFourIfRead(s.global.gintsts, sts);
  }

  /** The suspend and wakeup flags that were read are acknowledged, and no other. */
  lemma PowerEventsAcknowledge(sts: bv32, s: OtgState)
    ensures PowerEvents(sts, s).global.gintsts == s.global.gintsts & !(sts & PowerBits)
  {}

  /** A completed RXFLVL handler acknowledges RXFLVL and no other flag. */
  lemma RxflvlAcknowledges(s: OtgState, setup: Packet8)
    requires RxReady(s)
    ensures RxflvlSpec(s, setup).outcome == Completed ==>
              RxflvlSpec(s, setup).hw.global.gintsts == Ack(s.global.gintsts, GINTSTS_RXFLVL)
  {
    var masked := UpdateGintmsk(s, ClearBits(GINTMSK_RXFLVLM));
    var popped := masked.(rxStatus := masked.rxStatus[1..]);
    var e := DecodeRxStatus(masked.rxStatus[0]);
    if e.status == SetupUpdate && e.ep == 0 && e.byteCount == 8 {
      RxflvlDoneAcknowledges(popped.(rxData := popped.rxData[2..]));
    } else {
      RxflvlDoneAcknowledges(popped);
    }
  }

  /** The end of the RXFLVL handler acknowledges RXFLVL and no other flag. */
  lemma RxflvlDoneAcknowledges(s: OtgState)
    ensures RxflvlDone(s).global.gintsts == Ack(s.global.gintsts, GINTSTS_RXFLVL)
  {}

  /** Serving a SETUP packet writes no core global register. */
  lemma StupKeepsGlobals(s: OtgState, setup: Packet8)
    ensures StupSpec(s, setup).hw.global == s.global
  {}

  /** A completed OEPINT handler acknowledges OEPINT and no other GINTSTS flag. */
  lemma OepintAcknowledges(s: OtgState, setup: Packet8)
    requires OutEndpointHalf(s) != 0
    ensures OepintSpec(s, setup).outcome == Completed ==>
              OepintSpec(s, setup).hw.global.gintsts == Ack(s.global.gintsts, GINTSTS_OEPINT)
  {
    var ep := Ctz(OutEndpointHalf(s));
    var flags := s.Out(ep).intr;
    var s2 := AckOutIf(AckOutIf(s, ep, flags, DOEPINT_XFRC), ep, flags, DOEPINT_EPDISD);
    StupKeepsGlobals(s2, setup);
  }

  /** The IEPINT handler acknowledges IEPINT and no other GINTSTS flag. */
  lemma IepintAcknowledges(s: OtgState)
    requires InEndpointHalf(s) != 0
    ensures IepintSpec(s).global.gintsts == Ack(s.global.gintsts, GINTSTS_IEPINT)
  {}

  /** The OEPINT step of the dispatcher, seen from GINTSTS and DAINT. */
  lemma OutStep(sts: bv32, s: OtgState, setup: Packet8)
    requires Has(sts, GINTSTS_OEPINT) ==> OutEndpointHalf(s) != 0
    ensures var out := if Has(sts, GINTSTS_OEPINT) then OepintSpec(s, setup) else Effect(s, Completed);
            && out.hw.device.daint == s.device.daint
            && (out.outcome == Completed ==> out.hw.global.gintsts == AckIf(s.global.gintsts, sts, GINTSTS_OEPINT))
  {
    if Has(sts, GINTSTS_OEPINT) {
      OepintAcknowledges(s, setup);
    }
  }

  /** The IEPINT step of the dispatcher, seen from GINTSTS. */
  lemma InStep(sts: bv32, s: OtgState)
    requires Has(sts, GINTSTS_IEPINT) ==> InEndpointHalf(s) != 0
    ensures (if Has(sts, GINTSTS_IEPINT) then IepintSpec(s) else s).global.gintsts ==
            AckIf(s.global.gintsts, sts, GINTSTS_IEPINT)
  {
    if Has(sts, GINTSTS_IEPINT) {
      IepintAcknowledges(s);
    }
  }

  /** Acknowledging a session end touches GOTGINT only. */
  lemma SessionEndKeepsGintsts(s: OtgState)
    ensures SessionEnd(s).global.gintsts == s.global.gintsts
  {}

  /** OEPINT and IEPINT acknowledged in turn, each only if read. */
  lemma AckTwoIfRead(x: bv32, sts: bv32)
    ensures AckIf(AckIf(x, sts, GINTSTS_OEPINT), sts, GINTSTS_IEPINT) == x & !(sts & EndpointBits)
  {}

  /** The endpoint phase of the dispatcher completes only if its OEPINT step does, and then
      ends with its IEPINT step and the session-end check. */
  lemma EndpointEventsShape(sts: bv32, s: OtgState, setup: Packet8)
    requires Has(sts, GINTSTS_OEPINT) ==> OutEndpointHalf(s) != 0
    requires Has(sts, GINTSTS_IEPINT) ==> InEndpointHalf(s) != 0
    ensures var out := if Has(sts, GINTSTS_OEPINT) then OepintSpec(s, setup) else Effect(s, Completed);
            EndpointEvents(sts, s, setup).outcome == Completed ==>
              && out.outcome == Completed
              && InEndpointHalf(out.hw) == InEndpointHalf(s)
              && EndpointEvents(sts, s, setup).hw ==
                 SessionEnd(if Has(sts, GINTSTS_IEPINT) then IepintSpec(out.hw) else out.hw)
  {}

  /** The endpoint handlers, when they complete, acknowledge exactly the endpoint flags
      that were read. */
  lemma EndpointEventsAcknowledge(sts: bv32, s: OtgState, setup: Packet8)
    requires Has(sts, GINTSTS_OEPINT) ==> OutEndpointHalf(s) != 0
    requires Has(sts, GINTSTS_IEPINT) ==> InEndpointHalf(s) != 0
    ensures EndpointEvents(sts, s, setup).outcome == Completed ==>
              EndpointEvents(sts, s, setup).hw.global.gintsts == s.global.gintsts & !(sts & EndpointBits)
  {
    EndpointEventsShape(sts, s, setup);
    var out := if Has(sts, GINTSTS_OEPINT) then OepintSpec(s, setup) else Effect(s, Completed);
    OutStep(sts, s, setup);
    if EndpointEvents(sts, s, setup).outcome == Completed {
      var inp := if Has(sts, GINTSTS_IEPINT) then IepintSpec(out.hw) else out.hw;
      SessionEndKeepsGintsts(inp);
      InStep(sts, out.hw);
      AckTwoIfRead(s.global.gintsts, sts);
    }
  }

  /** A dispatch that completes acknowledges every flag it read and has a handler for, and
      leaves every other flag pending. */
  lemma CompletedDispatchAcknowledges(s: OtgState, setup: Packet8)
    requires IrqReady(s)
    ensures IrqSpec(s, setup).outcome == Completed ==>
              IrqSpec(s, setup).hw.global.gintsts == s.global.gintsts & !HandledBits
  {
    var sts := s.global.gintsts;
    var bus := BusEvents(sts, s);
    BusEventsAcknowledge(sts, s);
    var rx := if Has(sts, GINTSTS_RXFLVL) then RxflvlSpec(bus, setup) else Step(bus, setup, Completed);
    if Has(sts, GINTSTS_RXFLVL) {
      RxflvlAcknowledges(bus, setup);
    }
    if rx.outcome == Completed && !Has(sts, GINTSTS_MMIS) {
      var power := PowerEvents(sts, rx.hw);
      PowerEventsAcknowledge(sts, rx.hw);
      EndpointEventsAcknowledge(sts, power, rx.setup);
    }
  }

  /** With nothing pending in GINTSTS and no session end, the dispatcher writes nothing. */
  lemma QuietInterrupt(s: OtgState, setup: Packet8)
    requires s.global.gintsts == 0 && !Has(s.global.gotgint, GOTGINT_SEDET)
    ensures IrqReady(s)
    ensures IrqSpec(s, setup) == Step(s, setup, Completed)
  {}

  /** A mode mismatch is fatal: the dispatch halts whenever MMIS was read. When the
      receive step completed, MMIS has been acknowledged and the endpoint handlers have
      not run, so their flags are still pending. */
  lemma ModeMismatchIsFatal(s: OtgState, setup: Packet8)
    requires IrqReady(s) && Has(s.global.gintsts, GINTSTS_MMIS)
    ensures IrqSpec(s, setup).outcome == Halted
    ensures var sts := s.global.gintsts;
            var bus := BusEvents(sts, s);
            (if Has(sts, GINTSTS_RXFLVL) then RxflvlSpec(bus, setup) else Step(bus, setup, Completed)).outcome == Completed ==>
              var g := IrqSpec(s, setup).hw.global.gintsts;
              !Has(g, GINTSTS_MMIS) && g & EndpointBits == sts & EndpointBits
  {
    var sts := s.global.gintsts;
    var bus := BusEvents(sts, s);
    BusEventsAcknowledge(sts, s);
    var rx := if Has(sts, GINTSTS_RXFLVL) then RxflvlSpec(bus, setup) else Step(bus, setup, Completed);
    if Has(sts, GINTSTS_RXFLVL) {
      RxflvlAcknowledges(bus, setup);
    }
    if rx.outcome == Completed {
      PowerEventsAcknowledge(sts, rx.hw);
    }
  }

  /** The other case: when the receive handler halts first (a bad SETUP), the dispatch
      stops there and MMIS is never acknowledged, so it stays pending. */
  lemma ReceiveHaltLeavesModeMismatch(s: OtgState, setup: Packet8)
    requires IrqReady(s) && Has(s.global.gintsts, GINTSTS_MMIS) && Has(s.global.gintsts, GINTSTS_RXFLVL)
    requires RxflvlSpec(BusEvents(s.global.gintsts, s), setup).outcome == Halted
    ensures IrqSpec(s, setup).outcome == Halted
    ensures Has(IrqSpec(s, setup).hw.global.gintsts, GINTSTS_MMIS)
  {
    BusEventsAcknowledge(s.global.gintsts, s);
  }

  // ---------------------------------------------------------------------------------
  // Bus reset and end of enumeration

  /** After a bus reset the device answers at address 0, the transmit FIFO is empty, EP0
      OUT is set up for SETUP packets and NAKs, neither EP0 direction is stalled, EP0's
      interrupt flags are cleared and unmasked, and USBRST is acknowledged. */
  lemma UsbResetPreparesEp0(s: OtgState)
    ensures var r := UsbrstSpec(s);
            && r.device.dcfg == s.device.dcfg & !DCFG_DAD
            && r.txFifo == []
            && r.Out(0).tsiz == s.Out(0).tsiz | Ep0SetupTransferSize
            && Has(r.Out(0).ctl, EPCTL_SNAK) && !Has(r.Out(0).ctl, EPCTL_STALL)
            && !Has(r.In(0).ctl, EPCTL_STALL)
            && r.In(0).intr & EpIntClearAll == 0 && r.Out(0).intr & EpIntClearAll == 0
            && r.device.daintmsk & Ep0Interrupts == Ep0Interrupts
            && r.global.gintsts == Ack(s.global.gintsts, GINTSTS_USBRST)
  {
    UsbResetDeviceRegisters(s);
    UsbResetOutEp0(s);
    UsbResetInEp0(s);
  }

  /** A bus reset forgets the address, empties the transmit FIFO, unmasks EP0's
      interrupts and acknowledges USBRST. */
  lemma UsbResetDeviceRegisters(s: OtgState)
    ensures var r := UsbrstSpec(s);
            && r.device.dcfg == s.device.dcfg & !DCFG_DAD
            && r.txFifo == []
            && r.device.daintmsk & Ep0Interrupts == Ep0Interrupts
            && r.global.gintsts == Ack(s.global.gintsts, GINTSTS_USBRST)
  {}

  /** A bus reset prepares EP0 OUT for SETUP packets, NAKs it, clears its STALL and
      its interrupt flags. */
  lemma UsbResetOutEp0(s: OtgState)
    ensures var r := UsbrstSpec(s).Out(0);
            && r.tsiz == s.Out(0).tsiz | Ep0SetupTransferSize
            && Has(r.ctl, EPCTL_SNAK) && !Has(r.ctl, EPCTL_STALL)
            && r.intr & EpIntClearAll == 0
  {}

  /** A bus reset clears EP0 IN's STALL and its interrupt flags. */
  lemma UsbResetInEp0(s: OtgState)
    ensures var r := UsbrstSpec(s).In(0);
            && !Has(r.ctl, EPCTL_STALL)
            && r.intr & EpIntClearAll == 0
  {}

  /** After the end of enumeration exactly EP0's interrupts are unmasked, both EP0
      directions are active with a 64-byte maximum packet size (MPSIZ 0), the command bit
      DCTL.CGINAK (clear global IN NAK) is set, and ENUMDNE is acknowledged. */
  lemma EnumerationDoneActivatesEp0(s: OtgState)
    ensures var r := EnumdneSpec(s);
            && r.device.daintmsk == Ep0Interrupts
            && r.In(0).ctl & EPCTL_MPSIZ == 0 && Has(r.In(0).ctl, EPCTL_USBAEP)
            && r.Out(0).ctl & EPCTL_MPSIZ == 0 && Has(r.Out(0).ctl, EPCTL_USBAEP)
            && Has(r.device.dctl, DCTL_CGINAK)
            && r.global.gintsts == Ack(s.global.gintsts, GINTSTS_ENUMDNE)
  {}

  /** Once enumeration is done, usb_write_fifo accepts a zero-length status packet. */
  lemma EnumerationDoneEnablesReplies(s: OtgState)
    ensures WriteAccepted(EnumdneSpec(s), 0)
  {
    EnumerationDoneActivatesEp0(s);
    WriteFifoZeroLength(EnumdneSpec(s), []);
  }

  // ---------------------------------------------------------------------------------
  // Receive status words and SETUP packets

  /** The status word the core pushes for an event (the frame number bits left zero). */
  function EncodeRxStatus(e: RxEvent): bv32
  {
    (RxStatusCode(e.status) << GRXSTSP_PKTSTS_Pos) | (e.byteCount << GRXSTSP_BCNT_Pos) |
    e.ep | (e.dataPid << GRXSTSP_DPID_Pos)
  }

  /** Each field fits its place in the status word, and an unnamed status has a code no
      name claims. */
  predicate RxEventFits(e: RxEvent)
  {
    && RxStatusCode(e.status) < 16
    && (e.status.OtherStatus? ==> !IsNamedRxStatusCode(e.status.code))
    && e.byteCount < 0x800 && e.ep < 16 && e.dataPid < 4
  }

  /** The four fields placed in a status word are read back unchanged. */
  lemma StatusWordFields(code: bv32, count: bv32, ep: bv32, pid: bv32)
    requires code < 16 && count < 0x800 && ep < 16 && pid < 4
    ensures var w := (code << GRXSTSP_PKTSTS_Pos) | (count << GRXSTSP_BCNT_Pos) | ep | (pid << GRXSTSP_DPID_Pos);
            && (w & GRXSTSP_PKTSTS) >> GRXSTSP_PKTSTS_Pos == code
            && (w & GRXSTSP_BCNT) >> GRXSTSP_BCNT_Pos == count
            && w & GRXSTSP_EPNUM == ep
            && (w & GRXSTSP_DPID) >> GRXSTSP_DPID_Pos == pid
  {}

  /** A word assembled from four fitting fields decodes to those fields. */
  lemma DecodeAssembledWord(code: bv32, count: bv32, ep: bv32, pid: bv32)
    requires code < 16 && count < 0x800 && ep < 16 && pid < 4
    ensures DecodeRxStatus((code << GRXSTSP_PKTSTS_Pos) | (count << GRXSTSP_BCNT_Pos) | ep |
                           (pid << GRXSTSP_DPID_Pos)) == RxEvent(RxStatusOf(code), count, ep, pid)
  {
    StatusWordFields(code, count, ep, pid);
  }

  /** A status whose code no other name claims decodes from its code back to itself. */
  lemma StatusDecodesToItself(st: RxPacketStatus)
    requires st.OtherStatus? ==> !IsNamedRxStatusCode(st.code)
    ensures RxStatusOf(RxStatusCode(st)) == st
  {
    if !st.OtherStatus? {
      RxStatusCodes(st, 0);
    }
  }

  /** Decoding the status word the core pushed gives back the event. */
  lemma RxStatusRoundTrip(e: RxEvent)
    requires RxEventFits(e)
    ensures DecodeRxStatus(EncodeRxStatus(e)) == e
  {
    DecodeAssembledWord(RxStatusCode(e.status), e.byteCount, e.ep, e.dataPid);
    StatusDecodesToItself(e.status);
  }

  /** Every bit of a status word but the frame number reaches exactly one field. */
  lemma RxStatusFieldsCoverWord(w: bv32)
    ensures EncodeRxStatus(DecodeRxStatus(w)) ==
            w & (GRXSTSP_PKTSTS | GRXSTSP_BCNT | GRXSTSP_EPNUM | GRXSTSP_DPID)
  {}

  /** Whatever the status, exactly one status word is popped. */
  lemma RxflvlPopsOneStatus(s: OtgState, setup: Packet8)
    requires RxReady(s)
    ensures RxflvlSpec(s, setup).hw.rxStatus == s.rxStatus[1..]
  {}

  /** An accepted SETUP packet is copied: its two data words, in the order popped, become
      the driver's setup packet, whatever it held, and its fields are read from them. */
  lemma RxflvlCopiesSetup(s: OtgState, setup: Packet8)
    requires RxReady(s) && AcceptedSetup(DecodeRxStatus(s.rxStatus[0]))
    ensures var r := RxflvlSpec(s, setup);
            && r.outcome == Completed
            && r.setup == FromRawWords(s.rxData[0], s.rxData[1])
            && RawWords(r.setup) == s.rxData[..2]
            && r.hw.rxData == s.rxData[2..]
  {
    RawWordsRoundTrip(s.rxData[0], s.rxData[1], setup);
    assert s.rxData[..2] == [s.rxData[0], s.rxData[1]];
  }

  /** Every other status, named or not, pops no data and leaves the setup packet alone. */
  lemma RxflvlOtherStatus(s: OtgState, setup: Packet8)
    requires RxReady(s) && DecodeRxStatus(s.rxStatus[0]).status != SetupUpdate
    ensures var r := RxflvlSpec(s, setup);
            r.outcome == Completed && r.setup == setup && r.hw.rxData == s.rxData
  {}

  /** The handler halts exactly on a SETUP packet that is not eight bytes on endpoint 0. */
  lemma RxflvlHaltsOnBadSetup(s: OtgState, setup: Packet8)
    requires RxReady(s)
    ensures var e := DecodeRxStatus(s.rxStatus[0]);
            RxflvlSpec(s, setup).outcome == Halted <==> e.status == SetupUpdate && !AcceptedSetup(e)
  {}

  /** RXFLVL is unmasked when the handler completes, whatever the mask was on entry; no
      other interrupt mask bit changes. */
  lemma RxflvlUnmasks(s: OtgState, setup: Packet8)
    requires RxReady(s)
    ensures RxflvlSpec(s, setup).outcome == Completed ==>
              RxflvlSpec(s, setup).hw.global.gintmsk == s.global.gintmsk | GINTMSK_RXFLVLM
  {}

  /** A six-byte SETUP packet on endpoint 0 halts the driver. */
  lemma ShortSetupHalts(s: OtgState, setup: Packet8)
    requires |s.rxStatus| > 0
    requires s.rxStatus[0] == EncodeRxStatus(RxEvent(SetupUpdate, 6, 0, 0))
    ensures RxReady(s)
    ensures RxflvlSpec(s, setup).outcome == Halted
  {
    RxStatusRoundTrip(RxEvent(SetupUpdate, 6, 0, 0));
  }

  // ---------------------------------------------------------------------------------
  // Endpoint interrupts

  /** __builtin_ctz of a single pending endpoint is that endpoint. */
  lemma {:induction false} CtzOfOneEndpoint(k: bv32)
    requires k < 32
    ensures Ctz(1 << k) == k as nat
    decreases k
  {
    SingleBitFacts(k);
    if k > 0 {
      CtzOfOneEndpoint(k - 1);
    }
  }

  /** A single bit below bit 32 is not zero; above bit 0 it leaves bit 0 clear and moves
      down one place when shifted right. */
  lemma SingleBitFacts(k: bv32)
    requires k < 32
    ensures (1 as bv32) << k != 0
    ensures k > 0 ==> ((1 as bv32) << k) & 1 == 0
    ensures k > 0 ==> ((1 as bv32) << k) >> 1 == (1 as bv32) << (k - 1)
  {}

  /** usb_write_fifo writes no endpoint interrupt register. */
  lemma WriteFifoKeepsFlags(s: OtgState, src: seq<bv8>, len: nat, ep: nat)
    requires len <= |src| && len < TwoTo32
    ensures WriteFifoSpec(s, src, len).Out(ep).intr == s.Out(ep).intr
    ensures WriteFifoSpec(s, src, len).In(ep).intr == s.In(ep).intr
  {
    if WriteAccepted(s, len) {
      WriteFifoEnablesOut(s, src, len);
    }
  }

  /** GET_DESCRIPTOR writes no endpoint interrupt register. */
  lemma GetDescriptorKeepsFlags(s: OtgState, f: SetupFields, ep: nat)
    ensures GetDescriptorSpec(s, f).hw.Out(ep).intr == s.Out(ep).intr
    ensures GetDescriptorSpec(s, f).hw.In(ep).intr == s.In(ep).intr
  {
    DescriptorRequestKeepsFlags(s, DescriptorTypeOf(f.value >> 8), f.length as nat, ep);
  }

  /** Serving a known descriptor type and length writes no endpoint interrupt register. */
  lemma DescriptorRequestKeepsFlags(s: OtgState, t: DescriptorType, requested: nat, ep: nat)
    ensures DescriptorRequestSpec(s, t, requested).hw.Out(ep).intr == s.Out(ep).intr
    ensures DescriptorRequestSpec(s, t, requested).hw.In(ep).intr == s.In(ep).intr
  {
    var table := DescriptorTable(t);
    WriteFifoKeepsFlags(s, table, SentLength(|table|, requested), ep);
  }

  /** Serving a SETUP packet writes no endpoint interrupt register. */
  lemma StupKeepsEndpointFlags(s: OtgState, setup: Packet8, ep: nat)
    ensures StupSpec(s, setup).hw.Out(ep).intr == s.Out(ep).intr
    ensures StupSpec(s, setup).hw.In(ep).intr == s.In(ep).intr
  {
    var f := Fields(setup);
    match RequestOf(f.request)
    case SetAddress => SetAddressKeepsFlags(s, f, ep);
    case GetDescriptor => GetDescriptorKeepsFlags(s, f, ep);
    case _ =>
  }

  /** SET_ADDRESS writes no endpoint interrupt register. */
  lemma SetAddressKeepsFlags(s: OtgState, f: SetupFields, ep: nat)
    ensures SetAddressSpec(s, f).Out(ep).intr == s.Out(ep).intr
    ensures SetAddressSpec(s, f).In(ep).intr == s.In(ep).intr
  {
    ReplyAfterDcfgKeepsFlags(s, Widen(f.value) << DCFG_DAD_Pos, ep);
  }

  /** Setting DCFG bits and sending a zero-length reply writes no endpoint interrupt
      register. */
  lemma ReplyAfterDcfgKeepsFlags(s: OtgState, b: bv32, ep: nat)
    ensures WriteFifoSpec(UpdateDcfg(s, SetBits(b)), [], 0).Out(ep).intr == s.Out(ep).intr
    ensures WriteFifoSpec(UpdateDcfg(s, SetBits(b)), [], 0).In(ep).intr == s.In(ep).intr
  {
    WriteFifoKeepsFlags(UpdateDcfg(s, SetBits(b)), [], 0, ep);
  }

  /** Acknowledging one flag of an OUT endpoint, if it was read, on that endpoint. */
  lemma AckOutIfEffect(s: OtgState, ep: nat, flags: bv32, bit: bv32)
    ensures AckOutIf(s, ep, flags, bit).Out(ep).intr == AckIf(s.Out(ep).intr, flags, bit)
  {}

  /** Acknowledging one flag of an IN endpoint, if it was read: that endpoint's flags, and no
      OUT endpoint. */
  lemma AckInIfEffect(s: OtgState, ep: nat, flags: bv32, bit: bv32)
    ensures AckInIf(s, ep, flags, bit).In(ep).intr == AckIf(s.In(ep).intr, flags, bit)
    ensures AckInIf(s, ep, flags, bit).outEps == s.outEps
  {}

  // The endpoint flags the handlers acknowledge are single bits, numbered as in DIEPINTx
  // and DOEPINTx: acknowledging one only if it was read clears exactly the bit read.

  lemma AckIfBit0(y: bv32, flags: bv32)
    ensures AckIf(y, flags, 1) == y & !(flags & 1)
  {}

  lemma AckIfBit1(y: bv32, flags: bv32)
    ensures AckIf(y, flags, 2) == y & !(flags & 2)
  {}

  lemma AckIfBit3(y: bv32, flags: bv32)
    ensures AckIf(y, flags, 8) == y & !(flags & 8)
  {}

  lemma AckIfBit4(y: bv32, flags: bv32)
    ensures AckIf(y, flags, 0x10) == y & !(flags & 0x10)
  {}

  lemma AckIfBit6(y: bv32, flags: bv32)
    ensures AckIf(y, flags, 0x40) == y & !(flags & 0x40)
  {}

  lemma AckIfBit7(y: bv32, flags: bv32)
    ensures AckIf(y, flags, 0x80) == y & !(flags & 0x80)
  {}

  lemma AckIfBit11(y: bv32, flags: bv32)
    ensures AckIf(y, flags, 0x800) == y & !(flags & 0x800)
  {}

  lemma AckIfBit13(y: bv32, flags: bv32)
    ensures AckIf(y, flags, 0x2000) == y & !(flags & 0x2000)
  {}

  /** The five OUT endpoint flags the handler knows, each acknowledged if it was read. */
  lemma OutFlagChain(flags: bv32)
    ensures AckIf(AckIf(AckIf(AckIf(AckIf(flags, flags, DOEPINT_XFRC), flags, DOEPINT_EPDISD),
                              flags, DOEPINT_STUP), flags, DOEPINT_OTEPDIS), flags, DOEPINT_NAK)
            == flags & !OutHandledFlags
  {
    var y1 := flags & !(flags & 1);
    var y2 := y1 & !(flags & 2);
    var y3 := y2 & !(flags & 8);
    var y4 := y3 & !(flags & 0x10);
    AckIfBit0(flags, flags);
    AckIfBit1(y1, flags);
    AckIfBit3(y2, flags);
    AckIfBit4(y3, flags);
    AckIfBit13(y4, flags);
    OutMask(flags);
  }

  /** The five OUT flags cleared one by one are the handled OUT flags cleared at once. */
  lemma OutMask(flags: bv32)
    ensures flags & !(flags & 1) & !(flags & 2) & !(flags & 8) & !(flags & 0x10) & !(flags & 0x2000)
            == flags & !OutHandledFlags
  {}

  /** The last four IN endpoint flags, each acknowledged if it was read. */
  lemma InFlagChainHigh(y: bv32, flags: bv32)
    ensures AckIf(AckIf(AckIf(AckIf(y, flags, DIEPINT_INEPNE), flags, DIEPINT_TXFE),
              flags, DIEPINT_PKTDRPSTS), flags, DIEPINT_NAK)
            == y & !(flags & 0x40) & !(flags & 0x80) & !(flags & 0x800) & !(flags & 0x2000)
  {
    var y5 := y & !(flags & 0x40);
    var y6 := y5 & !(flags & 0x80);
    var y7 := y6 & !(flags & 0x800);
    AckIfBit6(y, flags);
    AckIfBit7(y5, flags);
    AckIfBit11(y6, flags);
    AckIfBit13(y7, flags);
  }

  /** The eight IN flags cleared one by one are the handled IN flags cleared at once. */
  lemma InMask(flags: bv32)
    ensures flags & !(flags & 1) & !(flags & 2) & !(flags & 8) & !(flags & 0x10) & !(flags & 0x40)
            & !(flags & 0x80) & !(flags & 0x800) & !(flags & 0x2000) == flags & !InHandledFlags
  {}

  /** The end of the OEPINT handler acknowledges OTEPDIS and NAK on the endpoint it served. */
  lemma OepintDoneFlags(s: OtgState, ep: nat, flags: bv32)
    ensures OepintDone(s, ep, flags).Out(ep).intr ==
            AckIf(AckIf(s.Out(ep).intr, flags, DOEPINT_OTEPDIS), flags, DOEPINT_NAK)
  {
    var s1 := AckOutIf(s, ep, flags, DOEPINT_OTEPDIS);
    AckOutIfEffect(s, ep, flags, DOEPINT_OTEPDIS);
    AckOutIfEffect(s1, ep, flags, DOEPINT_NAK);
  }

  /** The start of the OEPINT handler acknowledges XFRC and EPDISD on the endpoint it serves. */
  lemma OepintStartFlags(s: OtgState, ep: nat, flags: bv32)
    ensures AckOutIf(AckOutIf(s, ep, flags, DOEPINT_XFRC), ep, flags, DOEPINT_EPDISD).Out(ep).intr ==
            AckIf(AckIf(s.Out(ep).intr, flags, DOEPINT_XFRC), flags, DOEPINT_EPDISD)
  {
    AckOutIfEffect(s, ep, flags, DOEPINT_XFRC);
    AckOutIfEffect(AckOutIf(s, ep, flags, DOEPINT_XFRC), ep, flags, DOEPINT_EPDISD);
  }

  /** Without a SETUP phase the OEPINT handler clears the five flags it knows. */
  lemma OutFlagsWithoutSetup(s: OtgState, setup: Packet8)
    requires OutEndpointHalf(s) != 0
    requires !Has(s.Out(Ctz(OutEndpointHalf(s))).intr, DOEPINT_STUP)
    ensures var ep := Ctz(OutEndpointHalf(s));
            OepintSpec(s, setup).hw.Out(ep).intr == s.Out(ep).intr & !OutHandledFlags
  {
    OepintWithoutSetupShape(s, setup);
    var ep := Ctz(OutEndpointHalf(s));
    var flags := s.Out(ep).intr;
    var s2 := AckOutIf(AckOutIf(s, ep, flags, DOEPINT_XFRC), ep, flags, DOEPINT_EPDISD);
    OepintStartFlags(s, ep, flags);
    OepintDoneFlags(s2, ep, flags);
    OutFlagChain(flags);
  }

  /** Without a SETUP phase the OEPINT handler goes straight from its first two flags to its
      last two. */
  lemma OepintWithoutSetupShape(s: OtgState, setup: Packet8)
    requires OutEndpointHalf(s) != 0
    requires !Has(s.Out(Ctz(OutEndpointHalf(s))).intr, DOEPINT_STUP)
    ensures var ep := Ctz(OutEndpointHalf(s));
            var flags := s.Out(ep).intr;
            var s2 := AckOutIf(AckOutIf(s, ep, flags, DOEPINT_XFRC), ep, flags, DOEPINT_EPDISD);
            OepintSpec(s, setup) == Effect(OepintDone(s2, ep, flags), Completed)
  {}

  /** A completed OEPINT handler that served a SETUP phase did so on endpoint 0, and then
      acknowledged STUP before its last two flags. */
  lemma OepintAfterSetupShape(s: OtgState, setup: Packet8)
    requires OutEndpointHalf(s) != 0
    requires Has(s.Out(Ctz(OutEndpointHalf(s))).intr, DOEPINT_STUP)
    requires OepintSpec(s, setup).outcome == Completed
    ensures Ctz(OutEndpointHalf(s)) == 0
    ensures var flags := s.Out(0).intr;
            var s2 := AckOutIf(AckOutIf(s, 0, flags, DOEPINT_XFRC), 0, flags, DOEPINT_EPDISD);
            OepintSpec(s, setup).hw ==
              OepintDone(UpdateDoepint(StupSpec(s2, setup).hw, 0, Acknowledge(DOEPINT_STUP)), 0, flags)
  {}

  /** Serving a SETUP phase and then acknowledging STUP leaves endpoint 0's other flags. */
  lemma SetupThenAckStup(s2: OtgState, setup: Packet8)
    ensures UpdateDoepint(StupSpec(s2, setup).hw, 0, Acknowledge(DOEPINT_STUP)).Out(0).intr ==
            Ack(s2.Out(0).intr, DOEPINT_STUP)
  {
    StupKeepsEndpointFlags(s2, setup, 0);
  }

  /** After a SETUP phase served on endpoint 0 the OEPINT handler has cleared the five flags
      it knows. */
  lemma OutFlagsAfterSetup(s: OtgState, setup: Packet8)
    requires OutEndpointHalf(s) != 0
    requires Has(s.Out(Ctz(OutEndpointHalf(s))).intr, DOEPINT_STUP)
    requires OepintSpec(s, setup).outcome == Completed
    ensures var ep := Ctz(OutEndpointHalf(s));
            OepintSpec(s, setup).hw.Out(ep).intr == s.Out(ep).intr & !OutHandledFlags
  {
    OepintAfterSetupShape(s, setup);
    var flags := s.Out(0).intr;
    var s2 := AckOutIf(AckOutIf(s, 0, flags, DOEPINT_XFRC), 0, flags, DOEPINT_EPDISD);
    OepintStartFlags(s, 0, flags);
    SetupThenAckStup(s2, setup);
    var s3 := UpdateDoepint(StupSpec(s2, setup).hw, 0, Acknowledge(DOEPINT_STUP));
    assert s3.Out(0).intr == AckIf(s2.Out(0).intr, flags, DOEPINT_STUP);
    OepintDoneFlags(s3, 0, flags);
    OutFlagChain(flags);
  }

  /** A completed OEPINT handler has cleared every flag it knows on the endpoint it served
      and left the others set. */
  lemma OutFlagsAcknowledged(s: OtgState, setup: Packet8)
    requires OutEndpointHalf(s) != 0
    ensures var ep := Ctz(OutEndpointHalf(s));
            OepintSpec(s, setup).outcome == Completed ==>
              OepintSpec(s, setup).hw.Out(ep).intr == s.Out(ep).intr & !OutHandledFlags
  {
    if Has(s.Out(Ctz(OutEndpointHalf(s))).intr, DOEPINT_STUP) {
      if OepintSpec(s, setup).outcome == Completed {
        OutFlagsAfterSetup(s, setup);
      }
    } else {
      OutFlagsWithoutSetup(s, setup);
    }
  }

  /** A SETUP phase reported on any endpoint but 0 halts the driver. */
  lemma SetupOnlyOnEndpointZero(s: OtgState, setup: Packet8)
    requires OutEndpointHalf(s) != 0
    requires Ctz(OutEndpointHalf(s)) != 0
    requires Has(s.Out(Ctz(OutEndpointHalf(s))).intr, DOEPINT_STUP)
    ensures OepintSpec(s, setup).outcome == Halted
  {}

  /** The last seven acknowledgements of the IEPINT handler, one flag each. */
  function InLaterAcks(s1: OtgState, ep: nat, flags: bv32): OtgState
  {
    var s2 := AckInIf(s1, ep, flags, DIEPINT_EPDISD);
    var s3 := AckInIf(s2, ep, flags, DIEPINT_TOC);
    var s4 := AckInIf(s3, ep, flags, DIEPINT_ITTXFE);
    var s5 := AckInIf(s4, ep, flags, DIEPINT_INEPNE);
    var s6 := AckInIf(s5, ep, flags, DIEPINT_TXFE);
    var s7 := AckInIf(s6, ep, flags, DIEPINT_PKTDRPSTS);
    AckInIf(s7, ep, flags, DIEPINT_NAK)
  }

  /** The IEPINT handler is its transfer-complete branch followed by the seven later
      acknowledgements, on the endpoint DAINT names and with the flags read from it. */
  lemma IepintShape(s: OtgState)
    requires InEndpointHalf(s) != 0
    ensures var ep := Ctz(InEndpointHalf(s));
            var acked := UpdateGintsts(s, Acknowledge(GINTSTS_IEPINT));
            acked.In(ep) == s.In(ep) && acked.Out(ep) == s.Out(ep) &&
            IepintSpec(s) == InLaterAcks(InTransferDone(acked, ep, s.In(ep).intr), ep, s.In(ep).intr)
  {
    var acked := UpdateGintsts(s, Acknowledge(GINTSTS_IEPINT));
    assert InEndpointHalf(acked) == InEndpointHalf(s);
  }

  /** The transfer-complete branch acknowledges XFRC if it was read, and arms the OUT endpoint
      of the same number for one packet exactly then. */
  lemma InTransferDoneEffect(s: OtgState, ep: nat)
    ensures InTransferDone(s, ep, s.In(ep).intr).In(ep).intr == AckIf(s.In(ep).intr, s.In(ep).intr, DIEPINT_XFRC)
    ensures InTransferDone(s, ep, s.In(ep).intr).Out(ep).tsiz ==
              if Has(s.In(ep).intr, DIEPINT_XFRC) then s.Out(ep).tsiz | (1 << EPTSIZ_PKTCNT_Pos)
              else s.Out(ep).tsiz
  {}

  /** The seven later acknowledgements touch the IN endpoint's flags only, one flag each. */
  lemma InLaterAcksEffect(s1: OtgState, ep: nat, flags: bv32)
    ensures InLaterAcks(s1, ep, flags).outEps == s1.outEps
    ensures InLaterAcks(s1, ep, flags).In(ep).intr ==
            AckIf(AckIf(AckIf(AckIf(AckIf(AckIf(AckIf(s1.In(ep).intr,
              flags, DIEPINT_EPDISD), flags, DIEPINT_TOC), flags, DIEPINT_ITTXFE), flags, DIEPINT_INEPNE),
              flags, DIEPINT_TXFE), flags, DIEPINT_PKTDRPSTS), flags, DIEPINT_NAK)
  {
    var s2 := AckInIf(s1, ep, flags, DIEPINT_EPDISD);
    AckInIfEffect(s1, ep, flags, DIEPINT_EPDISD);
    var s3 := AckInIf(s2, ep, flags, DIEPINT_TOC);
    AckInIfEffect(s2, ep, flags, DIEPINT_TOC);
    var s4 := AckInIf(s3, ep, flags, DIEPINT_ITTXFE);
    AckInIfEffect(s3, ep, flags, DIEPINT_ITTXFE);
    var s5 := AckInIf(s4, ep, flags, DIEPINT_INEPNE);
    AckInIfEffect(s4, ep, flags, DIEPINT_INEPNE);
    var s6 := AckInIf(s5, ep, flags, DIEPINT_TXFE);
    AckInIfEffect(s5, ep, flags, DIEPINT_TXFE);
    var s7 := AckInIf(s6, ep, flags, DIEPINT_PKTDRPSTS);
    AckInIfEffect(s6, ep, flags, DIEPINT_PKTDRPSTS);
    AckInIfEffect(s7, ep, flags, DIEPINT_NAK);
  }

  /** The IEPINT handler clears every flag it knows on the endpoint it served and leaves
      the others set. */
  lemma InFlagsAcknowledged(s: OtgState, ep: nat)
    requires InEndpointHalf(s) != 0 && ep == Ctz(InEndpointHalf(s))
    ensures IepintSpec(s).In(ep).intr == s.In(ep).intr & !InHandledFlags
  {
    var flags := s.In(ep).intr;
    var acked := UpdateGintsts(s, Acknowledge(GINTSTS_IEPINT));
    IepintShape(s);
    var x := InTransferDone(acked, ep, flags);
    InTransferDoneClears(acked, ep);
    InLaterAcksClear(x, ep, flags);
    InMask(flags);
  }

  /** The transfer-complete branch clears XFRC if it was read. */
  lemma InTransferDoneClears(s: OtgState, ep: nat)
    ensures InTransferDone(s, ep, s.In(ep).intr).In(ep).intr == s.In(ep).intr & !(s.In(ep).intr & 1)
  {
    InTransferDoneEffect(s, ep);
    AckIfBit0(s.In(ep).intr, s.In(ep).intr);
  }

  /** The seven later acknowledgements clear the seven other flags the handler knows, where
      they were read. */
  lemma InLaterAcksClear(s1: OtgState, ep: nat, flags: bv32)
    ensures InLaterAcks(s1, ep, flags).In(ep).intr ==
            s1.In(ep).intr & !(flags & 2) & !(flags & 8) & !(flags & 0x10) & !(flags & 0x40)
            & !(flags & 0x80) & !(flags & 0x800) & !(flags & 0x2000)
  {
    InLaterAcksEffect(s1, ep, flags);
    InLaterFlagChain(s1.In(ep).intr, flags);
  }

  /** The seven IN endpoint flags after XFRC, each acknowledged if it was read. */
  lemma InLaterFlagChain(y: bv32, flags: bv32)
    ensures AckIf(AckIf(AckIf(AckIf(AckIf(AckIf(AckIf(y,
              flags, DIEPINT_EPDISD), flags, DIEPINT_TOC), flags, DIEPINT_ITTXFE), flags, DIEPINT_INEPNE),
              flags, DIEPINT_TXFE), flags, DIEPINT_PKTDRPSTS), flags, DIEPINT_NAK)
            == y & !(flags & 2) & !(flags & 8) & !(flags & 0x10) & !(flags & 0x40)
               & !(flags & 0x80) & !(flags & 0x800) & !(flags & 0x2000)
  {
    var y2 := y & !(flags & 2);
    var y3 := y2 & !(flags & 8);
    AckIfBit1(y, flags);
    AckIfBit3(y2, flags);
    AckIfBit4(y3, flags);
    InFlagChainHigh(y3 & !(flags & 0x10), flags);
  }

  /** A completed IN transfer arms the OUT endpoint of the same number for one more packet;
      otherwise that endpoint's transfer size is left alone. */
  lemma InCompletionRearmsOut(s: OtgState)
    requires InEndpointHalf(s) != 0
    ensures var ep := Ctz(InEndpointHalf(s));
            IepintSpec(s).Out(ep).tsiz ==
              if Has(s.In(ep).intr, DIEPINT_XFRC) then s.Out(ep).tsiz | (1 << EPTSIZ_PKTCNT_Pos)
              else s.Out(ep).tsiz
  {
    var ep := Ctz(InEndpointHalf(s));
    var flags := s.In(ep).intr;
    var acked := UpdateGintsts(s, Acknowledge(GINTSTS_IEPINT));
    IepintShape(s);
    InTransferDoneEffect(acked, ep);
    InLaterAcksEffect(InTransferDone(acked, ep, flags), ep, flags);
  }

  // ---------------------------------------------------------------------------------
  // Standard requests

  /** Every request but SET_ADDRESS and GET_DESCRIPTOR, named or not, writes nothing. */
  lemma OtherRequestsIgnored(s: OtgState, setup: Packet8)
    requires RequestOf(Fields(setup).request) != SetAddress
    requires RequestOf(Fields(setup).request) != GetDescriptor
    ensures StupSpec(s, setup) == Effect(s, Completed)
  {}

  /** The address field of DCFG, DAD. */
  function Address(dcfg: bv32): bv32
  {
    (dcfg & DCFG_DAD) >> DCFG_DAD_Pos
  }

  /** ORing a seven-bit address into a DCFG whose address field is 0 stores it there and
      leaves every other bit. */
  lemma OrAddressIntoCleared(dcfg: bv32, v: bv16)
    requires dcfg & DCFG_DAD == 0 && v < 128
    ensures Address(dcfg | (Widen(v) << DCFG_DAD_Pos)) == Widen(v)
    ensures (dcfg | (Widen(v) << DCFG_DAD_Pos)) & !DCFG_DAD == dcfg & !DCFG_DAD
  {}

  /** SET_ADDRESS changes DCFG by ORing wValue, shifted to the address field, into it; a
      wValue of 128 or more also reaches the DCFG bits above the field. SetAddressState
      gives the whole new state. */
  lemma SetAddressDcfg(s: OtgState, f: SetupFields)
    ensures SetAddressSpec(s, f).device.dcfg == s.device.dcfg | (Widen(f.value) << DCFG_DAD_Pos)
  {}

  /** SET_ADDRESS after a bus reset (address field 0) stores an address of seven bits in
      DCFG.DAD and leaves DCFG's other bits alone (section 9.4.6 of USB 2.0). */
  lemma SetAddressAfterReset(s: OtgState, f: SetupFields)
    requires s.device.dcfg & DCFG_DAD == 0 && f.value < 128
    ensures var r := SetAddressSpec(s, f);
            && Address(r.device.dcfg) == Widen(f.value)
            && r.device.dcfg & !DCFG_DAD == s.device.dcfg & !DCFG_DAD
  {
    SetAddressDcfg(s, f);
    OrAddressIntoCleared(s.device.dcfg, f.value);
  }

  /** With EP0 IN active, SET_ADDRESS queues exactly one zero-length status packet and
      pushes nothing into the FIFO. */
  lemma SetAddressSendsZeroLengthPacket(s: OtgState, f: SetupFields)
    requires Has(s.In(0).ctl, EPCTL_USBAEP)
    ensures SetAddressSpec(s, f).txFifo == s.txFifo
    ensures SetAddressSpec(s, f).In(0).tsiz == 0x8_0000
  {
    var addressed := UpdateDcfg(s, SetBits(Widen(f.value) << DCFG_DAD_Pos));
    assert addressed.In(0) == s.In(0) && addressed.txFifo == s.txFifo;
    WriteFifoZeroLength(addressed, []);
  }

  /** As written, SET_ADDRESS ORs the new address into the old one: a device at address 5
      told to move to address 10 answers at 15. */
  lemma SetAddressMergesAddresses(s: OtgState, f: SetupFields)
    requires Address(s.device.dcfg) == 5 && f.value == 10
    ensures Address(SetAddressSpec(s, f).device.dcfg) == 15
  {
    SetAddressDcfg(s, f);
  }

  /** The DCFG value SET_ADDRESS as section 9.4.6 of USB 2.0 intends it: the address field
      replaced by the new address. */
  function ReplaceAddress(dcfg: bv32, v: bv16): bv32
  {
    (dcfg & !DCFG_DAD) | ((Widen(v) << DCFG_DAD_Pos) & DCFG_DAD)
  }

  /** The corrected request: clear the address field, then set the new address in it. */
  function CorrectedSetAddressSpec(s: OtgState, f: SetupFields): OtgState
  {
    var cleared := UpdateDcfg(s, ClearBits(DCFG_DAD));
    WriteFifoSpec(UpdateDcfg(cleared, SetBits((Widen(f.value) << DCFG_DAD_Pos) & DCFG_DAD)), [], 0)
  }

  /** Replacing the address field stores a seven-bit address whatever was there. */
  lemma ReplaceAddressStores(dcfg: bv32, v: bv16)
    requires v < 128
    ensures Address(ReplaceAddress(dcfg, v)) == Widen(v)
  {}

  /** Replacing the address field keeps every other bit of DCFG. */
  lemma ReplaceAddressKeepsOthers(dcfg: bv32, v: bv16)
    ensures ReplaceAddress(dcfg, v) & !DCFG_DAD == dcfg & !DCFG_DAD
  {}

  /** When the address field is 0, replacing it and ORing into it agree. */
  lemma ReplaceAddressAfterReset(dcfg: bv32, v: bv16)
    requires dcfg & DCFG_DAD == 0 && v < 128
    ensures ReplaceAddress(dcfg, v) == dcfg | (Widen(v) << DCFG_DAD_Pos)
  {}

  /** The corrected request writes DCFG with its address field replaced, then sends the
      zero-length reply. */
  lemma CorrectedSetAddressState(s: OtgState, f: SetupFields)
    ensures CorrectedSetAddressSpec(s, f) ==
            WriteFifoSpec(UpdateDcfg(s, WriteValue(ReplaceAddress(s.device.dcfg, f.value))), [], 0)
  {
    DcfgClearSetWrites(s, DCFG_DAD, (Widen(f.value) << DCFG_DAD_Pos) & DCFG_DAD);
  }

  /** The request as written writes DCFG with the address ORed in, then sends the
      zero-length reply. */
  lemma SetAddressState(s: OtgState, f: SetupFields)
    ensures SetAddressSpec(s, f) ==
            WriteFifoSpec(UpdateDcfg(s, WriteValue(s.device.dcfg | (Widen(f.value) << DCFG_DAD_Pos))), [], 0)
  {
    SetAddressOrs(s, f);
    OrWrites(s, f.value);
  }

  /** SET_ADDRESS as written: set the shifted wValue in DCFG, then the zero-length reply. */
  lemma SetAddressOrs(s: OtgState, f: SetupFields)
    ensures SetAddressSpec(s, f) == WriteFifoSpec(UpdateDcfg(s, SetBits(Widen(f.value) << DCFG_DAD_Pos)), [], 0)
  {}

  /** Setting the address bits is writing DCFG with them ORed in. */
  lemma OrWrites(s: OtgState, v: bv16)
    ensures WriteFifoSpec(UpdateDcfg(s, SetBits(Widen(v) << DCFG_DAD_Pos)), [], 0) ==
            WriteFifoSpec(UpdateDcfg(s, WriteValue(s.device.dcfg | (Widen(v) << DCFG_DAD_Pos))), [], 0)
  {
    DcfgSetBitsWrites(s, Widen(v) << DCFG_DAD_Pos);
  }

  /** The zero-length reply leaves the DCFG value just written. */
  lemma ReplyKeepsDcfg(s: OtgState, x: bv32)
    ensures WriteFifoSpec(UpdateDcfg(s, WriteValue(x)), [], 0).device.dcfg == x
  {}

  /** The corrected request stores the address whatever address the device had, and keeps
      DCFG's other bits. */
  lemma CorrectedSetAddressStoresAddress(s: OtgState, f: SetupFields)
    requires f.value < 128
    ensures var r := CorrectedSetAddressSpec(s, f);
            && Address(r.device.dcfg) == Widen(f.value)
            && r.device.dcfg & !DCFG_DAD == s.device.dcfg & !DCFG_DAD
  {
    CorrectedSetAddressState(s, f);
    ReplyKeepsDcfg(s, ReplaceAddress(s.device.dcfg, f.value));
    ReplaceAddressStores(s.device.dcfg, f.value);
    ReplaceAddressKeepsOthers(s.device.dcfg, f.value);
  }

  /** After a bus reset (address field 0) the corrected request does what the code does. */
  lemma CorrectedAgreesAfterReset(s: OtgState, f: SetupFields)
    requires s.device.dcfg & DCFG_DAD == 0 && f.value < 128
    ensures CorrectedSetAddressSpec(s, f) == SetAddressSpec(s, f)
  {
    CorrectedSetAddressState(s, f);
    SetAddressState(s, f);
    ReplaceAddressAfterReset(s.device.dcfg, f.value);
  }

  /** The reply GET_DESCRIPTOR calls for (section 9.4.3 of USB 2.0): the bytes sent,
      nothing, or a failed assertion. */
  datatype Reply = Send(bytes: seq<bv8>) | Silent | AssertFailure

  /** The first min(wLength, |table|) bytes of a descriptor; nothing if that is none. */
  function Prefix(table: seq<bv8>, wLength: nat): (r: Reply)
    ensures r.Send? ==> 0 < |r.bytes| <= |table| && |r.bytes| <= wLength && r.bytes == table[..|r.bytes|]
    ensures r.Silent? <==> |table| == 0 || wLength == 0
    ensures !r.AssertFailure?
  {
    var n := if wLength < |table| then wLength else |table|;
    if n == 0 then Silent else Send(table[..n])
  }

  /** The reply, by descriptor type (wValue's high byte): the device descriptor for 1, the
      configuration descriptor for 2, cut to wLength; nothing for the other types the
      driver names, 3 .. 9; a failed assertion for any other type, 0x22 included. */
  function DescriptorReply(f: SetupFields): (r: Reply)
    ensures r.Send? ==> |r.bytes| <= |ConfigurationDescriptor|
  {
    var code := f.value >> 8;
    if code == 1 then Prefix(DeviceDescriptor, f.length as nat)
    else if code == 2 then Prefix(ConfigurationDescriptor, f.length as nat)
    else if 3 <= code <= 9 then Silent
    else AssertFailure
  }

  /** The handler produces exactly that reply: it writes the reply's bytes to EP0, writes
      nothing, or halts. */
  lemma GetDescriptorRepliesAsSpecified(s: OtgState, f: SetupFields)
    ensures GetDescriptorSpec(s, f) == ReplyEffect(s, DescriptorReply(f))
  {
    var code := f.value >> 8;
    if code == 1 {
      DeviceDescriptorReply(s, f);
    } else if code == 2 {
      ConfigurationDescriptorReply(s, f);
    } else if 3 <= code <= 9 {
      OtherNamedTypeReply(s, f);
    } else {
      UnnamedTypeReply(s, f);
    }
  }

  /** Type 1: the device descriptor, cut to wLength. */
  lemma DeviceDescriptorReply(s: OtgState, f: SetupFields)
    requires f.value >> 8 == 1
    ensures GetDescriptorSpec(s, f) == ReplyEffect(s, DescriptorReply(f))
  {
    assert DescriptorTypeOf(f.value >> 8) == Device;
    RepliesWithTable(s, Device, f.length as nat);
  }

  /** Type 2: the configuration descriptor, cut to wLength. */
  lemma ConfigurationDescriptorReply(s: OtgState, f: SetupFields)
    requires f.value >> 8 == 2
    ensures GetDescriptorSpec(s, f) == ReplyEffect(s, DescriptorReply(f))
  {
    assert DescriptorTypeOf(f.value >> 8) == Configuration;
    RepliesWithTable(s, Configuration, f.length as nat);
  }

  /** Types 3 .. 9: named by the switch but with no descriptor stored, so nothing is sent. */
  lemma OtherNamedTypeReply(s: OtgState, f: SetupFields)
    requires 3 <= f.value >> 8 <= 9
    ensures GetDescriptorSpec(s, f) == ReplyEffect(s, DescriptorReply(f))
  {
    TypesServed(f.value >> 8);
  }

  /** Every other type reaches the failed assertion. */
  lemma UnnamedTypeReply(s: OtgState, f: SetupFields)
    requires !(1 <= f.value >> 8 <= 9)
    ensures GetDescriptorSpec(s, f) == ReplyEffect(s, DescriptorReply(f))
  {
    TypesServed(f.value >> 8);
  }

  /** What sending a reply does: its bytes written to EP0, nothing written, or a halt. */
  function ReplyEffect(s: OtgState, reply: Reply): Effect
  {
    match reply
    case Send(b) => if |b| < TwoTo32 then Effect(WriteFifoSpec(s, b, |b|), Completed) else Effect(s, Halted)
    case Silent => Effect(s, Completed)
    case AssertFailure => Effect(s, Halted)
  }

  /** The types the handler names are the codes 1 to 9; only 1 and 2 have a descriptor
      stored. */
  lemma TypesServed(code: bv16)
    ensures Recognised(DescriptorTypeOf(code)) <==> 1 <= code <= 9
    ensures |DescriptorTable(DescriptorTypeOf(code))| > 0 <==> code == 1 || code == 2
  {}

  /** For the device and configuration descriptors, the handler writes the prefix the
      reply names, or nothing when that prefix is empty. */
  lemma RepliesWithTable(s: OtgState, t: DescriptorType, requested: nat)
    requires t == Device || t == Configuration
    ensures DescriptorRequestSpec(s, t, requested) == ReplyEffect(s, Prefix(DescriptorTable(t), requested))
  {
    var table := DescriptorTable(t);
    var len := SentLength(|table|, requested);
    if |table| > 0 && len > 0 {
      WriteFifoUsesPrefix(s, table, len);
    }
  }

  /** A reply is sent exactly for the device and configuration descriptors with a
      non-zero wLength; its bytes are a prefix of the descriptor, of length
      min(wLength, descriptor length). */
  lemma DescriptorReplyTruncates(f: SetupFields)
    ensures DescriptorReply(f).Send? <==> (f.value >> 8 == 1 || f.value >> 8 == 2) && f.length != 0
    ensures DescriptorReply(f).Send? ==>
              var table := if f.value >> 8 == 1 then DeviceDescriptor else ConfigurationDescriptor;
              var b := DescriptorReply(f).bytes;
              && |b| == (if f.length as int < |table| then f.length as int else |table|)
              && b == table[..|b|]
  {}

  /** The reply depends on wValue's high byte and on wLength only: bmRequestType, wValue's
      low byte and wIndex are ignored. */
  lemma DescriptorReplyIgnoresIndex(s: OtgState, f: SetupFields, g: SetupFields)
    requires f.value >> 8 == g.value >> 8 && f.length == g.length
    ensures GetDescriptorSpec(s, f) == GetDescriptorSpec(s, g)
  {}

  /** The host's first request, the device descriptor with wLength 64: the 18-byte device
      descriptor is queued as one packet, padded to five FIFO words. */
  lemma GetDeviceDescriptorScenario(s: OtgState)
    requires Has(s.In(0).ctl, EPCTL_USBAEP) && s.In(0).txfsts & DTXFSTS_INEPTFSAV >= 5
    ensures var r := GetDescriptorSpec(s, SetupFields(0x80, 6, 0x0100, 0, 64)).hw;
            && r.In(0).tsiz == InTransferSize(18)
            && r.txFifo[..|s.txFifo|] == s.txFifo
            && UnpackWords(r.txFifo[|s.txFifo|..]) == DeviceDescriptor + [0, 0]
  {
    FirstRequestWritesDeviceDescriptor(s);
    DeviceDescriptorQueued(s);
  }

  /** wValue 0x0100 with wLength 64 asks for the whole 18-byte device descriptor. */
  lemma FirstRequestWritesDeviceDescriptor(s: OtgState)
    ensures GetDescriptorSpec(s, SetupFields(0x80, 6, 0x0100, 0, 64)).hw == WriteFifoSpec(s, DeviceDescriptor, 18)
  {
    assert DescriptorTypeOf(0x0100 >> 8) == Device;
  }

  /** Writing the 18-byte device descriptor to a free FIFO queues it padded to five words. */
  lemma DeviceDescriptorQueued(s: OtgState)
    requires Has(s.In(0).ctl, EPCTL_USBAEP) && s.In(0).txfsts & DTXFSTS_INEPTFSAV >= 5
    ensures var r := WriteFifoSpec(s, DeviceDescriptor, 18);
            && r.In(0).tsiz == InTransferSize(18)
            && r.txFifo[..|s.txFifo|] == s.txFifo
            && UnpackWords(r.txFifo[|s.txFifo|..]) == DeviceDescriptor + [0, 0]
  {
    DeviceDescriptorWellFormed();
    EighteenBytesQueued(s, DeviceDescriptor);
  }

  /** Any 18 bytes written to a FIFO with five free words go out as one packet padded
      with two zero bytes. */
  lemma EighteenBytesQueued(s: OtgState, b: seq<bv8>)
    requires |b| == 18
    requires Has(s.In(0).ctl, EPCTL_USBAEP) && s.In(0).txfsts & DTXFSTS_INEPTFSAV >= 5
    ensures var r := WriteFifoSpec(s, b, 18);
            && r.In(0).tsiz == InTransferSize(18)
            && r.txFifo[..|s.txFifo|] == s.txFifo
            && UnpackWords(r.txFifo[|s.txFifo|..]) == b + [0, 0]
  {
    FiveWordsTakeEighteenBytes(s);
    EighteenBytesPadded(b);
    WriteFifoFillsFifo(s, b, 18);
    WriteFifoEnablesIn(s, b, 18);
  }

  /** Eighteen bytes need five FIFO words. */
  lemma FiveWordsTakeEighteenBytes(s: OtgState)
    requires Has(s.In(0).ctl, EPCTL_USBAEP) && s.In(0).txfsts & DTXFSTS_INEPTFSAV >= 5
    ensures WriteAccepted(s, 18)
  {}

  /** Eighteen bytes padded to a word boundary gain two zero bytes. */
  lemma EighteenBytesPadded(b: seq<bv8>)
    requires |b| == 18
    ensures PadToWord(b[..18]) == b + [0, 0]
  {
    assert b[..18] == b;
    assert Zeros(2) == [0, 0];
  }

  /** A request for the HID report descriptor fails the assertion. */
  lemma ReportDescriptorHalts(s: OtgState, f: SetupFields)
    requires f.value >> 8 == 0x22
    ensures GetDescriptorSpec(s, f).outcome == Halted
  {
    assert DescriptorTypeOf(f.value >> 8) == Report;
  }
}
