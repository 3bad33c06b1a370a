/** The gated connection handlers of usb/src/_usb_not_used.c: the only code that advances the
    driver's state. A session request (with a valid B-session) moves NONE to POWERED, a
    bus reset moves POWERED to RESET and runs the endpoint reset, and the end of
    enumeration moves RESET to DEFAULT. Each handler acknowledges its interrupt first and
    does nothing more in any other state. The driver context, which the file reaches through a
    global variable, is passed in. */
module UsbStateMachine {
  import opened UsbTypes
  import opened UsbInternal
  import opened Otg
  import opened Usb

  /** What a handler leaves: the register state, the driver state and the outcome. */
  datatype Transition = Transition(hw: OtgState, state: DeviceState, outcome: Outcome)

  // ---------------------------------------------------------------------------------
  // The abstract machine

  /** The interrupts that drive the state, with what the session request handler reads
      from GOTGCTL: whether the B-session is valid. */
  datatype Event = SessionRequest(sessionValid: bool) | BusReset | EnumerationDone

  /** A state change and whether the driver halted. */
  datatype Move = Move(state: DeviceState, outcome: Outcome)

  /** The connection lifecycle the handlers are written for. */
  function Next(st: DeviceState, ev: Event): Move
  {
    match ev
    case SessionRequest(valid) =>
      if !valid then Move(st, Completed)
      else if st != None then Move(st, Halted)
      else Move(Powered, Completed)
    case BusReset => if st == Powered then Move(Reset, Completed) else Move(st, Completed)
    case EnumerationDone => if st == Reset then Move(Default, Completed) else Move(st, Completed)
  }

  /** A sequence of events, stopping at the first halt. */
  function Run(st: DeviceState, events: seq<Event>): Move
    decreases |events|
  {
    if events == [] then Move(st, Completed)
    else
      var m := Next(st, events[0]);
      if m.outcome == Halted then m else Run(m.state, events[1..])
  }

  /** The states of the lifecycle NONE, POWERED, RESET, DEFAULT. */
  predicate InLifecycle(st: DeviceState)
  {
    st == None || st == Powered || st == Reset || st == Default
  }

  /** The position of a lifecycle state along NONE, POWERED, RESET, DEFAULT. */
  function Rank(st: DeviceState): nat
  {
    match st
    case None => 0
    case Powered => 1
    case Reset => 2
    case _ => 3
  }

  /** Each event leaves the state where it is or moves it one step along the lifecycle. */
  lemma NextIsOneStep(st: DeviceState, ev: Event)
    requires InLifecycle(st)
    ensures InLifecycle(Next(st, ev).state)
    ensures Next(st, ev).state == st || Rank(Next(st, ev).state) == Rank(st) + 1
  {}

  /** RESET is entered only from POWERED, by a bus reset, and DEFAULT only from RESET, by
      the end of enumeration. */
  lemma EntryConditions(st: DeviceState, ev: Event)
    ensures Next(st, ev).state == Reset && st != Reset ==> st == Powered && ev == BusReset
    ensures Next(st, ev).state == Default && st != Default ==> st == Reset && ev == EnumerationDone
    ensures Next(st, ev).state == Powered && st != Powered ==> st == None && ev.SessionRequest?
  {}

  /** Over any sequence of events the state stays on the lifecycle and never moves back. */
  lemma {:induction false} RunStaysInLifecycle(st: DeviceState, events: seq<Event>)
    requires InLifecycle(st)
    ensures InLifecycle(Run(st, events).state)
    ensures Rank(Run(st, events).state) >= Rank(st)
    decreases |events|
  {
    if events != [] {
      var m := Next(st, events[0]);
      NextIsOneStep(st, events[0]);
      if m.outcome != Halted {
        RunStaysInLifecycle(m.state, events[1..]);
      }
    }
  }

  /** Starting from NONE, no sequence of events reaches ADDRESS or SUSPENDED. */
  lemma NeverAddressedOrSuspended(events: seq<Event>)
    ensures Run(None, events).state != Address
    ensures Run(None, events).state != Suspended
  {
    RunStaysInLifecycle(None, events);
  }

  /** A session request after POWERED halts: the handler insists on NONE. */
  lemma RepeatedSessionRequestHalts(st: DeviceState)
    requires st != None
    ensures Next(st, SessionRequest(true)) == Move(st, Halted)
  {}

  /** The connection sequence: session request, bus reset, end of enumeration. */
  lemma ConnectionSequence()
    ensures Run(None, [SessionRequest(true), BusReset, EnumerationDone]) == Move(Default, Completed)
  {
    var events := [SessionRequest(true), BusReset, EnumerationDone];
    assert events[1..] == [BusReset, EnumerationDone];
    assert events[1..][1..] == [EnumerationDone];
  }

  // ---------------------------------------------------------------------------------
  // The handlers on the registers

  /** The receive FIFO size endpoint_reset_init writes, in words. */
  const RxFifoWords: bv32 := 36

  /** endpoint_reset_init: unmask IN endpoint 0 and OUT endpoints 0 and 1, the SETUP and
      transfer-complete OUT events and the transfer-complete and timeout IN events, flush
      both FIFOs, forget the device address, size the receive FIFO and EP0's transmit
      FIFO, prepare EP0 OUT for SETUP packets, and enable it. */
  function EndpointResetSpec(s: OtgState): OtgState
  {
    var s1 := UpdateDaintmsk(s, SetBits(0x01 << DAINTMSK_IEPM_Pos));
    var s2 := UpdateDaintmsk(s1, SetBits(0x03 << DAINTMSK_OEPM_Pos));
    var s3 := UpdateDoepmsk(s2, SetBits(DOEPMSK_STUPM | DOEPMSK_XFRCM));
    var s4 := UpdateDiepmsk(s3, SetBits(DIEPMSK_XFRCM | DIEPMSK_TOM));
    var s5 := FlushedRx(FlushedTx(s4));
    var s6 := UpdateDcfg(s5, ClearBits(DCFG_DAD));
    var s7 := UpdateGrxfsiz(s6, WriteValue(RxFifoWords));
    var s8 := UpdateDieptxf0(s7, SetBits(16 << DIEPTXF_INEPTXFD_Pos));
    var s9 := UpdateDoeptsiz(s8, 0, SetBits(Ep0SetupTransferSize));
    UpdateDoepctl(s9, 0, SetBits(EPCTL_CNAK | EPCTL_EPENA))
  }

  /** endpoint_enum_init: the two MPSIZ bits of EP0 IN cleared, a 64-byte maximum packet
      size. */
  function EndpointEnumSpec(s: OtgState): OtgState
  {
    UpdateDiepctl(s, 0, ClearBits(0x03))
  }

  /** srqint_handler of the connection lifecycle. */
  function SrqintSpec(s: OtgState, st: DeviceState): Transition
  {
    var acked := UpdateGintsts(s, Acknowledge(GINTSTS_SRQINT));
    if !Has(acked.global.gotgctl, GOTGCTL_BSVLD) then Transition(acked, st, Completed)
    else if st != None then Transition(acked, st, Halted)
    else Transition(UpdateDctl(acked, ClearBits(DCTL_SDIS)), Powered, Completed)
  }

  /** usbrst_handler of the connection lifecycle. */
  function UsbrstSpec(s: OtgState, st: DeviceState): Transition
  {
    var acked := UpdateGintsts(s, Acknowledge(GINTSTS_USBRST));
    if st != Powered then Transition(acked, st, Completed)
    else Transition(EndpointResetSpec(acked), Reset, Completed)
  }

  /** enumdne_handler of the connection lifecycle. */
  function EnumdneSpec(s: OtgState, st: DeviceState): Transition
  {
    var acked := UpdateGintsts(s, Acknowledge(GINTSTS_ENUMDNE));
    if st != Reset then Transition(acked, st, Completed)
    else Transition(EndpointEnumSpec(acked), Default, Completed)
  }

  /** The event a handler stands for, given the registers it reads. */
  function EventOf(ev: Event, s: OtgState): Event
  {
    match ev
    case SessionRequest(_) => SessionRequest(Has(s.global.gotgctl, GOTGCTL_BSVLD))
    case _ => ev
  }

  /** The register-level handler an event runs. */
  function Handle(ev: Event, s: OtgState, st: DeviceState): Transition
  {
    match ev
    case SessionRequest(_) => SrqintSpec(s, st)
    case BusReset => UsbrstSpec(s, st)
    case EnumerationDone => EnumdneSpec(s, st)
  }

  /** The handlers move the driver state exactly as the abstract machine does, given what
      GOTGCTL says about the session; and each acknowledges its own interrupt whatever the
      state. */
  lemma HandlersFollowMachine(ev: Event, s: OtgState, st: DeviceState)
    ensures var t := Handle(ev, s, st);
            Move(t.state, t.outcome) == Next(st, EventOf(ev, s))
    ensures var t := Handle(ev, s, st);
            match ev
            case SessionRequest(_) => !Has(t.hw.global.gintsts, GINTSTS_SRQINT)
            case BusReset => !Has(t.hw.global.gintsts, GINTSTS_USBRST)
            case EnumerationDone => !Has(t.hw.global.gintsts, GINTSTS_ENUMDNE)
  {}

  /** Without a valid B-session, a session request changes neither the state nor DCTL. */
  lemma SessionRequestNeedsValidSession(s: OtgState, st: DeviceState)
    requires !Has(s.global.gotgctl, GOTGCTL_BSVLD)
    ensures SrqintSpec(s, st).state == st
    ensures SrqintSpec(s, st).hw.device == s.device
    ensures SrqintSpec(s, st).outcome == Completed
  {}

  /** A valid session request in NONE connects the device: DCTL.SDIS is cleared (soft
      connect) and the state is POWERED. */
  lemma SessionRequestConnects(s: OtgState)
    requires Has(s.global.gotgctl, GOTGCTL_BSVLD)
    ensures var t := SrqintSpec(s, None);
            t.state == Powered && t.outcome == Completed && !Has(t.hw.device.dctl, DCTL_SDIS)
  {}

  /** endpoint_reset_init leaves the device at address 0, both FIFOs empty, EP0 OUT ready
      for three SETUP packets of one 64-byte packet and enabled with its NAK cleared, and
      the receive FIFO at 36 words. The last conjunct is a constant check: 36 is not the 28
      its comment computes (16 + 2 + 10). */
  lemma EndpointResetPreparesEp0(s: OtgState)
    ensures var r := EndpointResetSpec(s);
            && r.device.dcfg & DCFG_DAD == 0
            && r.txFifo == [] && r.rxStatus == [] && r.rxData == []
            && r.Out(0).tsiz & Ep0SetupTransferSize == Ep0SetupTransferSize
            && Has(r.Out(0).ctl, EPCTL_CNAK) && Has(r.Out(0).ctl, EPCTL_EPENA)
            && r.global.grxfsiz == RxFifoWords && RxFifoWords as int != 16 + 2 + 10
  {}

  /** The interrupt mask endpoint_reset_init leaves unmasks IN endpoint 0 and OUT endpoints
      0 and 1. */
  lemma EndpointResetUnmasks(s: OtgState)
    ensures EndpointResetSpec(s).device.daintmsk & 0x3_0001 == 0x3_0001
  {}

  // ---------------------------------------------------------------------------------
  // The handlers

  /** endpoint_reset_init. */
  method EndpointResetInit(p: Peripheral)
    requires p.Valid()
    modifies p`hw, p`ahbBusyPolls, p`txFlush, p`rxFlush, p`flushPolls
    ensures p.Valid()
    ensures p.hw == EndpointResetSpec(old(p.hw))
  {
    p.hw := UpdateDaintmsk(p.hw, SetBits(0x01 << DAINTMSK_IEPM_Pos));
    p.hw := UpdateDaintmsk(p.hw, SetBits(0x03 << DAINTMSK_OEPM_Pos));
    p.hw := UpdateDoepmsk(p.hw, SetBits(DOEPMSK_STUPM | DOEPMSK_XFRCM));
    p.hw := UpdateDiepmsk(p.hw, SetBits(DIEPMSK_XFRCM | DIEPMSK_TOM));
    var txFlushed := FlushTxFifo(p);
    var rxFlushed := FlushRxFifo(p);
    p.hw := UpdateDcfg(p.hw, ClearBits(DCFG_DAD));
    p.hw := UpdateGrxfsiz(p.hw, WriteValue(RxFifoWords));
    p.hw := UpdateDieptxf0(p.hw, SetBits(16 << DIEPTXF_INEPTXFD_Pos));
    p.hw := UpdateDoeptsiz(p.hw, 0, SetBits(Ep0SetupTransferSize));
    p.hw := UpdateDoepctl(p.hw, 0, SetBits(EPCTL_CNAK | EPCTL_EPENA));
  }

  /** endpoint_enum_init. The enumerated speed it reads from DSTS is not used. */
  method EndpointEnumInit(p: Peripheral)
    modifies p`hw
    ensures p.hw == EndpointEnumSpec(old(p.hw))
  {
    p.hw := UpdateDiepctl(p.hw, 0, ClearBits(0x03));
  }

  /** srqint_handler. */
  method SrqintHandler(p: Peripheral, d: Driver) returns (outcome: Outcome)
    modifies p`hw, d`state
    ensures Transition(p.hw, d.state, outcome) == SrqintSpec(old(p.hw), old(d.state))
  {
    p.hw := UpdateGintsts(p.hw, Acknowledge(GINTSTS_SRQINT));
    if !Has(p.hw.global.gotgctl, GOTGCTL_BSVLD) {
      return Completed;
    }
    if d.state != None {
      return Halted;
    }
    p.hw := UpdateDctl(p.hw, ClearBits(DCTL_SDIS));
    d.state := Powered;
    outcome := Completed;
  }

  /** usbrst_handler. */
  method UsbrstHandler(p: Peripheral, d: Driver) returns (outcome: Outcome)
    requires p.Valid()
    modifies p`hw, p`ahbBusyPolls, p`txFlush, p`rxFlush, p`flushPolls, d`state
    ensures p.Valid()
    ensures Transition(p.hw, d.state, outcome) == UsbrstSpec(old(p.hw), old(d.state))
  {
    p.hw := UpdateGintsts(p.hw, Acknowledge(GINTSTS_USBRST));
    outcome := Completed;
    if d.state != Powered {
      return;
    }
    EndpointResetInit(p);
    d.state := Reset;
  }

  /** enumdne_handler. */
  method EnumdneHandler(p: Peripheral, d: Driver) returns (outcome: Outcome)
    modifies p`hw, d`state
    ensures Transition(p.hw, d.state, outcome) == EnumdneSpec(old(p.hw), old(d.state))
  {
    p.hw := UpdateGintsts(p.hw, Acknowledge(GINTSTS_ENUMDNE));
    outcome := Completed;
    if d.state != Reset {
      return;
    }
    EndpointEnumInit(p);
    d.state := Default;
  }
}
