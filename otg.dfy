/** The OTG_FS register interface the driver works against: named registers holding 32-bit
    values, the EP0 transmit FIFO, the receive status and data queues, and the GRSTCTL
    register whose status bits the hardware changes while the driver polls it.

    Bit positions are those of the OTG_FS registers in the STM32F411 reference manual
    (RM0383); the driver reaches them through the vendor's CMSIS names, which the constants
    below keep. Acknowledging an interrupt bit (a write-1-to-clear register) is modelled as
    clearing exactly the bits written (see Ack). */
module Otg {

  // GOTGCTL, GOTGINT
  const GOTGCTL_BSVLD: bv32 := 0x0008_0000
  const GOTGINT_SEDET: bv32 := 0x0000_0004

  // GUSBCFG
  const GUSBCFG_TRDT_Pos: bv32 := 10

  // GRSTCTL
  const GRSTCTL_RXFFLSH: bv32 := 0x0000_0010
  const GRSTCTL_TXFFLSH: bv32 := 0x0000_0020
  const GRSTCTL_AHBIDL: bv32 := 0x8000_0000

  // GINTSTS
  const GINTSTS_MMIS: bv32 := 0x0000_0002
  const GINTSTS_SOF: bv32 := 0x0000_0008
  const GINTSTS_RXFLVL: bv32 := 0x0000_0010
  const GINTSTS_ESUSP: bv32 := 0x0000_0400
  const GINTSTS_USBSUSP: bv32 := 0x0000_0800
  const GINTSTS_USBRST: bv32 := 0x0000_1000
  const GINTSTS_ENUMDNE: bv32 := 0x0000_2000
  const GINTSTS_IEPINT: bv32 := 0x0004_0000
  const GINTSTS_OEPINT: bv32 := 0x0008_0000
  const GINTSTS_SRQINT: bv32 := 0x4000_0000
  const GINTSTS_WKUINT: bv32 := 0x8000_0000

  // GINTMSK
  const GINTMSK_RXFLVLM: bv32 := 0x0000_0010

  // GRXSTSP fields: EPNUM[3:0], BCNT[14:4], DPID[16:15], PKTSTS[20:17]
  const GRXSTSP_EPNUM: bv32 := 0x0000_000F
  const GRXSTSP_BCNT: bv32 := 0x0000_7FF0
  const GRXSTSP_BCNT_Pos: bv32 := 4
  const GRXSTSP_DPID: bv32 := 0x0001_8000
  const GRXSTSP_DPID_Pos: bv32 := 15
  const GRXSTSP_PKTSTS: bv32 := 0x001E_0000
  const GRXSTSP_PKTSTS_Pos: bv32 := 17

  // DCFG, DCTL
  const DCFG_DAD: bv32 := 0x0000_07F0
  const DCFG_DAD_Pos: bv32 := 4
  const DCTL_RWUSIG: bv32 := 0x0000_0001
  const DCTL_SDIS: bv32 := 0x0000_0002
  const DCTL_CGINAK: bv32 := 0x0000_0100

  // DIEPMSK, DOEPMSK
  const DIEPMSK_XFRCM: bv32 := 0x0000_0001
  const DIEPMSK_EPDM: bv32 := 0x0000_0002
  const DIEPMSK_TOM: bv32 := 0x0000_0008
  const DOEPMSK_XFRCM: bv32 := 0x0000_0001
  const DOEPMSK_EPDM: bv32 := 0x0000_0002
  const DOEPMSK_STUPM: bv32 := 0x0000_0008
  const DOEPMSK_OTEPSPRM: bv32 := 0x0000_0020
  const DOEPMSK_NAKM: bv32 := 0x0000_2000

  // DAINT: IN endpoints in the low half, OUT endpoints in the high half
  const DAINT_IEPINT: bv32 := 0x0000_FFFF
  const DAINT_IEPINT_Pos: bv32 := 0
  const DAINT_OEPINT: bv32 := 0xFFFF_0000
  const DAINT_OEPINT_Pos: bv32 := 16
  const DAINTMSK_IEPM_Pos: bv32 := 0
  const DAINTMSK_OEPM_Pos: bv32 := 16

  // DIEPCTL / DOEPCTL
  const EPCTL_MPSIZ: bv32 := 0x0000_07FF
  const EPCTL_USBAEP: bv32 := 0x0000_8000
  const EPCTL_STALL: bv32 := 0x0020_0000
  const EPCTL_CNAK: bv32 := 0x0400_0000
  const EPCTL_SNAK: bv32 := 0x0800_0000
  const EPCTL_EPENA: bv32 := 0x8000_0000

  // DIEPINT
  const DIEPINT_XFRC: bv32 := 0x0000_0001
  const DIEPINT_EPDISD: bv32 := 0x0000_0002
  const DIEPINT_TOC: bv32 := 0x0000_0008
  const DIEPINT_ITTXFE: bv32 := 0x0000_0010
  const DIEPINT_INEPNE: bv32 := 0x0000_0040
  const DIEPINT_TXFE: bv32 := 0x0000_0080
  const DIEPINT_PKTDRPSTS: bv32 := 0x0000_0800
  const DIEPINT_NAK: bv32 := 0x0000_2000

  // DOEPINT
  const DOEPINT_XFRC: bv32 := 0x0000_0001
  const DOEPINT_EPDISD: bv32 := 0x0000_0002
  const DOEPINT_STUP: bv32 := 0x0000_0008
  const DOEPINT_OTEPDIS: bv32 := 0x0000_0010
  const DOEPINT_NAK: bv32 := 0x0000_2000

  // DIEPTSIZ / DOEPTSIZ, DTXFSTS, DIEPTXF0
  const EPTSIZ_PKTCNT_Pos: bv32 := 19
  const DOEPTSIZ_STUPCNT: bv32 := 0x6000_0000
  const DTXFSTS_INEPTFSAV: bv32 := 0x0000_FFFF
  const DIEPTXF_INEPTXFD_Pos: bv32 := 16

  predicate Has(x: bv32, bits: bv32)
  {
    x & bits != 0
  }

  /** The value of a write-1-to-clear register after `bits` are written to it. */
  function Ack(x: bv32, bits: bv32): bv32
  {
    x & !bits
  }

  /** `if (flags & bit) reg |= bit;` on a write-1-to-clear register, as the handlers do for
      each flag they saw set. */
  function AckIf(x: bv32, flags: bv32, bit: bv32): bv32
  {
    if Has(flags, bit) then Ack(x, bit) else x
  }

  /** The registers of one IN endpoint: DIEPCTLx, DIEPINTx, DIEPTSIZx and DTXFSTSx. */
  datatype InEndpoint = InEndpoint(ctl: bv32, intr: bv32, tsiz: bv32, txfsts: bv32)

  /** The registers of one OUT endpoint: DOEPCTLx, DOEPINTx and DOEPTSIZx. */
  datatype OutEndpoint = OutEndpoint(ctl: bv32, intr: bv32, tsiz: bv32)

  /** The core global registers the driver uses (the CMSIS USB_OTG_GlobalTypeDef block).
      GRSTCTL is not among them: the bits of it the driver uses are status the hardware
      drives (see Peripheral). */
  datatype GlobalRegs = GlobalRegs(
    gotgctl: bv32, gotgint: bv32, gusbcfg: bv32, gintsts: bv32, gintmsk: bv32,
    grxfsiz: bv32, dieptxf0: bv32)

  /** The device-mode registers the driver uses (the USB_OTG_DeviceTypeDef block). */
  datatype DeviceRegs = DeviceRegs(
    dcfg: bv32, dctl: bv32, diepmsk: bv32, doepmsk: bv32, daint: bv32, daintmsk: bv32)

  /** A snapshot of the peripheral as the driver sees it between operations: the global and
      device registers, the endpoint registers (an endpoint missing from a map reads all
      zero), the words pushed into the EP0 TX FIFO, and the receive status words and
      receive data words waiting to be popped. */
  datatype OtgState = OtgState(
    global: GlobalRegs, device: DeviceRegs,
    inEps: map<nat, InEndpoint>, outEps: map<nat, OutEndpoint>,
    txFifo: seq<bv32>, rxStatus: seq<bv32>, rxData: seq<bv32>)
  {
    function In(ep: nat): InEndpoint
    {
      if ep in inEps then inEps[ep] else InEndpoint(0, 0, 0, 0)
    }

    function Out(ep: nat): OutEndpoint
    {
      if ep in outEps then outEps[ep] else OutEndpoint(0, 0, 0)
    }

    /** The state with IN endpoint `ep`'s registers replaced. */
    function WithIn(ep: nat, e: InEndpoint): (r: OtgState)
      ensures r.In(ep) == e
      ensures forall other :: other != ep ==> r.In(other) == In(other)
    {
      this.(inEps := inEps[ep := e])
    }

    /** The state with OUT endpoint `ep`'s registers replaced. */
    function WithOut(ep: nat, e: OutEndpoint): (r: OtgState)
      ensures r.Out(ep) == e
      ensures forall other :: other != ep ==> r.Out(other) == Out(other)
    {
      this.(outEps := outEps[ep := e])
    }
  }

  /** One register access as the driver performs it. */
  datatype Access =
    | SetBits(bits: bv32)      // reg |= bits
    | ClearBits(bits: bv32)    // reg &= ~bits
    | WriteValue(v: bv32)      // reg = v
    | Acknowledge(bits: bv32)  // ones written to a write-1-to-clear register

  /** A 16-bit field promoted to a 32-bit register value, as C widens it before a shift. */
  function Widen(v: bv16): bv32
  {
    v as bv32
  }

  /** The register's value after the access. */
  function Apply(x: bv32, a: Access): bv32
  {
    match a
    case SetBits(b) => x | b
    case ClearBits(b) => x & !b
    case WriteValue(v) => v
    case Acknowledge(b) => Ack(x, b)
  }

  function UpdateGotgint(s: OtgState, a: Access): OtgState
  {
    s.(global := s.global.(gotgint := Apply(s.global.gotgint, a)))
  }

  function UpdateGusbcfg(s: OtgState, a: Access): OtgState
  {
    s.(global := s.global.(gusbcfg := Apply(s.global.gusbcfg, a)))
  }

  function UpdateGintsts(s: OtgState, a: Access): OtgState
  {
    s.(global := s.global.(gintsts := Apply(s.global.gintsts, a)))
  }

  function UpdateGintmsk(s: OtgState, a: Access): OtgState
  {
    s.(global := s.global.(gintmsk := Apply(s.global.gintmsk, a)))
  }

  function UpdateGrxfsiz(s: OtgState, a: Access): OtgState
  {
    s.(global := s.global.(grxfsiz := Apply(s.global.grxfsiz, a)))
  }

  function UpdateDieptxf0(s: OtgState, a: Access): OtgState
  {
    s.(global := s.global.(dieptxf0 := Apply(s.global.dieptxf0, a)))
  }

  function UpdateDcfg(s: OtgState, a: Access): OtgState
  {
    s.(device := s.device.(dcfg := Apply(s.device.dcfg, a)))
  }

  /** Setting bits of DCFG is writing it with those bits ORed in. */
  lemma DcfgSetBitsWrites(s: OtgState, b: bv32)
    ensures UpdateDcfg(s, SetBits(b)) == UpdateDcfg(s, WriteValue(s.device.dcfg | b))
  {}

  /** Clearing bits of DCFG and then setting others is one write of the result. */
  lemma DcfgClearSetWrites(s: OtgState, c: bv32, b: bv32)
    ensures UpdateDcfg(UpdateDcfg(s, ClearBits(c)), SetBits(b)) == UpdateDcfg(s, WriteValue((s.device.dcfg & !c) | b))
  {}

  function UpdateDctl(s: OtgState, a: Access): OtgState
  {
    s.(device := s.device.(dctl := Apply(s.device.dctl, a)))
  }

  function UpdateDiepmsk(s: OtgState, a: Access): OtgState
  {
    s.(device := s.device.(diepmsk := Apply(s.device.diepmsk, a)))
  }

  function UpdateDoepmsk(s: OtgState, a: Access): OtgState
  {
    s.(device := s.device.(doepmsk := Apply(s.device.doepmsk, a)))
  }

  function UpdateDaintmsk(s: OtgState, a: Access): OtgState
  {
    s.(device := s.device.(daintmsk := Apply(s.device.daintmsk, a)))
  }

  function UpdateDiepctl(s: OtgState, ep: nat, a: Access): OtgState
  {
    s.WithIn(ep, s.In(ep).(ctl := Apply(s.In(ep).ctl, a)))
  }

  function UpdateDiepint(s: OtgState, ep: nat, a: Access): OtgState
  {
    s.WithIn(ep, s.In(ep).(intr := Apply(s.In(ep).intr, a)))
  }

  function UpdateDieptsiz(s: OtgState, ep: nat, a: Access): OtgState
  {
    s.WithIn(ep, s.In(ep).(tsiz := Apply(s.In(ep).tsiz, a)))
  }

  function UpdateDoepctl(s: OtgState, ep: nat, a: Access): OtgState
  {
    s.WithOut(ep, s.Out(ep).(ctl := Apply(s.Out(ep).ctl, a)))
  }

  function UpdateDoepint(s: OtgState, ep: nat, a: Access): OtgState
  {
    s.WithOut(ep, s.Out(ep).(intr := Apply(s.Out(ep).intr, a)))
  }

  function UpdateDoeptsiz(s: OtgState, ep: nat, a: Access): OtgState
  {
    s.WithOut(ep, s.Out(ep).(tsiz := Apply(s.Out(ep).tsiz, a)))
  }

  /** The value of GRSTCTL read back, from its three bits the driver looks at. */
  function GrstctlValue(ahbIdle: bool, txFlush: bool, rxFlush: bool): bv32
  {
    (if ahbIdle then GRSTCTL_AHBIDL else 0) |
    (if txFlush then GRSTCTL_TXFFLSH else 0) |
    (if rxFlush then GRSTCTL_RXFFLSH else 0)
  }

  lemma GrstctlIdleBit(ahbIdle: bool, txFlush: bool, rxFlush: bool)
    ensures Has(GrstctlValue(ahbIdle, txFlush, rxFlush), GRSTCTL_AHBIDL) <==> ahbIdle
  {}

  lemma GrstctlTxFlushBit(ahbIdle: bool, txFlush: bool, rxFlush: bool)
    ensures Has(GrstctlValue(ahbIdle, txFlush, rxFlush), GRSTCTL_TXFFLSH) <==> txFlush
  {}

  lemma GrstctlRxFlushBit(ahbIdle: bool, txFlush: bool, rxFlush: bool)
    ensures Has(GrstctlValue(ahbIdle, txFlush, rxFlush), GRSTCTL_RXFFLSH) <==> rxFlush
  {}

  /** The peripheral itself. Its register block is one value that every register access
      replaces in place. Besides it the class holds the hardware's own progress: how many
      more reads of GRSTCTL will still see the AHB master busy, which FIFO flushes have
      been requested and are not done, and how many more reads will still see them in
      progress. */
  class Peripheral {
    var hw: OtgState
    var ahbBusyPolls: nat
    var txFlush: bool
    var rxFlush: bool
    var flushPolls: nat
    var flushLatency: nat

    /** GRSTCTL as it reads now: AHBIDL once the AHB master is idle, a flush bit while that
        flush is in progress. */
    function Grstctl(): bv32
      reads this`ahbBusyPolls, this`txFlush, this`rxFlush
    {
      GrstctlValue(ahbBusyPolls == 0, txFlush, rxFlush)
    }

    /** A flush is in progress exactly while some flush has polls left. */
    ghost predicate Coherent()
      reads this`txFlush, this`rxFlush, this`flushPolls
    {
      txFlush || rxFlush <==> flushPolls > 0
    }

    /** Between driver operations no flush is in progress. */
    ghost predicate Valid()
      reads this`txFlush, this`rxFlush, this`flushPolls
    {
      !txFlush && !rxFlush && flushPolls == 0
    }

    /** Reads GRXSTSP, which pops the oldest receive status word. */
    method PopRxStatus() returns (w: bv32)
      requires |hw.rxStatus| > 0
      modifies this`hw
      ensures w == old(hw.rxStatus[0])
      ensures hw == old(hw.(rxStatus := hw.rxStatus[1..]))
    {
      w := hw.rxStatus[0];
      hw := hw.(rxStatus := hw.rxStatus[1..]);
    }

    /** Reads the receive FIFO data port, which pops the oldest data word. */
    method PopRxData() returns (w: bv32)
      requires |hw.rxData| > 0
      modifies this`hw
      ensures w == old(hw.rxData[0])
      ensures hw == old(hw.(rxData := hw.rxData[1..]))
    {
      w := hw.rxData[0];
      hw := hw.(rxData := hw.rxData[1..]);
    }

    /** Writes a word to the EP0 transmit FIFO port. */
    method PushTx(w: bv32)
      modifies this`hw
      ensures hw == old(hw.(txFifo := hw.txFifo + [w]))
    {
      hw := hw.(txFifo := hw.txFifo + [w]);
    }

    /** `GRSTCTL |= TXFFLSH`: the core starts flushing the transmit FIFO. */
    method RequestTxFlush()
      requires Valid()
      modifies this`txFlush, this`flushPolls
      ensures Coherent() && txFlush && !rxFlush && flushPolls == flushLatency + 1
    {
      txFlush := true;
      flushPolls := flushLatency + 1;
    }

    /** `GRSTCTL |= RXFFLSH`: the core starts flushing the receive FIFO. */
    method RequestRxFlush()
      requires Valid()
      modifies this`rxFlush, this`flushPolls
      ensures Coherent() && rxFlush && !txFlush && flushPolls == flushLatency + 1
    {
      rxFlush := true;
      flushPolls := flushLatency + 1;
    }

    /** A read of GRSTCTL. The value read is the current one; afterwards the hardware makes
        one step of progress: the AHB master comes one poll closer to idle, and a flush in
        progress one poll closer to done. A finished flush discards the flushed FIFO and
        clears its flush bit. */
    method ReadGrstctl() returns (v: bv32)
      requires Coherent()
      modifies this`hw, this`ahbBusyPolls, this`txFlush, this`rxFlush, this`flushPolls
      ensures Coherent()
      ensures v == old(Grstctl())
      ensures Has(v, GRSTCTL_AHBIDL) <==> old(ahbBusyPolls) == 0
      ensures Has(v, GRSTCTL_TXFFLSH) <==> old(txFlush)
      ensures Has(v, GRSTCTL_RXFFLSH) <==> old(rxFlush)
      ensures ahbBusyPolls == if old(ahbBusyPolls) > 0 then old(ahbBusyPolls) - 1 else 0
      ensures flushPolls == if old(flushPolls) > 0 then old(flushPolls) - 1 else 0
      ensures if old(flushPolls) == 1 then !txFlush && !rxFlush
              else txFlush == old(txFlush) && rxFlush == old(rxFlush)
      ensures hw ==
                if old(flushPolls) == 1 then
                  old(hw.(txFifo := if txFlush then [] else hw.txFifo,
                          rxStatus := if rxFlush then [] else hw.rxStatus,
                          rxData := if rxFlush then [] else hw.rxData))
                else old(hw)
    {
      v := Grstctl();
      GrstctlIdleBit(ahbBusyPolls == 0, txFlush, rxFlush);
      GrstctlTxFlushBit(ahbBusyPolls == 0, txFlush, rxFlush);
      GrstctlRxFlushBit(ahbBusyPolls == 0, txFlush, rxFlush);
      if ahbBusyPolls > 0 {
        ahbBusyPolls := ahbBusyPolls - 1;
      }
      if flushPolls > 0 {
        flushPolls := flushPolls - 1;
        if flushPolls == 0 {
          hw := hw.(txFifo := if txFlush then [] else hw.txFifo,
                    rxStatus := if rxFlush then [] else hw.rxStatus,
                    rxData := if rxFlush then [] else hw.rxData);
          txFlush, rxFlush := false, false;
        }
      }
    }
  }
}
