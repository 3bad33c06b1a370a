/** The driver's internal services (usb/src/usb.c): the driver instance, the two FIFO
    flushes and the write of a reply into the EP0 transmit FIFO. */
module Usb {
  import opened LittleEndian
  import opened UsbTypes
  import opened UsbInternal
  import opened Otg

  /** The file-scope reference to the driver context, NULL until usb_init stores it. */
  class UsbGlobals {
    var instance: Driver?

    constructor ()
      ensures instance == null
    {
      instance := null;
    }

    /** The part of usb_init that concerns the driver context: remember it and put it in
        the NONE state. The rest of the context is left as the caller set it. */
    method Init(d: Driver)
      modifies this, d
      ensures instance == d
      ensures d.state == None
      ensures d.deviceAddress == old(d.deviceAddress) && d.setupPacket == old(d.setupPacket)
      ensures d.ep0TxBuf == old(d.ep0TxBuf) && d.ep0TxBufLen == old(d.ep0TxBufLen)
    {
      instance := d;
      d.state := None;
    }

    /** usb_get_instance. */
    method GetInstance() returns (d: Driver?)
      ensures d == instance
    {
      d := instance;
    }
  }

  /** What a transmit FIFO flush leaves: the TX FIFO empty, everything else as it was. */
  function FlushedTx(s: OtgState): OtgState
  {
    s.(txFifo := [])
  }

  /** What a receive FIFO flush leaves: no status and no data waiting, everything else as
      it was. */
  function FlushedRx(s: OtgState): OtgState
  {
    s.(rxStatus := [], rxData := [])
  }

  /** Waits until the AHB master is idle. */
  method WaitAhbIdle(p: Peripheral)
    requires p.Valid()
    modifies p`hw, p`ahbBusyPolls, p`txFlush, p`rxFlush, p`flushPolls
    ensures p.Valid() && p.ahbBusyPolls == 0
    ensures p.hw == old(p.hw)
  {
    var v := p.ReadGrstctl();
    while !Has(v, GRSTCTL_AHBIDL)
      invariant p.Valid()
      invariant p.hw == old(p.hw)
      invariant Has(v, GRSTCTL_AHBIDL) ==> p.ahbBusyPolls == 0
      decreases p.ahbBusyPolls + (if Has(v, GRSTCTL_AHBIDL) then 0 else 1)
    {
      v := p.ReadGrstctl();
    }
  }

  /** flush_tx_fifo: wait for the AHB master to be idle, request the flush, wait until the
      hardware clears the flush bit; always returns 1. */
  method FlushTxFifo(p: Peripheral) returns (r: bv32)
    requires p.Valid()
    modifies p`hw, p`ahbBusyPolls, p`txFlush, p`rxFlush, p`flushPolls
    ensures r == 1
    ensures p.Valid() && p.ahbBusyPolls == 0
    ensures p.hw == FlushedTx(old(p.hw))
  {
    WaitAhbIdle(p);
    p.RequestTxFlush();
    ghost var requested := p.hw;
    var v := p.ReadGrstctl();
    while Has(v, GRSTCTL_TXFFLSH)
      invariant p.Coherent() && !p.rxFlush && p.ahbBusyPolls == 0
      invariant p.hw == if p.txFlush then requested else FlushedTx(requested)
      invariant !Has(v, GRSTCTL_TXFFLSH) ==> !p.txFlush
      decreases p.flushPolls + (if Has(v, GRSTCTL_TXFFLSH) then 1 else 0)
    {
      v := p.ReadGrstctl();
    }
    r := 1;
  }

  /** flush_rx_fifo: the same for the receive FIFO. */
  method FlushRxFifo(p: Peripheral) returns (r: bv32)
    requires p.Valid()
    modifies p`hw, p`ahbBusyPolls, p`txFlush, p`rxFlush, p`flushPolls
    ensures r == 1
    ensures p.Valid() && p.ahbBusyPolls == 0
    ensures p.hw == FlushedRx(old(p.hw))
  {
    WaitAhbIdle(p);
    p.RequestRxFlush();
    ghost var requested := p.hw;
    var v := p.ReadGrstctl();
    while Has(v, GRSTCTL_RXFFLSH)
      invariant p.Coherent() && !p.txFlush && p.ahbBusyPolls == 0
      invariant p.hw == if p.rxFlush then requested else FlushedRx(requested)
      invariant !Has(v, GRSTCTL_RXFFLSH) ==> !p.rxFlush
      decreases p.flushPolls + (if Has(v, GRSTCTL_RXFFLSH) then 1 else 0)
    {
      v := p.ReadGrstctl();
    }
    r := 1;
  }

  /** The bits both reset handlers OR into DOEPTSIZ0 to prepare EP0 OUT for a control
      transfer: three back-to-back SETUP packets, one packet, a transfer size of
      USB_EP0_RX_FIFO_SIZE (64) bytes. */
  const Ep0SetupTransferSize: bv32 := DOEPTSIZ_STUPCNT | (1 << EPTSIZ_PKTCNT_Pos) | 64

  /** The value field by field: STUPCNT 3, PKTCNT 1, XFRSIZ the EP0 receive FIFO size. */
  lemma Ep0SetupTransferSizeFields()
    ensures (Ep0SetupTransferSize >> 29) & 0x3 == 3
    ensures (Ep0SetupTransferSize >> EPTSIZ_PKTCNT_Pos) & 0x3FF == 1
    ensures Ep0SetupTransferSize & 0x7_FFFF == Ep0RxFifoSize as bv32
  {}

  const TwoTo32: nat := 0x1_0000_0000

  /** `(len + 3) / 4` computed in 32-bit unsigned arithmetic, as written: the sum wraps. */
  function WordsFor(len: nat): nat
    requires len < TwoTo32
  {
    ((len + 3) % TwoTo32) / 4
  }

  /** The FIFO space DTXFSTS reports holds WordsFor(len) words. */
  predicate RoomFor(e: InEndpoint, len: nat)
    requires len < TwoTo32
  {
    WordsFor(len) <= (e.txfsts & DTXFSTS_INEPTFSAV) as int
  }

  /** The two guards of usb_write_fifo: EP0 IN is active, and the FIFO reports room. */
  predicate WriteAccepted(s: OtgState, len: nat)
    requires len < TwoTo32
  {
    Has(s.In(0).ctl, EPCTL_USBAEP) && RoomFor(s.In(0), len)
  }

  /** The IN transfer size register for one packet of `len` bytes. */
  function InTransferSize(len: bv32): bv32
  {
    (1 << EPTSIZ_PKTCNT_Pos) | len
  }

  /** usb_write_fifo on values: when a guard fails nothing changes; otherwise the reply is
      queued. */
  function WriteFifoSpec(s: OtgState, src: seq<bv8>, len: nat): (r: OtgState)
    requires len <= |src| && len < TwoTo32
    ensures r.global == s.global && r.device == s.device
    ensures r.rxStatus == s.rxStatus && r.rxData == s.rxData
  {
    if WriteAccepted(s, len) then QueuedReply(s, src, len) else s
  }

  /** What usb_write_fifo does once both guards pass: one packet of `len` bytes in
      DIEPTSIZ0, EP0 IN's STALL cleared, its NAK cleared and the endpoint enabled, the
      bytes pushed, and EP0 OUT's NAK cleared and the endpoint enabled. */
  function QueuedReply(s: OtgState, src: seq<bv8>, len: nat): OtgState
    requires len <= |src| && len < TwoTo32
  {
    var sized := UpdateDieptsiz(s, 0, WriteValue(InTransferSize(len as bv32)));
    var unstalled := UpdateDiepctl(sized, 0, ClearBits(EPCTL_STALL));
    var enabled := UpdateDiepctl(unstalled, 0, SetBits(EPCTL_CNAK | EPCTL_EPENA));
    var pushed := enabled.(txFifo := enabled.txFifo + PackWords(src[..len]));
    UpdateDoepctl(pushed, 0, SetBits(EPCTL_CNAK | EPCTL_EPENA))
  }

  /** A write refused by either guard, EP0 IN not active or too little room reported,
      changes nothing: no register is written and no word is pushed. */
  lemma WriteFifoRefused(s: OtgState, src: seq<bv8>, len: nat)
    requires len <= |src| && len < TwoTo32
    requires !Has(s.In(0).ctl, EPCTL_USBAEP) || WordsFor(len) > (s.In(0).txfsts & DTXFSTS_INEPTFSAV) as int
    ensures WriteFifoSpec(s, src, len) == s
  {
    RefusedWhenGuardFails(s, len);
  }

  /** Either failed guard rejects the write. */
  lemma RefusedWhenGuardFails(s: OtgState, len: nat)
    requires len < TwoTo32
    requires !Has(s.In(0).ctl, EPCTL_USBAEP) || WordsFor(len) > (s.In(0).txfsts & DTXFSTS_INEPTFSAV) as int
    ensures !WriteAccepted(s, len)
  {
    var room := (s.In(0).txfsts & DTXFSTS_INEPTFSAV) as int;
    assert RoomFor(s.In(0), len) <==> WordsFor(len) <= room;
  }

  /** usb_write_fifo reads only the first `len` bytes of its source. */
  lemma WriteFifoUsesPrefix(s: OtgState, src: seq<bv8>, len: nat)
    requires len <= |src| && len < TwoTo32
    ensures WriteFifoSpec(s, src, len) == WriteFifoSpec(s, src[..len], len)
  {
    assert src[..len][..len] == src[..len];
  }

  /** An accepted write appends ceil(len / 4) words to the FIFO, and those words, read back
      byte by byte in memory order, are the `len` source bytes followed by zero padding to
      a whole word. Nothing already in the FIFO is disturbed. */
  lemma WriteFifoFillsFifo(s: OtgState, src: seq<bv8>, len: nat)
    requires len <= |src| && len < TwoTo32
    requires WriteAccepted(s, len)
    ensures var r := WriteFifoSpec(s, src, len);
            && |s.txFifo| <= |r.txFifo|
            && r.txFifo[..|s.txFifo|] == s.txFifo
            && |r.txFifo| - |s.txFifo| == (len + 3) / 4
            && UnpackWords(r.txFifo[|s.txFifo|..]) == PadToWord(src[..len])
  {
    var r := WriteFifoSpec(s, src, len);
    var pushed := PackWords(src[..len]);
    assert r.txFifo == s.txFifo + pushed;
    assert r.txFifo[|s.txFifo|..] == pushed;
    PackWordsLength(src[..len]);
    UnpackPackWords(src[..len]);
  }

  /** An accepted write leaves EP0 IN programmed for one packet of `len` bytes, enabled,
      with its NAK cleared and not stalled. */
  lemma WriteFifoEnablesIn(s: OtgState, src: seq<bv8>, len: nat)
    requires len <= |src| && len < TwoTo32
    requires WriteAccepted(s, len)
    ensures var e := WriteFifoSpec(s, src, len).In(0);
            && e.tsiz == InTransferSize(len as bv32)
            && !Has(e.ctl, EPCTL_STALL) && Has(e.ctl, EPCTL_CNAK) && Has(e.ctl, EPCTL_EPENA)
  {
    EndpointEnableBits(s.In(0).ctl);
  }

  /** An accepted write leaves EP0 OUT enabled with its NAK cleared, and changes no other
      register: no other endpoint, no global or device register. */
  lemma WriteFifoEnablesOut(s: OtgState, src: seq<bv8>, len: nat)
    requires len <= |src| && len < TwoTo32
    requires WriteAccepted(s, len)
    ensures var r := WriteFifoSpec(s, src, len);
            && Has(r.Out(0).ctl, EPCTL_CNAK) && Has(r.Out(0).ctl, EPCTL_EPENA)
            && (forall ep :: ep != 0 ==> r.In(ep) == s.In(ep) && r.Out(ep) == s.Out(ep))
            && r.In(0).intr == s.In(0).intr && r.Out(0).intr == s.Out(0).intr
            && r.global == s.global && r.device == s.device
            && r.rxStatus == s.rxStatus && r.rxData == s.rxData
  {
    EnableBits(s.Out(0).ctl);
  }

  /** Clearing STALL and then setting CNAK and EPENA leaves STALL clear and the other two set. */
  lemma EndpointEnableBits(ctl: bv32)
    ensures var c := (ctl & !EPCTL_STALL) | (EPCTL_CNAK | EPCTL_EPENA);
            !Has(c, EPCTL_STALL) && Has(c, EPCTL_CNAK) && Has(c, EPCTL_EPENA)
  {}

  /** Setting CNAK and EPENA leaves both set. */
  lemma EnableBits(ctl: bv32)
    ensures Has(ctl | (EPCTL_CNAK | EPCTL_EPENA), EPCTL_CNAK)
    ensures Has(ctl | (EPCTL_CNAK | EPCTL_EPENA), EPCTL_EPENA)
  {}

  /** For a packet that fits the 19-bit XFRSIZ field, the transfer size register holds a
      packet count of one and a transfer size of `len`. */
  lemma InTransferSizeFields(len: bv32)
    requires len < 0x8_0000
    ensures InTransferSize(len) & 0x7_FFFF == len
    ensures (InTransferSize(len) >> EPTSIZ_PKTCNT_Pos) & 0x3FF == 1
  {}

  /** The zero-length reply that acknowledges a request is accepted whenever EP0 IN is
      active, even with a full FIFO, and pushes no word. */
  lemma WriteFifoZeroLength(s: OtgState, src: seq<bv8>)
    requires Has(s.In(0).ctl, EPCTL_USBAEP)
    ensures WriteAccepted(s, 0)
    ensures WriteFifoSpec(s, src, 0).txFifo == s.txFifo
    ensures WriteFifoSpec(s, src, 0).In(0).tsiz == 0x8_0000
  {
    assert WordsFor(0) == 0;
    assert src[..0] == [] && PackWords([]) == [];
    ZeroLengthTransferSize();
  }

  /** A zero-length packet's transfer size is a packet count of one and no bytes. */
  lemma ZeroLengthTransferSize()
    ensures InTransferSize(0) == 0x8_0000
  {}

  /** As written, the word count wraps for the three largest lengths: a write of
      0xFFFF_FFFF bytes passes the room check with no room at all, although its bytes fill
      0x4000_0000 words. */
  lemma WriteFifoGuardWraps(s: OtgState, src: seq<bv8>)
    requires |src| == 0xFFFF_FFFF
    requires Has(s.In(0).ctl, EPCTL_USBAEP)
    requires s.In(0).txfsts & DTXFSTS_INEPTFSAV == 0
    ensures WriteAccepted(s, 0xFFFF_FFFF)
    ensures |PackWords(src)| == 0x4000_0000
  {
    PackWordsLength(src);
  }

  /** The intended word count: ceil(len / 4) without wrap-around. */
  function WordsNeeded(len: nat): nat
  {
    (len + 3) / 4
  }

  /** The room check with the intended word count. */
  predicate CorrectedWriteAccepted(s: OtgState, len: nat)
  {
    && Has(s.In(0).ctl, EPCTL_USBAEP)
    && WordsNeeded(len) <= (s.In(0).txfsts & DTXFSTS_INEPTFSAV) as int
  }

  /** With the intended count, an accepted write never pushes more words than the FIFO
      reported room for. */
  lemma CorrectedGuardFitsFifo(s: OtgState, src: seq<bv8>, len: nat)
    requires len <= |src|
    requires CorrectedWriteAccepted(s, len)
    ensures |PackWords(src[..len])| <= (s.In(0).txfsts & DTXFSTS_INEPTFSAV) as int
  {
    PackWordsLength(src[..len]);
  }

  /** For every length up to 0xFFFF_FFFC, which includes every reply the driver sends, the
      written and the intended checks agree. */
  lemma GuardsAgree(s: OtgState, len: nat)
    requires len <= 0xFFFF_FFFC
    ensures WriteAccepted(s, len) <==> CorrectedWriteAccepted(s, len)
  {}

  /** usb_write_fifo. The source buffer must hold `len` readable bytes. */
  method WriteFifo(p: Peripheral, src: seq<bv8>, len: nat)
    requires len <= |src| && len < TwoTo32
    modifies p`hw
    ensures p.hw == WriteFifoSpec(old(p.hw), src, len)
  {
    if !Has(p.hw.In(0).ctl, EPCTL_USBAEP) {
      return;
    }
    if !RoomFor(p.hw.In(0), len) {
      return;
    }
    QueueReply(p, src, len);
  }

  /** The accepted part of usb_write_fifo. */
  method QueueReply(p: Peripheral, src: seq<bv8>, len: nat)
    requires len <= |src| && len < TwoTo32
    modifies p`hw
    ensures p.hw == QueuedReply(old(p.hw), src, len)
  {
    p.hw := UpdateDieptsiz(p.hw, 0, WriteValue(InTransferSize(len as bv32)));
    p.hw := UpdateDiepctl(p.hw, 0, ClearBits(EPCTL_STALL));
    p.hw := UpdateDiepctl(p.hw, 0, SetBits(EPCTL_CNAK | EPCTL_EPENA));
    PushBytes(p, src, len);
    p.hw := UpdateDoepctl(p.hw, 0, SetBits(EPCTL_CNAK | EPCTL_EPENA));
  }

  /** The copy loop of usb_write_fifo: `len / 4` whole words read little-endian from the
      buffer, then, if `len` is not a multiple of four, the remaining bytes in the low end
      of a zeroed word. */
  method PushBytes(p: Peripheral, src: seq<bv8>, len: nat)
    requires len <= |src|
    modifies p`hw
    ensures p.hw == old(p.hw.(txFifo := p.hw.txFifo + PackWords(src[..len])))
  {
    for i := 0 to len / 4
      invariant p.hw == old(p.hw).(txFifo := p.hw.txFifo)
      invariant p.hw.txFifo == old(p.hw.txFifo) + PackWords(src[..4 * i])
    {
      var word := src[4 * i..4 * i + 4];
      p.PushTx(WordOf(word));
      PackOneWord(word);
      PackWordsAppend(src[..4 * i], word);
      assert src[..4 * (i + 1)] == src[..4 * i] + word;
    }
    var whole := len - len % 4;
    assert src[..4 * (len / 4)] == src[..whole];
    if len % 4 != 0 {
      var tail := src[whole..len];
      p.PushTx(WordOf(tail + Zeros(4 - |tail|)));
      PackPartialWord(tail);
      PackWordsAppend(src[..whole], tail);
      assert src[..len] == src[..whole] + tail;
    } else {
      assert src[..whole] == src[..len];
    }
  }
}
