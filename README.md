# USB device engine of the STM32F411 OTG_FS HID driver, modelled in Dafny

This project models the device-side protocol engine of a bare-metal USB driver. The driver
runs on the OTG_FS peripheral of an STM32F411 and presents itself as a HID keyboard. The
model covers these parts:

- **The interrupt dispatcher** (`usb_irq_handler`). It reads GINTSTS once and runs the
  handler of each flag it finds, in a fixed order. Each flag with a handler is acknowledged.
- **The receive-status handler** (`rxflvl_handler`). It pops one GRXSTSP word and splits it
  into packet status, byte count, endpoint and data PID. Only a SETUP packet copies data:
  two FIFO words go into the driver's 8-byte setup packet.
- **The endpoint handlers** (`oepint_handler`, `iepint_handler`). The endpoint number is
  the lowest set bit of one half of DAINT. Each endpoint flag read is acknowledged on its own.
- **The EP0 control protocol** (`oepint_stup_handler`,
  `oepint_stup_get_descriptor_handler`). SET_ADDRESS ORs wValue into DCFG.DAD and sends a
  zero-length status packet. After a bus reset this agrees with section 9.4.6 of USB 2.0;
  without a reset in between it does not (see Findings). GET_DESCRIPTOR serves the device
  and configuration descriptors from the constant tables, cut to wLength as section 9.4.3
  of USB 2.0 requires. It sends nothing for descriptor types 3 to 9 and halts on any other
  type, where the standard expects a Request Error.
- **The FIFO services of `usb.c`**: the two FIFO flushes, the stored driver instance, and
  `usb_write_fifo`. That function has an EP0-active guard, a free-space guard, and packs
  bytes into little-endian words.
- **The gated connection state machine** of `_usb_not_used.c` (NONE, POWERED, RESET,
  DEFAULT). That file is not compiled, but it is the only code that advances the driver's
  state.
- **The public types** of `usb.h`: the device state enumeration, the setup-packet union with
  its three views, and the driver context.
- **The constants** of `usb_internal.h` and the descriptor tables of `usb_desc.h`.

The peripheral is the class `Otg.Peripheral`. It holds one `OtgState` value, which every
register access replaces: the global, device and endpoint registers as `bv32`, the words
pushed into the EP0 transmit FIFO, and the queues of receive status words and receive data
words. It also holds how far the hardware still is from finishing: the reads of GRSTCTL
that still show the AHB master busy or a flush in progress. So each busy-wait loop of the
driver is a `while` loop with a variant and terminates.

Each handler of the driver is a method on the peripheral (and on the driver context). The
method is proved to have exactly the effect of a specification function on `OtgState`.
That function performs the same register accesses in the same order. The properties the
driver promises are then proved as lemmas about those functions: which flags are
acknowledged, what a bus reset leaves, what a reply puts in the FIFO, and the round trips of
the encodings.

A failed `ENSURE`/`ASSERT` disables interrupts and traps, and a mode mismatch enters an
endless loop. Both are modelled as the outcome `Halted`, with the register state reached at
that point.

The model follows the code as written, including these points where the code departs from
its own comments or from what a reader of the declarations would expect:

- The dispatcher acknowledges only the flags it has a handler for. Other pending flags stay
  set (`UsbIsr.IrqSpec`, `UsbIsrProperties.CompletedDispatchAcknowledges`).
- The compiled bus-reset and enumeration handlers in `usb_isr.c` do not look at the driver
  state and never change it (`UsbIsr.IrqHandler` keeps every field of the driver context
  but the setup packet). Only the handlers in `_usb_not_used.c` are gated on the state
  (module `UsbStateMachine`).
- `rxflvl_handler` sets RXFLVLM on exit whatever it was on entry
  (`UsbIsrProperties.RxflvlUnmasks`).
- `endpoint_reset_init` ORs `0x03` into the OUT half of DAINTMSK, which unmasks OUT
  endpoints 0 and 1.
- `endpoint_reset_init` sets GRXFSIZ to 36 words, although its comment computes 28
  (`UsbStateMachine.EndpointResetPreparesEp0`).
- The device descriptor's bcdDevice is `MAJOR_VER, MAJOR_VER`, that is 0x0101.

## Model

| member | source | states |
|---|---|---|
| LittleEndian.WordOfBytesOf | stm32f411_device_hid/usb/inc/usb.h:66 | splitting a 32-bit word into its four bytes, lowest address first, and reassembling them gives the word back |
| LittleEndian.BytesOfWordOf | stm32f411_device_hid/usb/inc/usb.h:66 | four bytes assembled into a little-endian word and split again are the same four bytes |
| LittleEndian.PackWordsLength | stm32f411_device_hid/usb/src/usb.c:96-105 | packing n bytes gives ceil(n / 4) words: n / 4 whole words plus one more when n is not a multiple of four |
| LittleEndian.UnpackPackWords | stm32f411_device_hid/usb/src/usb.c:96-105 | the packed words, read back byte by byte, are the input bytes followed by zero bytes up to a multiple of four |
| LittleEndian.PackWordsAppend | stm32f411_device_hid/usb/src/usb.c:96-99 | packing splits at any word boundary, so the loop can push word by word |
| LittleEndian.PackOneWord | stm32f411_device_hid/usb/src/usb.c:98 | four bytes read as one `uint32_t` pack into exactly their little-endian word |
| LittleEndian.PackPartialWord | stm32f411_device_hid/usb/src/usb.c:100-105 | a tail of one to three bytes, copied into a zeroed word, packs as those bytes with zero high-order bytes |
| UsbTypes.StateCodeRoundTrip | stm32f411_device_hid/usb/inc/usb.h:32-40 | the enumerator values 0 .. 5 identify the six states: decoding a state's value gives the state, and every value 0 .. 5 is some state's |
| UsbTypes.StateNumberingIsNotLifecycleOrder | stm32f411_device_hid/usb/inc/usb.h:24-40 | constant check: RESET is numbered below POWERED although the device only enters RESET from POWERED |
| UsbTypes.FieldsRoundTrip | stm32f411_device_hid/usb/inc/usb.h:47-54 | the five fields written through the field view read back unchanged |
| UsbTypes.PacketFieldsRoundTrip | stm32f411_device_hid/usb/inc/usb.h:45-54 | any 8 bytes read through the field view and written back are the same bytes: the field view is a bijection on setup packets |
| UsbTypes.DetailedRoundTrip | stm32f411_device_hid/usb/inc/usb.h:55-64 | the byte-level `detailed` view round-trips in both directions |
| UsbTypes.ViewsAgree | stm32f411_device_hid/usb/inc/usb.h:47-64 | the two views of the same bytes agree: wValue is value_l + 256 * value_h, so `value >> 8` is value_h, and likewise for wIndex |
| UsbTypes.DetailedThenFields | stm32f411_device_hid/usb/inc/usb.h:45-64 | a packet written through the detailed view reads, in the field view, with the recombined 16-bit values |
| UsbTypes.RawWordsRoundTrip | stm32f411_device_hid/usb/inc/usb.h:66 | raw_packet_data[0] holds bytes 0 .. 3 and raw_packet_data[1] bytes 4 .. 7: storing two words reads them back, and a packet's two words rebuild it |
| UsbTypes.RawWordsDecode | stm32f411_device_hid/usb/inc/usb.h:45-66 | the fields of a packet stored as two FIFO words, in terms of those words |
| UsbTypes.StoreTwoWords | stm32f411_device_hid/usb/src/usb_isr.c:214-219 | storing word 0 and then word 1 overwrites the whole previous packet: only one setup packet is held |
| UsbTypes.Driver.constructor | stm32f411_device_hid/usb/inc/usb.h:77-87 | a zero-initialised driver context: state NONE, address 0, a zero setup packet, a 64-byte transmit buffer of zeros with length 0 |
| UsbInternal.FifoSizesInWords | stm32f411_device_hid/usb/inc/usb_internal.h:12-14 | constant check: the EP0 receive and transmit FIFOs are 16 words and the global receive FIFO 32 words |
| UsbInternal.RxStatusOf | stm32f411_device_hid/usb/inc/usb_internal.h:28-35 | decoding a packet-status value is total and loses nothing: the decoded status encodes back to the value |
| UsbInternal.RxStatusCodes | stm32f411_device_hid/usb/inc/usb_internal.h:28-35 | the five named status codes decode back to their names, and a value has no name exactly when it is not 1, 2, 3, 4 or 6 |
| UsbInternal.RequestOf | stm32f411_device_hid/usb/inc/usb_internal.h:40-53 | decoding bRequest is total and encodes back to the byte |
| UsbInternal.RequestCodes | stm32f411_device_hid/usb/inc/usb_internal.h:40-53 | the named requests have distinct codes (as in Table 9-4 of USB 2.0) that decode back to them; exactly 2, 4 and 13 .. 255 are unnamed |
| UsbInternal.DescriptorTypeOf | stm32f411_device_hid/usb/inc/usb_internal.h:58-70 | decoding a descriptor type is total and encodes back to the value |
| UsbInternal.DescriptorTypeCodes | stm32f411_device_hid/usb/inc/usb_internal.h:58-70 | the named types 1 .. 9 and 0x22 decode back to their names; exactly 0, 10 .. 0x21 and above 0x22 are unnamed |
| UsbDesc.DeviceDescriptorWellFormed | stm32f411_device_hid/usb/inc/usb_desc.h:26-41 | the device descriptor is 18 bytes, bLength 18, type 1, bcdUSB 0x0200 little-endian, bMaxPacketSize0 64 and one configuration (section 9.6.1 of USB 2.0) |
| UsbDesc.ConfigurationDescriptorWellFormed | stm32f411_device_hid/usb/inc/usb_desc.h:43-67 | the configuration blob is 25 bytes and says so in wTotalLength; walking it by bLength finds types 2, 4, 5 at offsets 0, 9, 18 with lengths 9, 9, 7, ending at 25 (section 9.6.3 of USB 2.0) |
| UsbDesc.EndpointDescriptorFields | stm32f411_device_hid/usb/inc/usb_desc.h:61-66 | the endpoint descriptor names IN endpoint 1, interrupt transfers, 8-byte packets and a 10 ms interval |
| UsbDesc.StringDescriptorsWellFormed | stm32f411_device_hid/usb/inc/usb_desc.h:73-117 | each of the three string descriptors states its own length and has type 3; the language table holds LANGID 0x0409 (section 9.6.7 of USB 2.0) |
| UsbDesc.Utf16HighBytesZero | stm32f411_device_hid/usb/inc/usb_desc.h:82-108 | an ASCII string encoded as UTF-16LE has every high byte zero |
| UsbDesc.StringCharactersAreUtf16Le | stm32f411_device_hid/usb/inc/usb_desc.h:82-108 | in the manufacturer and product strings every odd byte after the header is zero |
| Otg.Peripheral.PopRxStatus | stm32f411_device_hid/usb/src/usb_isr.c:186 | reading GRXSTSP returns the oldest status word and removes it, changing nothing else |
| Otg.Peripheral.PopRxData | stm32f411_device_hid/usb/src/usb_isr.c:217 | reading the FIFO data port returns the oldest data word and removes it |
| Otg.Peripheral.PushTx | stm32f411_device_hid/usb/src/usb.c:98 | writing the FIFO data port appends one word to the EP0 transmit FIFO |
| Otg.Peripheral.RequestTxFlush | stm32f411_device_hid/usb/src/usb.c:55 | setting TXFFLSH starts a transmit FIFO flush that the hardware finishes after a bounded number of reads |
| Otg.Peripheral.RequestRxFlush | stm32f411_device_hid/usb/src/usb.c:65 | setting RXFFLSH starts a receive FIFO flush in the same way |
| Otg.Peripheral.ReadGrstctl | stm32f411_device_hid/usb/src/usb.c:53-56 | a GRSTCTL read shows AHBIDL once the AHB master is idle and a flush bit while that flush runs; a flush that ends empties its FIFO |
| Usb.UsbGlobals.constructor | stm32f411_device_hid/usb/src/usb.c:17 | no driver instance is stored (NULL) before `usb_init` |
| Usb.UsbGlobals.Init | stm32f411_device_hid/usb/src/usb.c:27-38 | `usb_init` stores the context it is given and puts it in the NONE state, leaving its other fields as they were |
| Usb.UsbGlobals.GetInstance | stm32f411_device_hid/usb/src/usb.c:44-48 | `usb_get_instance` returns exactly the instance last stored |
| Usb.WaitAhbIdle | stm32f411_device_hid/usb/src/usb.c:53 | the wait for AHBIDL terminates with the AHB master idle and no register changed |
| Usb.FlushTxFifo | stm32f411_device_hid/usb/src/usb.c:50-58 | `flush_tx_fifo` returns 1 only after the hardware has cleared TXFFLSH; the transmit FIFO is then empty and nothing else has changed |
| Usb.FlushRxFifo | stm32f411_device_hid/usb/src/usb.c:60-68 | `flush_rx_fifo` returns 1 only after RXFFLSH is clear; no status or data word is left and nothing else has changed |
| Usb.Ep0SetupTransferSizeFields | stm32f411_device_hid/usb/src/usb_isr.c:144-146 | the value ORed into DOEPTSIZ0 is STUPCNT 3, PKTCNT 1 and XFRSIZ 64, the EP0 receive FIFO size |
| Usb.WriteFifoSpec | stm32f411_device_hid/usb/src/usb.c:70-109 | `usb_write_fifo` never writes a global or device register and never touches the receive queues |
| Usb.WriteFifoRefused | stm32f411_device_hid/usb/src/usb.c:73-87 | a write refused because EP0 IN is not active, or because ceil(len / 4) exceeds the room DTXFSTS reports, changes nothing |
| Usb.WriteFifoUsesPrefix | stm32f411_device_hid/usb/src/usb.c:96-105 | only the first `len` bytes of the source are read |
| Usb.WriteFifoFillsFifo | stm32f411_device_hid/usb/src/usb.c:80-105 | an accepted write appends exactly ceil(len / 4) words after what the FIFO held, and those words read back as the `len` bytes followed by zero padding |
| Usb.WriteFifoEnablesIn | stm32f411_device_hid/usb/src/usb.c:89-94 | an accepted write programs one packet of `len` bytes on EP0 IN, clears its STALL and sets CNAK and EPENA |
| Usb.WriteFifoEnablesOut | stm32f411_device_hid/usb/src/usb.c:107 | an accepted write sets CNAK and EPENA on EP0 OUT and changes no other endpoint, no interrupt flag and no global or device register |
| Usb.InTransferSizeFields | stm32f411_device_hid/usb/src/usb.c:89-91 | for a length that fits XFRSIZ, DIEPTSIZ0 holds a packet count of 1 and a transfer size of `len` |
| Usb.WriteFifoZeroLength | stm32f411_device_hid/usb/src/usb.c:80-105 | with EP0 IN active a zero-length write is always accepted, pushes no word and programs a one-packet, zero-byte transfer: a status packet |
| Usb.WriteFifoGuardWraps | stm32f411_device_hid/usb/src/usb.c:80-87 | as written, a write of 0xFFFF_FFFF bytes passes the room check with no room at all, although its bytes fill 0x4000_0000 words |
| Usb.CorrectedGuardFitsFifo | stm32f411_device_hid/usb/src/usb.c:80-87 | with the word count computed without wrap-around, an accepted write never pushes more words than the FIFO reported room for |
| Usb.GuardsAgree | stm32f411_device_hid/usb/src/usb.c:80-87 | for every length up to 0xFFFF_FFFC the check as written and the corrected check agree |
| Usb.WriteFifo | stm32f411_device_hid/usb/src/usb.c:70-109 | `usb_write_fifo` does nothing when a guard fails and queues the reply otherwise, as `WriteFifoSpec` |
| Usb.QueueReply | stm32f411_device_hid/usb/src/usb.c:89-107 | the accepted part: transfer size, STALL cleared, EP0 IN enabled, bytes pushed, EP0 OUT enabled |
| Usb.PushBytes | stm32f411_device_hid/usb/src/usb.c:96-105 | the copy loop pushes exactly the packed words of the first `len` bytes and changes nothing else |
| UsbIsr.Ctz | stm32f411_device_hid/usb/src/usb_isr.c:240 | `__builtin_ctz` of a non-zero value is the index of its lowest set bit: that bit is set and every lower bit is clear |
| UsbIsr.SrqintHandler | stm32f411_device_hid/usb/src/usb_isr.c:109-114 | the compiled session-request handler only acknowledges SRQINT |
| UsbIsr.UsbrstHandler | stm32f411_device_hid/usb/src/usb_isr.c:119-150 | the bus-reset handler performs its register accesses in order, the transmit FIFO flush included |
| UsbIsr.EnumdneHandler | stm32f411_device_hid/usb/src/usb_isr.c:155-174 | the enumeration-done handler performs its register accesses in order |
| UsbIsr.SetupWordCount | stm32f411_device_hid/usb/src/usb_isr.c:200 | constant check: an 8-byte packet occupies (8 + 3) / 4 = 2 FIFO words |
| UsbIsr.RxflvlHandler | stm32f411_device_hid/usb/src/usb_isr.c:180-229 | the receive handler pops one status word and, for an accepted SETUP packet, copies the data words one at a time, in pop order, into the setup packet |
| UsbIsr.GetDescriptorHandler | stm32f411_device_hid/usb/src/usb_isr.c:380-390 | the descriptor type is wValue's high byte and the length requested is wLength |
| UsbIsr.ServeDescriptor | stm32f411_device_hid/usb/src/usb_isr.c:391-433 | the table is chosen by type, `len` is cut in place to the length requested, and the write happens only with a table and a non-zero length |
| UsbIsr.StupHandler | stm32f411_device_hid/usb/src/usb_isr.c:342-378 | the SETUP handler serves SET_ADDRESS and GET_DESCRIPTOR and ignores every other request |
| UsbIsr.OepintHandler | stm32f411_device_hid/usb/src/usb_isr.c:234-272 | the OUT endpoint handler finds the endpoint, acknowledges each flag it read in turn, and serves a SETUP phase on endpoint 0 before clearing STUP |
| UsbIsr.IepintHandler | stm32f411_device_hid/usb/src/usb_isr.c:277-332 | the IN endpoint handler acknowledges IEPINT first, then rearms the OUT endpoint on a completed transfer and acknowledges each flag it read |
| UsbIsr.AckOut | stm32f411_device_hid/usb/src/usb_isr.c:243-268 | a DOEPINT flag is acknowledged exactly when it was among the flags read |
| UsbIsr.AckIn | stm32f411_device_hid/usb/src/usb_isr.c:297-331 | a DIEPINT flag is acknowledged exactly when it was among the flags read |
| UsbIsr.IrqHandler | stm32f411_device_hid/usb/src/usb_isr.c:28-100 | without a driver instance nothing is touched; otherwise the handlers of the flags read from GINTSTS run in order until one halts; of the driver context only the setup packet changes, so the device state, address and transmit buffer stay as they were |
| UsbIsr.BusPhase | stm32f411_device_hid/usb/src/usb_isr.c:41-56 | SRQINT, USBRST, ENUMDNE and SOF are handled in that order, each only if read |
| UsbIsr.PowerPhase | stm32f411_device_hid/usb/src/usb_isr.c:61-76 | ESUSP, USBSUSP and WKUINT are only acknowledged, each only if read |
| UsbIsr.EndpointPhase | stm32f411_device_hid/usb/src/usb_isr.c:84-99 | OEPINT, then IEPINT, then a session end read afresh from GOTGINT |
| UsbIsrProperties.SrqintStep | stm32f411_device_hid/usb/src/usb_isr.c:41-44 | the session-request step acknowledges SRQINT if it was read, and no other GINTSTS flag |
| UsbIsrProperties.UsbrstStep | stm32f411_device_hid/usb/src/usb_isr.c:45-48 | the bus-reset step acknowledges USBRST if it was read, and no other GINTSTS flag |
| UsbIsrProperties.EnumdneStep | stm32f411_device_hid/usb/src/usb_isr.c:49-52 | the enumeration-done step acknowledges ENUMDNE if it was read, and no other GINTSTS flag |
| UsbIsrProperties.BusEventsGintsts | stm32f411_device_hid/usb/src/usb_isr.c:41-56 | the bus events change GINTSTS by acknowledging each of the four flags that was read, in turn |
| UsbIsrProperties.BusEventsAcknowledge | stm32f411_device_hid/usb/src/usb_isr.c:41-56 | the bus events clear exactly the bus flags that were read |
| UsbIsrProperties.PowerEventsAcknowledge | stm32f411_device_hid/usb/src/usb_isr.c:61-76 | the suspend and wakeup steps clear exactly the suspend and wakeup flags that were read |
| UsbIsrProperties.RxflvlAcknowledges | stm32f411_device_hid/usb/src/usb_isr.c:180-229 | a completed receive handler acknowledges RXFLVL and no other GINTSTS flag |
| UsbIsrProperties.RxflvlDoneAcknowledges | stm32f411_device_hid/usb/src/usb_isr.c:226-228 | the end of the receive handler acknowledges RXFLVL and no other flag |
| UsbIsrProperties.StupKeepsGlobals | stm32f411_device_hid/usb/src/usb_isr.c:342-378 | serving a SETUP packet writes no core global register |
| UsbIsrProperties.OepintAcknowledges | stm32f411_device_hid/usb/src/usb_isr.c:234-272 | a completed OUT endpoint handler acknowledges OEPINT and no other GINTSTS flag |
| UsbIsrProperties.IepintAcknowledges | stm32f411_device_hid/usb/src/usb_isr.c:277-332 | the IN endpoint handler acknowledges IEPINT and no other GINTSTS flag |
| UsbIsrProperties.OutStep | stm32f411_device_hid/usb/src/usb_isr.c:84-88 | the OEPINT step leaves DAINT and, when it completes, acknowledges OEPINT if it was read |
| UsbIsrProperties.InStep | stm32f411_device_hid/usb/src/usb_isr.c:89-92 | the IEPINT step acknowledges IEPINT if it was read, and no other flag |
| UsbIsrProperties.SessionEndKeepsGintsts | stm32f411_device_hid/usb/src/usb_isr.c:95-99 | acknowledging a session end writes GOTGINT only |
| UsbIsrProperties.EndpointEventsShape | stm32f411_device_hid/usb/src/usb_isr.c:84-99 | the endpoint phase completes only if its OEPINT step does, which leaves DAINT's IN half for the IEPINT step |
| UsbIsrProperties.EndpointEventsAcknowledge | stm32f411_device_hid/usb/src/usb_isr.c:84-99 | a completed endpoint phase clears exactly the endpoint flags that were read |
| UsbIsrProperties.CompletedDispatchAcknowledges | stm32f411_device_hid/usb/src/usb_isr.c:38-100 | a dispatch that completes clears every flag it read and has a handler for, and leaves every other flag as it was |
| UsbIsrProperties.QuietInterrupt | stm32f411_device_hid/usb/src/usb_isr.c:38-99 | with GINTSTS zero and no session end pending, the dispatcher writes nothing |
| UsbIsrProperties.ModeMismatchIsFatal | stm32f411_device_hid/usb/src/usb_isr.c:77-83 | a mode mismatch always halts the driver; whenever the receive step completed, MMIS is acknowledged and no endpoint handler has run, so the endpoint flags are still pending |
| UsbIsrProperties.ReceiveHaltLeavesModeMismatch | stm32f411_device_hid/usb/src/usb_isr.c:57-83 | unless the receive handler halts first on a bad SETUP, in which case the dispatch stops there and MMIS stays pending, unacknowledged |
| UsbIsrProperties.UsbResetPreparesEp0 | stm32f411_device_hid/usb/src/usb_isr.c:119-150 | after a bus reset the address is 0, the transmit FIFO empty, EP0 OUT prepared for SETUP packets and NAKed, neither EP0 direction stalled or flagged, EP0 unmasked, and only USBRST acknowledged |
| UsbIsrProperties.UsbResetDeviceRegisters | stm32f411_device_hid/usb/src/usb_isr.c:122-148 | a bus reset clears the address field and nothing else of DCFG, empties the transmit FIFO, unmasks EP0 in DAINTMSK and acknowledges USBRST last |
| UsbIsrProperties.UsbResetOutEp0 | stm32f411_device_hid/usb/src/usb_isr.c:126-146 | a bus reset ORs the SETUP transfer size into DOEPTSIZ0, sets SNAK, clears STALL and clears EP0 OUT's flags |
| UsbIsrProperties.UsbResetInEp0 | stm32f411_device_hid/usb/src/usb_isr.c:124-125 | a bus reset clears EP0 IN's STALL and its interrupt flags |
| UsbIsrProperties.EnumerationDoneActivatesEp0 | stm32f411_device_hid/usb/src/usb_isr.c:155-174 | after enumeration DAINTMSK is exactly EP0 IN and OUT, both EP0 directions have MPSIZ 0 (64 bytes) and USBAEP set, the command bit DCTL.CGINAK is set and only ENUMDNE is acknowledged |
| UsbIsrProperties.EnumerationDoneEnablesReplies | stm32f411_device_hid/usb/src/usb_isr.c:166 | once enumeration is done, `usb_write_fifo` accepts a zero-length status packet |
| UsbIsrProperties.DecodeAssembledWord | stm32f411_device_hid/usb/src/usb_isr.c:186-195 | a GRXSTSP word built from four fields that fit decodes to those fields |
| UsbIsrProperties.StatusDecodesToItself | stm32f411_device_hid/usb/inc/usb_internal.h:28-35 | a status whose code no other name claims decodes from its code back to itself |
| UsbIsrProperties.RxStatusRoundTrip | stm32f411_device_hid/usb/src/usb_isr.c:186-195 | decoding the status word the core pushes for an event gives back the event: status, byte count, endpoint and data PID |
| UsbIsrProperties.RxStatusFieldsCoverWord | stm32f411_device_hid/usb/src/usb_isr.c:186-195 | every bit of a status word but the frame number reaches exactly one decoded field |
| UsbIsrProperties.RxflvlPopsOneStatus | stm32f411_device_hid/usb/src/usb_isr.c:186 | whatever the status, exactly one status word is popped |
| UsbIsrProperties.RxflvlCopiesSetup | stm32f411_device_hid/usb/src/usb_isr.c:212-221 | an accepted SETUP packet is copied: its two data words, in pop order, become the setup packet's raw words, and exactly two data words are popped |
| UsbIsrProperties.RxflvlOtherStatus | stm32f411_device_hid/usb/src/usb_isr.c:202-224 | every other status, named or not, pops no data word and leaves the setup packet unchanged |
| UsbIsrProperties.RxflvlHaltsOnBadSetup | stm32f411_device_hid/usb/src/usb_isr.c:213 | the receive handler halts exactly on a SETUP packet that is not eight bytes on endpoint 0 |
| UsbIsrProperties.RxflvlUnmasks | stm32f411_device_hid/usb/src/usb_isr.c:184-226 | when the receive handler completes RXFLVLM is set, whatever it was on entry, and no other mask bit changed |
| UsbIsrProperties.ShortSetupHalts | stm32f411_device_hid/usb/src/usb_isr.c:213 | a six-byte SETUP packet on endpoint 0 halts the driver |
| UsbIsrProperties.CtzOfOneEndpoint | stm32f411_device_hid/usb/src/usb_isr.c:238-240 | when a single endpoint bit k is pending, `__builtin_ctz` gives endpoint k |
| UsbIsrProperties.WriteFifoKeepsFlags | stm32f411_device_hid/usb/src/usb.c:70-109 | `usb_write_fifo` writes no endpoint interrupt register |
| UsbIsrProperties.GetDescriptorKeepsFlags | stm32f411_device_hid/usb/src/usb_isr.c:380-434 | GET_DESCRIPTOR writes no endpoint interrupt register |
| UsbIsrProperties.DescriptorRequestKeepsFlags | stm32f411_device_hid/usb/src/usb_isr.c:391-433 | serving a descriptor type and length writes no endpoint interrupt register |
| UsbIsrProperties.StupKeepsEndpointFlags | stm32f411_device_hid/usb/src/usb_isr.c:342-378 | serving a SETUP packet writes no endpoint interrupt register, so the OUT handler's later flag acknowledgements act on the flags it read |
| UsbIsrProperties.SetAddressKeepsFlags | stm32f411_device_hid/usb/src/usb_isr.c:355-359 | SET_ADDRESS writes no endpoint interrupt register |
| UsbIsrProperties.ReplyAfterDcfgKeepsFlags | stm32f411_device_hid/usb/src/usb_isr.c:357-358 | setting DCFG bits and sending a zero-length reply writes no endpoint interrupt register |
| UsbIsrProperties.AckOutIfEffect | stm32f411_device_hid/usb/src/usb_isr.c:243-268 | a conditional DOEPINT acknowledgement clears that flag on that endpoint only if it was read |
| UsbIsrProperties.AckInIfEffect | stm32f411_device_hid/usb/src/usb_isr.c:297-331 | a conditional DIEPINT acknowledgement clears that flag only if it was read and touches no OUT endpoint |
| UsbIsrProperties.OepintDoneFlags | stm32f411_device_hid/usb/src/usb_isr.c:259-268 | the end of the OUT handler acknowledges OTEPDIS and NAK on the endpoint it served, each if read |
| UsbIsrProperties.OepintStartFlags | stm32f411_device_hid/usb/src/usb_isr.c:243-252 | the start of the OUT handler acknowledges XFRC and EPDISD on the endpoint it serves, each if read |
| UsbIsrProperties.OutFlagsWithoutSetup | stm32f411_device_hid/usb/src/usb_isr.c:237-268 | without a SETUP phase the OUT handler clears the five flags it knows wherever they were read |
| UsbIsrProperties.OepintWithoutSetupShape | stm32f411_device_hid/usb/src/usb_isr.c:243-271 | without a SETUP phase the OUT handler goes from its first two flags straight to its last two |
| UsbIsrProperties.OepintAfterSetupShape | stm32f411_device_hid/usb/src/usb_isr.c:253-271 | a completed OUT handler that served a SETUP phase did so on endpoint 0, then acknowledged STUP and the last two flags |
| UsbIsrProperties.SetupThenAckStup | stm32f411_device_hid/usb/src/usb_isr.c:256-257 | serving a SETUP packet and then acknowledging STUP leaves endpoint 0's OUT flags as they were read, with only STUP cleared |
| UsbIsrProperties.OutFlagsAfterSetup | stm32f411_device_hid/usb/src/usb_isr.c:243-268 | after a SETUP phase served on endpoint 0 the OUT handler has cleared the five flags it knows |
| UsbIsrProperties.OutFlagsAcknowledged | stm32f411_device_hid/usb/src/usb_isr.c:234-272 | a completed OUT handler has cleared every flag it knows on the endpoint it served and left every other flag |
| UsbIsrProperties.SetupOnlyOnEndpointZero | stm32f411_device_hid/usb/src/usb_isr.c:253-258 | a SETUP phase reported on any endpoint but 0 halts the driver |
| UsbIsrProperties.IepintShape | stm32f411_device_hid/usb/src/usb_isr.c:280-331 | the IN handler is the transfer-complete branch followed by seven single-flag acknowledgements, and acknowledging IEPINT first does not change the endpoint it reads |
| UsbIsrProperties.InTransferDoneEffect | stm32f411_device_hid/usb/src/usb_isr.c:290-296 | on a completed IN transfer, PKTCNT's low bit is ORed into the same-numbered OUT endpoint's DOEPTSIZ and XFRC is acknowledged; otherwise neither changes |
| UsbIsrProperties.InLaterAcksEffect | stm32f411_device_hid/usb/src/usb_isr.c:297-331 | the seven later acknowledgements touch the IN endpoint's flags only, one flag each if read |
| UsbIsrProperties.InFlagsAcknowledged | stm32f411_device_hid/usb/src/usb_isr.c:277-332 | the IN handler clears every flag it knows on the endpoint it served and leaves every other flag |
| UsbIsrProperties.InTransferDoneClears | stm32f411_device_hid/usb/src/usb_isr.c:290-296 | the transfer-complete branch clears XFRC if it was read |
| UsbIsrProperties.InLaterAcksClear | stm32f411_device_hid/usb/src/usb_isr.c:297-331 | the seven later acknowledgements clear the other seven known flags where read |
| UsbIsrProperties.InCompletionRearmsOut | stm32f411_device_hid/usb/src/usb_isr.c:290-296 | a completed IN transfer sets PKTCNT's low bit in the same-numbered OUT endpoint's DOEPTSIZ (an odd packet count gains no packet), and without it DOEPTSIZ is unchanged |
| UsbIsrProperties.OtherRequestsIgnored | stm32f411_device_hid/usb/src/usb_isr.c:347-377 | every request but SET_ADDRESS and GET_DESCRIPTOR, named or not, writes nothing and completes |
| UsbIsrProperties.OrAddressIntoCleared | stm32f411_device_hid/usb/src/usb_isr.c:356-357 | ORing a seven-bit address into a DCFG whose address field is 0 stores it there and keeps every other bit |
| UsbIsrProperties.SetAddressDcfg | stm32f411_device_hid/usb/src/usb_isr.c:356-357 | SET_ADDRESS changes DCFG only by ORing in wValue shifted to the address field (a wValue of 128 or more also reaches the bits above it); `SetAddressState` gives the whole new state |
| UsbIsrProperties.SetAddressAfterReset | stm32f411_device_hid/usb/src/usb_isr.c:355-358 | after a bus reset, SET_ADDRESS with a seven-bit address stores that address and keeps DCFG's other bits |
| UsbIsrProperties.SetAddressSendsZeroLengthPacket | stm32f411_device_hid/usb/src/usb_isr.c:358 | with EP0 IN active, SET_ADDRESS queues exactly one zero-length status packet and pushes no word |
| UsbIsrProperties.SetAddressMergesAddresses | stm32f411_device_hid/usb/src/usb_isr.c:356-357 | as written, a device at address 5 told to move to address 10 answers at 15 |
| UsbIsrProperties.SetAddressState | stm32f411_device_hid/usb/src/usb_isr.c:356-358 | the request as written is one DCFG write with the address ORed in, followed by the zero-length reply |
| UsbIsrProperties.ReplaceAddressStores | stm32f411_device_hid/usb/src/usb_isr.c:356-357 | replacing the address field stores a seven-bit address whatever was there |
| UsbIsrProperties.ReplaceAddressKeepsOthers | stm32f411_device_hid/usb/src/usb_isr.c:356-357 | replacing the address field keeps every other bit of DCFG |
| UsbIsrProperties.ReplaceAddressAfterReset | stm32f411_device_hid/usb/src/usb_isr.c:356-357 | when the address field is 0, replacing it and ORing into it agree |
| UsbIsrProperties.CorrectedSetAddressState | stm32f411_device_hid/usb/src/usb_isr.c:356-358 | the corrected request is one DCFG write with the address field replaced, followed by the zero-length reply |
| UsbIsrProperties.CorrectedSetAddressStoresAddress | stm32f411_device_hid/usb/src/usb_isr.c:356-357 | the corrected request stores the new seven-bit address whatever address the device had, and keeps DCFG's other bits (section 9.4.6 of USB 2.0) |
| UsbIsrProperties.CorrectedAgreesAfterReset | stm32f411_device_hid/usb/src/usb_isr.c:355-358 | after a bus reset the corrected request and the request as written leave the same state |
| UsbIsrProperties.Prefix | stm32f411_device_hid/usb/src/usb_isr.c:421-428 | a reply is a non-empty prefix of the table no longer than wLength, and there is none exactly when the table or wLength is empty |
| UsbIsrProperties.DescriptorReply | stm32f411_device_hid/usb/src/usb_isr.c:383-433 | the reply the request calls for, by type: never longer than the largest descriptor |
| UsbIsrProperties.GetDescriptorRepliesAsSpecified | stm32f411_device_hid/usb/src/usb_isr.c:380-434 | the GET_DESCRIPTOR handler produces exactly the reply `DescriptorReply` names: the prefix written to EP0, nothing, or a halt |
| UsbIsrProperties.DeviceDescriptorReply | stm32f411_device_hid/usb/src/usb_isr.c:393-396 | for type 1 the device descriptor, cut to wLength, is written |
| UsbIsrProperties.ConfigurationDescriptorReply | stm32f411_device_hid/usb/src/usb_isr.c:397-400 | for type 2 the configuration descriptor, cut to wLength, is written |
| UsbIsrProperties.OtherNamedTypeReply | stm32f411_device_hid/usb/src/usb_isr.c:401-414 | for types 3 .. 9 nothing is sent |
| UsbIsrProperties.UnnamedTypeReply | stm32f411_device_hid/usb/src/usb_isr.c:415-417 | every other type fails the assertion |
| UsbIsrProperties.TypesServed | stm32f411_device_hid/usb/src/usb_isr.c:391-418 | the switch names exactly the codes 1 .. 9, and only codes 1 and 2 have a descriptor stored |
| UsbIsrProperties.RepliesWithTable | stm32f411_device_hid/usb/src/usb_isr.c:421-428 | for the device and configuration descriptors the handler writes the prefix the reply names, or nothing when it is empty |
| UsbIsrProperties.DescriptorReplyTruncates | stm32f411_device_hid/usb/src/usb_isr.c:421-428 | a reply is sent exactly for types 1 and 2 with a non-zero wLength, and it is the first min(wLength, length) bytes of the descriptor |
| UsbIsrProperties.DescriptorReplyIgnoresIndex | stm32f411_device_hid/usb/src/usb_isr.c:383-385 | the handler depends only on wValue's high byte and wLength: bmRequestType, wValue's low byte and wIndex are ignored |
| UsbIsrProperties.GetDeviceDescriptorScenario | stm32f411_device_hid/usb/src/usb_isr.c:380-434 | the host's first request (device descriptor, wLength 64) queues the 18-byte device descriptor as one packet, padded to five FIFO words |
| UsbIsrProperties.FirstRequestWritesDeviceDescriptor | stm32f411_device_hid/usb/src/usb_isr.c:383-427 | wValue 0x0100 with wLength 64 writes the whole 18-byte device descriptor |
| UsbIsrProperties.DeviceDescriptorQueued | stm32f411_device_hid/usb/src/usb.c:80-107 | writing the device descriptor to a FIFO with five free words programs an 18-byte packet and queues the descriptor plus two zero bytes |
| UsbIsrProperties.EighteenBytesQueued | stm32f411_device_hid/usb/src/usb.c:80-107 | any 18 bytes written to a FIFO with five free words go out as one packet padded with two zero bytes |
| UsbIsrProperties.ReportDescriptorHalts | stm32f411_device_hid/usb/src/usb_isr.c:415-417 | a request for the HID report descriptor (0x22) fails the assertion, although the type is named in the enumeration |
| UsbStateMachine.NextIsOneStep | stm32f411_device_hid/usb/src/_usb_not_used.c:104-156 | each event leaves a lifecycle state where it is or moves it one step along NONE, POWERED, RESET, DEFAULT |
| UsbStateMachine.EntryConditions | stm32f411_device_hid/usb/src/_usb_not_used.c:104-156 | RESET is entered only from POWERED by a bus reset, DEFAULT only from RESET by the end of enumeration, POWERED only from NONE by a session request |
| UsbStateMachine.RunStaysInLifecycle | stm32f411_device_hid/usb/src/_usb_not_used.c:104-156 | over any sequence of events the state stays on the lifecycle and never moves back |
| UsbStateMachine.NeverAddressedOrSuspended | stm32f411_device_hid/usb/src/_usb_not_used.c:104-156 | starting from NONE, no sequence of events reaches ADDRESS or SUSPENDED |
| UsbStateMachine.RepeatedSessionRequestHalts | stm32f411_device_hid/usb/src/_usb_not_used.c:115 | a valid session request in any state but NONE halts the driver |
| UsbStateMachine.ConnectionSequence | stm32f411_device_hid/usb/src/_usb_not_used.c:104-156 | session request, bus reset and end of enumeration take the device from NONE to DEFAULT |
| UsbStateMachine.HandlersFollowMachine | stm32f411_device_hid/usb/src/_usb_not_used.c:104-156 | the three handlers move the driver state exactly as the lifecycle does, and each acknowledges its own interrupt whatever the state |
| UsbStateMachine.SessionRequestNeedsValidSession | stm32f411_device_hid/usb/src/_usb_not_used.c:107-113 | without a valid B-session a session request changes neither the state nor any device register |
| UsbStateMachine.SessionRequestConnects | stm32f411_device_hid/usb/src/_usb_not_used.c:115-121 | a valid session request in NONE clears DCTL.SDIS (soft connect) and moves to POWERED |
| UsbStateMachine.EndpointResetPreparesEp0 | stm32f411_device_hid/usb/src/_usb_not_used.c:165-208 | the endpoint reset leaves address 0, both FIFOs empty, EP0 OUT prepared for SETUP packets and enabled with its NAK cleared, and a 36-word receive FIFO, not the 28 its comment computes |
| UsbStateMachine.EndpointResetUnmasks | stm32f411_device_hid/usb/src/_usb_not_used.c:170-171 | the endpoint reset unmasks IN endpoint 0 and OUT endpoints 0 and 1 |
| UsbStateMachine.EndpointResetInit | stm32f411_device_hid/usb/src/_usb_not_used.c:165-208 | `endpoint_reset_init` performs its accesses in order, the two flushes included |
| UsbStateMachine.EndpointEnumInit | stm32f411_device_hid/usb/src/_usb_not_used.c:213-223 | `endpoint_enum_init` clears the two low MPSIZ bits of EP0 IN |
| UsbStateMachine.SrqintHandler | stm32f411_device_hid/usb/src/_usb_not_used.c:104-122 | the gated session-request handler, as `SrqintSpec` |
| UsbStateMachine.UsbrstHandler | stm32f411_device_hid/usb/src/_usb_not_used.c:127-138 | the gated bus-reset handler, as `UsbrstSpec` |
| UsbStateMachine.EnumdneHandler | stm32f411_device_hid/usb/src/_usb_not_used.c:143-156 | the gated enumeration-done handler, as `EnumdneSpec` |

## Left out

- `printf` tracing, NVIC priority and enable, and the GPIO, clock and RCC set-up of
  `usb_init` are not modelled: they are output and one-shot configuration with no stateable
  outcome. `Usb.UsbGlobals.Init` models only the part of `usb_init` that concerns the driver
  context (usb.c lines 30 and 34).
- The bring-up functions `gpio_init`, `core_init`, `device_init` and `core_soft_reset`, and
  their copies in `_usb_not_used.c`, are not part of this model. They are literal register
  configuration with busy-waits on the hardware.
- The enumerated speed that `endpoint_enum_init` reads from DSTS is never used, so the read
  is not modelled.
- Write-1-to-clear registers are modelled as clearing exactly the bits written. On the
  hardware, the `|=` read-modify-write the handlers use writes back every pending bit it
  read, and so clears them all. The model does not capture that.
- Registers are modelled as values between driver steps. The order of individual bus
  writes, timing, interrupt latency and nesting are not modelled. The code runs in one
  interrupt context.
- The room DTXFSTS reports is not reduced by the words a write pushes, and nothing drains
  the transmit FIFO. The model has no USB host side.
- The payload of a DATA_UPDT receive status is never popped by the driver, and the model
  leaves it in the receive data queue in the same way.
- `UsbIsr.IrqHandler`: the endless loop after a mode mismatch is modelled as the outcome
  `Halted`, not as non-termination. The same holds for a failed `ENSURE`/`ASSERT`, which on
  the device disables interrupts and traps.
- `UsbIsr.IrqHandler` and `UsbIsr.OepintHandler` require a non-zero DAINT half whenever
  OEPINT or IEPINT is read. The hardware guarantees this, and `__builtin_ctz(0)` is
  undefined. The receive handler likewise requires a status word to be waiting and, for an
  accepted eight-byte SETUP on endpoint 0, two data words, which the hardware guarantees
  (`UsbIsr.RxReady`).
- `Usb.WriteFifo`: for lengths that do not fit the 19-bit XFRSIZ field, the value written to
  DIEPTSIZ0 overlaps the packet count. The model writes the same overlapping value but
  proves the field split only for lengths below 2^19 (`Usb.InTransferSizeFields`).
- `UsbTypes.Driver`: `device_address`, `ep0_tx_buf` and `ep0_tx_buf_len` are declared but no
  modelled code reads or writes them. They are kept only in the class.
- STALL on unsupported requests, string-descriptor lookup and SET_CONFIGURATION are not
  implemented by the driver and are not invented here.

## Findings

| source | as written | input that shows it | evidently intended | confidence | as-written member | corrected member |
|---|---|---|---|---|---|---|
| stm32f411_device_hid/usb/src/usb.c:80-87 | `len_in_words = (len + 3) / 4` is computed in 32-bit unsigned arithmetic, so the sum wraps for the three largest lengths | `len = 0xFFFFFFFF` with DTXFSTS reporting 0 free words: the count wraps to 0, the room check passes, and the copy loop pushes 0x4000_0000 words | the room check compares ceil(len / 4), computed without wrap-around, with the free space, so an accepted write fits the FIFO | not executed; low impact, since the driver only writes descriptors of at most 25 bytes | Usb.WriteFifoGuardWraps | Usb.CorrectedGuardFitsFifo |
| stm32f411_device_hid/usb/src/usb_isr.c:356-357 | SET_ADDRESS ORs wValue into DCFG.DAD without clearing the field first | a device at address 5 that receives SET_ADDRESS(10) without an intervening bus reset ends up answering at address 15 | the address field is replaced by the new address, as section 9.4.6 of USB 2.0 describes for the Address state | not executed; after a bus reset the field is 0 and both agree (`UsbIsrProperties.CorrectedAgreesAfterReset`) | UsbIsrProperties.SetAddressMergesAddresses | UsbIsrProperties.CorrectedSetAddressStoresAddress |
