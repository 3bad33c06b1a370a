/** The driver's public types (usb/inc/usb.h): the device state enumeration, the 8-byte
    setup packet with its three overlapping views, and the driver context. */
module UsbTypes {
  import opened LittleEndian

  /** How a handler ended: it returned, or the driver halted (a failed ENSURE/ASSERT, which
      disables interrupts and traps, or the endless loop taken on a mode mismatch). */
  datatype Outcome = Completed | Halted

  /** usb_state_t. Declared in this order, so the numbers are 0 .. 5. */
  datatype DeviceState = None | Reset | Powered | Default | Address | Suspended

  /** The C enumerator value of a state. */
  function StateCode(s: DeviceState): (c: nat)
    ensures c <= 5
  {
    match s
    case None => 0
    case Reset => 1
    case Powered => 2
    case Default => 3
    case Address => 4
    case Suspended => 5
  }

  /** The state a C enumerator value names, if any. */
  function StateOfCode(c: nat): (s: DeviceState)
    requires c <= 5
  {
    if c == 0 then None
    else if c == 1 then Reset
    else if c == 2 then Powered
    else if c == 3 then Default
    else if c == 4 then Address
    else Suspended
  }

  /** The enumerator values identify the states: decoding a state's code gives the state
      back, and every code 0 .. 5 is some state's code. */
  lemma StateCodeRoundTrip(s: DeviceState, c: nat)
    requires c <= 5
    ensures StateOfCode(StateCode(s)) == s
    ensures StateCode(StateOfCode(c)) == c
  {}

  /** Constant check on the numbering, which is not the lifecycle order: RESET is numbered below POWERED although
      the device only enters RESET from POWERED. */
  lemma StateNumberingIsNotLifecycleOrder()
    ensures StateCode(Reset) < StateCode(Powered)
  {}

  /** Exactly eight bytes, in wire order (section 9.3 of USB 2.0). */
  type Packet8 = s: seq<bv8> | |s| == 8 witness [0, 0, 0, 0, 0, 0, 0, 0]

  /** The plain field view of the union: bmRequestType, bRequest, wValue, wIndex, wLength. */
  datatype SetupFields = SetupFields(requestType: bv8, request: bv8, value: bv16, index: bv16, length: bv16)

  /** The `detailed` view: wValue and wIndex split into their low and high bytes. */
  datatype DetailedFields = DetailedFields(requestType: bv8, request: bv8, valueL: bv8, valueH: bv8,
                                           indexL: bv8, indexH: bv8, length: bv16)

  /** A little-endian 16-bit field from its two bytes. */
  function Le16(lo: bv8, hi: bv8): bv16
  {
    (lo as bv16) | ((hi as bv16) << 8)
  }

  function Fields(p: Packet8): SetupFields
  {
    SetupFields(p[0], p[1], Le16(p[2], p[3]), Le16(p[4], p[5]), Le16(p[6], p[7]))
  }

  function FromFields(f: SetupFields): Packet8
  {
    [f.requestType, f.request,
     (f.value & 0xFF) as bv8, (f.value >> 8) as bv8,
     (f.index & 0xFF) as bv8, (f.index >> 8) as bv8,
     (f.length & 0xFF) as bv8, (f.length >> 8) as bv8]
  }

  function Detailed(p: Packet8): DetailedFields
  {
    DetailedFields(p[0], p[1], p[2], p[3], p[4], p[5], Le16(p[6], p[7]))
  }

  function FromDetailed(d: DetailedFields): Packet8
  {
    [d.requestType, d.request, d.valueL, d.valueH, d.indexL, d.indexH,
     (d.length & 0xFF) as bv8, (d.length >> 8) as bv8]
  }

  /** raw_packet_data: word 0 holds bytes 0 .. 3, word 1 holds bytes 4 .. 7. */
  function RawWords(p: Packet8): (w: seq<bv32>)
    ensures |w| == 2
  {
    [WordOf(p[..4]), WordOf(p[4..])]
  }

  /** The packet whose raw words are w0 and w1. */
  function FromRawWords(w0: bv32, w1: bv32): Packet8
  {
    BytesOf(w0) + BytesOf(w1)
  }

  /** Storing one word through raw_packet_data[k]; the other four bytes are kept. */
  function StoreRawWord(p: Packet8, k: nat, w: bv32): (q: Packet8)
    requires k < 2
  {
    p[..4 * k] + BytesOf(w) + p[4 * k + 4..]
  }

  /** Writing the field view and reading it back gives the same fields. */
  lemma FieldsRoundTrip(f: SetupFields)
    ensures Fields(FromFields(f)) == f
  {}

  /** Reading the field view and writing it back gives the same bytes. */
  lemma PacketFieldsRoundTrip(p: Packet8)
    ensures FromFields(Fields(p)) == p
  {}

  lemma DetailedRoundTrip(d: DetailedFields, p: Packet8)
    ensures Detailed(FromDetailed(d)) == d
    ensures FromDetailed(Detailed(p)) == p
  {}

  /** The field view and the detailed view of the same bytes agree: wValue is
      value_l + 256 * value_h, so `value >> 8` is value_h, and likewise for wIndex. */
  lemma ViewsAgree(p: Packet8)
    ensures Fields(p).requestType == Detailed(p).requestType
    ensures Fields(p).request == Detailed(p).request
    ensures Fields(p).value == Le16(Detailed(p).valueL, Detailed(p).valueH)
    ensures Fields(p).value >> 8 == Detailed(p).valueH as bv16
    ensures Fields(p).value & 0xFF == Detailed(p).valueL as bv16
    ensures Fields(p).index == Le16(Detailed(p).indexL, Detailed(p).indexH)
    ensures Fields(p).length == Detailed(p).length
  {}

  /** Writing through one view and reading through the other: a packet written with the
      detailed view reads back, in the field view, with the recombined 16-bit values. */
  lemma DetailedThenFields(d: DetailedFields)
    ensures Fields(FromDetailed(d)) ==
            SetupFields(d.requestType, d.request, Le16(d.valueL, d.valueH), Le16(d.indexL, d.indexH), d.length)
  {}

  /** Storing two words and reading them back through the raw view. */
  lemma RawWordsRoundTrip(w0: bv32, w1: bv32, p: Packet8)
    ensures RawWords(FromRawWords(w0, w1)) == [w0, w1]
    ensures FromRawWords(RawWords(p)[0], RawWords(p)[1]) == p
  {
    WordOfBytesOf(w0);
    WordOfBytesOf(w1);
    assert FromRawWords(w0, w1)[..4] == BytesOf(w0);
    assert FromRawWords(w0, w1)[4..] == BytesOf(w1);
    BytesOfWordOf(p[..4]);
    BytesOfWordOf(p[4..]);
    assert p == p[..4] + p[4..];
  }

  /** The decode: the fields of a packet stored as two FIFO words, in terms of the words. */
  lemma RawWordsDecode(w0: bv32, w1: bv32)
    ensures Fields(FromRawWords(w0, w1)) ==
            SetupFields((w0 & 0xFF) as bv8, ((w0 >> 8) & 0xFF) as bv8, (w0 >> 16) as bv16,
                        (w1 & 0xFFFF) as bv16, (w1 >> 16) as bv16)
  {}

  /** Storing word 0 and then word 1, whatever the packet held before, gives the packet of
      those two words. */
  lemma StoreTwoWords(p: Packet8, w0: bv32, w1: bv32)
    ensures StoreRawWord(StoreRawWord(p, 0, w0), 1, w1) == FromRawWords(w0, w1)
  {
    var q := StoreRawWord(p, 0, w0);
    assert q[..4] == BytesOf(w0);
  }

  /** usb_driver_t: the single driver context. Only one setup packet is held; a new one
      overwrites it. */
  class Driver {
    var state: DeviceState
    var deviceAddress: bv32
    var setupPacket: Packet8
    var ep0TxBuf: seq<bv8>
    var ep0TxBufLen: bv32

    /** A zero-initialised context, as the program declares it (`usb_driver_t usb_driver = {0}`). */
    constructor ()
      ensures state == None && deviceAddress == 0 && ep0TxBufLen == 0
      ensures setupPacket == [0, 0, 0, 0, 0, 0, 0, 0]
      ensures ep0TxBuf == Zeros(64)
    {
      state := None;
      deviceAddress := 0;
      setupPacket := [0, 0, 0, 0, 0, 0, 0, 0];
      ep0TxBuf := Zeros(64);
      ep0TxBufLen := 0;
    }
  }
}
