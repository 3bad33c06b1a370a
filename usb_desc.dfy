/** The constant descriptor tables of the device (usb/inc/usb_desc.h) and their
    well-formedness against chapter 9 of USB 2.0. */
module UsbDesc {
  import opened UsbInternal

  const MajorVersion: bv8 := 0x01
  const StringIndexManufacturer: bv8 := 0x00
  const StringIndexProduct: bv8 := 0x01

  /** device_descriptor (section 9.6.1 of USB 2.0). */
  const DeviceDescriptor: seq<bv8> := [
    18,                       // bLength
    0x01,                     // bDescriptorType: device
    0x00, 0x02,               // bcdUSB 2.00
    0x00, 0x00, 0x00,         // class, subclass and protocol given per interface
    Ep0RxFifoSize as bv8,     // bMaxPacketSize0
    0x11, 0x11,               // idVendor
    0x11, 0x11,               // idProduct
    MajorVersion, MajorVersion, // bcdDevice
    StringIndexManufacturer,  // iManufacturer
    StringIndexProduct,       // iProduct
    0x00,                     // iSerialNumber: none
    0x01                      // bNumConfigurations
  ]

  /** configuraiton_descritor: a configuration descriptor (9 bytes), one HID interface
      descriptor (9 bytes) and one interrupt IN endpoint descriptor (7 bytes). */
  const ConfigurationDescriptor: seq<bv8> := [
    9, 0x02, 9 + 9 + 7, 0x00, // bLength, configuration, wTotalLength
    0x01, 0x01, 0x00,         // bNumInterfaces, bConfigurationValue, iConfiguration
    0xC0, 0x01,               // bmAttributes (D7 set, self-powered; no remote wakeup), bMaxPower
    9, 0x04,                  // bLength, interface
    0x01, 0x01, 0x01,         // bInterfaceNumber, bAlternateSetting, bNumEndpoints
    0x03, 0x01, 0x01, 0x00,   // HID class, boot subclass, keyboard protocol, iInterface
    7, 0x05,                  // bLength, endpoint
    0x81, 0x03,               // bEndpointAddress: IN 1, bmAttributes: interrupt
    0x08, 0x00,               // wMaxPacketSize
    0x0A                      // bInterval: 10 ms
  ]

  /** UTF-16LE code units of an ASCII string. */
  function Utf16(s: string): (b: seq<bv8>)
    requires forall i :: 0 <= i < |s| ==> s[i] as int < 128
    ensures |b| == 2 * |s|
  {
    if s == [] then [] else [(s[0] as int) as bv8, 0] + Utf16(s[1..])
  }

  /** Every second byte of the encoding, the high byte of each code unit, is zero. */
  lemma {:induction false} Utf16HighBytesZero(s: string, i: nat)
    requires forall k :: 0 <= k < |s| ==> s[k] as int < 128
    requires i < |s|
    ensures Utf16(s)[2 * i + 1] == 0
    decreases |s|
  {
    if i > 0 {
      Utf16HighBytesZero(s[1..], i - 1);
    }
  }

  const StringDescriptorLanguage: seq<bv8> := [4, 0x03, 0x09, 0x04]
  const StringDescriptorManufacturer: seq<bv8> := [16, 0x03] + Utf16("MED0KIN")
  const StringDescriptorProduct: seq<bv8> := [18, 0x03] + Utf16("Keyboard")

  /** string_descriptor: the table indexed by string index. */
  const StringDescriptors: seq<seq<bv8>> :=
    [StringDescriptorLanguage, StringDescriptorManufacturer, StringDescriptorProduct]

  function Le16At(s: seq<bv8>, i: nat): bv16
    requires i + 1 < |s|
  {
    (s[i] as bv16) | ((s[i + 1] as bv16) << 8)
  }

  lemma DeviceDescriptorWellFormed()
    ensures |DeviceDescriptor| == 18
    ensures DeviceDescriptor[0] as int == |DeviceDescriptor|
    ensures DeviceDescriptor[1] as bv16 == DescriptorTypeCode(Device)
    ensures Le16At(DeviceDescriptor, 2) == 0x0200
    ensures DeviceDescriptor[7] as int == Ep0RxFifoSize == 64
    ensures DeviceDescriptor[17] == 1
  {}

  /** The sub-descriptors of a descriptor blob as (offset, bLength, bDescriptorType),
      walking by bLength. A zero bLength or a descriptor that overruns the blob ends the
      walk with the offset where it stopped. */
  datatype Walk = Walk(parts: seq<(nat, bv8, bv8)>, stop: nat)

  function SubDescriptors(s: seq<bv8>, offset: nat): (w: Walk)
    requires offset <= |s|
    ensures offset <= w.stop <= |s|
    decreases |s| - offset
  {
    if offset + 2 > |s| || s[offset] == 0 || offset + s[offset] as int > |s| then Walk([], offset)
    else
      var rest := SubDescriptors(s, offset + s[offset] as int);
      Walk([(offset, s[offset], s[offset + 1])] + rest.parts, rest.stop)
  }

  /** The configuration blob is 25 bytes, its wTotalLength says 25 (section 9.6.3 of
      USB 2.0), and walking it by bLength finds the configuration, interface and endpoint
      descriptors at offsets 0, 9 and 18 with lengths 9, 9 and 7, ending exactly at 25. */
  lemma ConfigurationDescriptorWellFormed()
    ensures |ConfigurationDescriptor| == 25
    ensures Le16At(ConfigurationDescriptor, 2) as int == |ConfigurationDescriptor|
    ensures SubDescriptors(ConfigurationDescriptor, 0) ==
            Walk([(0, 9, DescriptorTypeCode(Configuration) as bv8),
                  (9, 9, DescriptorTypeCode(Interface) as bv8),
                  (18, 7, DescriptorTypeCode(Endpoint) as bv8)], 25)
  {
    var c := ConfigurationDescriptor;
    assert SubDescriptors(c, 25) == Walk([], 25);
    assert SubDescriptors(c, 18) == Walk([(18, 7, 5)], 25);
    assert SubDescriptors(c, 9) == Walk([(9, 9, 4), (18, 7, 5)], 25);
  }

  /** The endpoint descriptor: IN endpoint 1, interrupt transfers, 8-byte packets, polled
      every 10 ms. */
  lemma EndpointDescriptorFields()
    ensures ConfigurationDescriptor[20] & 0x80 == 0x80 && ConfigurationDescriptor[20] & 0x0F == 1
    ensures ConfigurationDescriptor[21] & 0x03 == 0x03
    ensures Le16At(ConfigurationDescriptor, 22) == 8
    ensures ConfigurationDescriptor[24] == 10
  {}

  /** Each string descriptor (section 9.6.7 of USB 2.0) states its own length and has
      type 3; the language table holds LANGID 0x0409. */
  lemma StringDescriptorsWellFormed()
    ensures |StringDescriptors| == 3
    ensures StringDescriptorWellFormed(StringDescriptors[0])
    ensures StringDescriptorWellFormed(StringDescriptors[1])
    ensures StringDescriptorWellFormed(StringDescriptors[2])
    ensures Le16At(StringDescriptorLanguage, 2) == 0x0409
  {}

  /** A string descriptor header: bLength is the array's length and the type is STRING. */
  predicate StringDescriptorWellFormed(d: seq<bv8>)
  {
    |d| >= 2 && d[0] as int == |d| && d[1] as bv16 == DescriptorTypeCode(String)
  }

  /** In the manufacturer and product strings every odd byte after the two-byte header,
      the high byte of a UTF-16LE code unit, is zero. */
  lemma StringCharactersAreUtf16Le(i: nat)
    ensures i < 7 ==> StringDescriptorManufacturer[2 + 2 * i + 1] == 0
    ensures i < 8 ==> StringDescriptorProduct[2 + 2 * i + 1] == 0
  {
    if i < 7 {
      Utf16HighBytesZero("MED0KIN", i);
    }
    if i < 8 {
      Utf16HighBytesZero("Keyboard", i);
    }
  }
}
