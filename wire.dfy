/**
 * The message the forwarder sends for one device event
 * (`sendDeviceMessage`, udevfw.c:68-133): a 40-byte `MessageHeader`
 * followed by the property blob, as the two parts of one `sendmsg`.
 *
 * `MessageHeader` (udevfw.c:27-38) is the eight bytes "libudev\0" and
 * eight `unsigned int` fields, with no padding. The struct goes out as
 * raw memory, so each field's four bytes are its host-order layout.
 * `magic`, the two name hashes and the two bloom halves are stored
 * through `htonl` and so reach the wire in network order on every host;
 * `headerSize`, `propertiesOffset` and `propertiesLength` are assigned
 * without `htonl` (udevfw.c:71, 130-131) and reach the wire in the
 * host's own order, which on a little-endian host is not network order
 * (see `HostOrderLengths`).
 */
module Wire {
  import opened Bytes
  import opened Bloom

  /** One property of a device: `udev_list_entry_get_name` and `_get_value`. */
  datatype Property = Property(name: CStr, value: CStr)

  /** What the encoder reads from a `udev_device`. */
  datatype Device = Device(
    subsystem: Option<CStr>,
    devtype: Option<CStr>,
    tags: seq<CStr>,
    properties: seq<Property>)

  /** UDEV_MONITOR_MAGIC (udevfw.c:25). */
  const Magic: u32 := 0xFEEDCAFE

  /** `sizeof(MessageHeader)`: 8 prefix bytes and 8 four-byte fields. */
  const HeaderSize: nat := 40

  /** The `prefix` field: "libudev" and its terminating NUL. */
  const Prefix: seq<byte> := [0x6C, 0x69, 0x62, 0x75, 0x64, 0x65, 0x76, 0x00]

  /** The byte `'='` written between a property's name and its value. */
  const Equals: byte := 0x3D

  /** The eight `unsigned int` fields of `MessageHeader`, as stored in memory. */
  datatype Header = Header(
    magic: u32,
    headerSize: u32,
    propertiesOffset: u32,
    propertiesLength: u32,
    filterSubsystemHash: u32,
    filterDeviceTypeHash: u32,
    filterTagBloomLow: u32,
    filterTagBloomHigh: u32)

  function Fields(h: Header): (ws: seq<u32>)
    ensures |ws| == 8
  {
    [h.magic, h.headerSize, h.propertiesOffset, h.propertiesLength,
     h.filterSubsystemHash, h.filterDeviceTypeHash, h.filterTagBloomLow, h.filterTagBloomHigh]
  }

  /**
   * An `int` stored into an `unsigned int`: its value modulo 2^32, so a
   * value that fits is stored unchanged.
   */
  function Unsigned(n: nat): (r: u32)
    ensures n < Word32 ==> r == n
  {
    n % Word32
  }

  // ---------------------------------------------------------------------
  // The property blob (udevfw.c:106-129).

  /**
   * One property as the loop writes it: name, '=', value, NUL. It takes
   * `proplen = strlen(name) + strlen(val) + 2` bytes, and its only NUL is
   * the last one.
   */
  function Entry(p: Property): (e: seq<byte>)
    ensures |e| == |p.name| + |p.value| + 2
    ensures e[|p.name|] == Equals && e[|e| - 1] == 0
    ensures forall i :: 0 <= i < |e| - 1 ==> e[i] != 0
  {
    p.name + [Equals] + p.value + [0]
  }

  /**
   * The buffer after the property loop has written `props`, in list
   * order: `buflen` is the sum of their `proplen`s.
   */
  function Serialized(props: seq<Property>): (b: seq<byte>)
    ensures |b| == PropsLength(props)
    decreases |props|
  {
    if props == [] then []
    else Serialized(props[..|props| - 1]) + Entry(props[|props| - 1])
  }

  /**
   * The buffer after the final `realloc` (udevfw.c:127-129): one more
   * NUL, so `buflen`, and with it `propertiesLength`, is the sum of the
   * `proplen`s plus one, and never 0.
   */
  function PropertyBlob(props: seq<Property>): (b: seq<byte>)
    ensures |b| == PropsLength(props) + 1
    ensures b[|b| - 1] == 0
  {
    Serialized(props) + [0]
  }

  /** The sum of `strlen(name) + strlen(val) + 2` over the properties. */
  function PropsLength(props: seq<Property>): nat
    decreases |props|
  {
    if props == [] then 0
    else
      var p := props[|props| - 1];
      PropsLength(props[..|props| - 1]) + |p.name| + |p.value| + 2
  }

  // ---------------------------------------------------------------------
  // The header (udevfw.c:70-72, 86-104, 130-131).

  /**
   * `filterSubsystemHash` or `filterDeviceTypeHash`: left at 0 when the
   * name is absent, `htonl(stringHash(name))` otherwise, so its memory
   * bytes are `NameBytes` on either host.
   */
  function NameHash(murmur: Murmur2, host: Endian, name: Option<CStr>): (r: u32)
    ensures HostBytes(host, r) == NameBytes(murmur, name)
  {
    match name
    case None =>
      ZeroBytes(host);
      0
    case Some(s) => Htonl(host, StringHash(murmur, s))
  }

  /** What a hash field carries on the wire: zeros, or the name's hash in network order. */
  function NameBytes(murmur: Murmur2, name: Option<CStr>): seq<byte> {
    match name
    case None => [0, 0, 0, 0]
    case Some(s) => BigEndian(StringHash(murmur, s))
  }

  /**
   * The header `sendDeviceMessage` fills in for `dev`: the initialiser's
   * magic and `sizeof(MessageHeader)` (udevfw.c:70-72), the name hashes
   * (udevfw.c:86-95), the bloom halves (udevfw.c:103-104), and the
   * blob's offset and length (udevfw.c:130-131).
   */
  function HeaderFor(murmur: Murmur2, host: Endian, dev: Device): (h: Header)
    ensures h.headerSize == h.propertiesOffset == HeaderSize
    ensures h.propertiesLength == Unsigned(PropsLength(dev.properties) + 1)
    ensures dev.subsystem.None? ==> h.filterSubsystemHash == 0
    ensures dev.devtype.None? ==> h.filterDeviceTypeHash == 0
    ensures dev.tags == [] ==> h.filterTagBloomLow == h.filterTagBloomHigh == 0
  {
    HtonlZero(host);
    var tagBits := TagFilter(murmur, dev.tags);
    var buflen := |PropertyBlob(dev.properties)|;
    assert buflen == PropsLength(dev.properties) + 1;
    Header(
      Htonl(host, Magic),
      HeaderSize,
      HeaderSize,
      Unsigned(buflen),
      NameHash(murmur, host, dev.subsystem),
      NameHash(murmur, host, dev.devtype),
      Htonl(host, BloomLow(tagBits)),
      Htonl(host, BloomHigh(tagBits)))
  }

  /** `htonl(0)` is 0 on either host. */
  lemma HtonlZero(host: Endian)
    ensures Htonl(host, 0) == 0
  {
  }

  /** The in-memory bytes of a run of `unsigned int`s. */
  function Words(host: Endian, ws: seq<u32>): (b: seq<byte>)
    ensures |b| == 4 * |ws|
    decreases |ws|
  {
    if ws == [] then [] else HostBytes(host, ws[0]) + Words(host, ws[1..])
  }

  /** The 40 bytes of a `MessageHeader` in memory. */
  function HeaderBytes(host: Endian, h: Header): (b: seq<byte>)
    ensures |b| == HeaderSize
  {
    Prefix + Words(host, Fields(h))
  }

  /**
   * The bytes handed to `sendmsg`: the two `iovec`s, the 40-byte header
   * starting with "libudev\0" and right after it the blob.
   */
  function Message(murmur: Murmur2, host: Endian, dev: Device): (m: seq<byte>)
    ensures |m| == HeaderSize + |PropertyBlob(dev.properties)|
    ensures m[..8] == Prefix
    ensures m[HeaderSize..] == PropertyBlob(dev.properties)
  {
    var h := HeaderBytes(host, HeaderFor(murmur, host, dev));
    SliceLeft(h, PropertyBlob(dev.properties), 0, 8);
    h + PropertyBlob(dev.properties)
  }

  // ---------------------------------------------------------------------
  // Reading a message back.

  /** The first position of `x` in `s`, if any. */
  function FirstIndex(s: seq<byte>, x: byte): (r: Option<nat>)
    ensures r.None? ==> x !in s
    ensures r.Some? ==> r.value < |s| && s[r.value] == x && x !in s[..r.value]
    decreases |s|
  {
    if s == [] then None
    else if s[0] == x then Some(0)
    else
      match FirstIndex(s[1..], x)
      case None => None
      case Some(i) =>
        assert s[..i + 1] == [s[0]] + s[1..][..i];
        Some(i + 1)
  }

  /** Splits `name=value` at its first '='. */
  function ParseEntry(piece: CStr): Option<Property> {
    match FirstIndex(piece, Equals)
    case None => None
    case Some(j) =>
      assert forall k :: 0 <= k < j ==> piece[..j][k] == piece[k];
      assert forall k :: j + 1 <= k < |piece| ==> piece[j + 1..][k - j - 1] == piece[k];
      Some(Property(piece[..j], piece[j + 1..]))
  }

  /**
   * Splits a blob into its NUL-terminated pieces, up to the empty piece
   * that ends it, and each piece at its first '='.
   */
  function ParseBlob(blob: seq<byte>): Option<seq<Property>>
    decreases |blob|
  {
    if blob == [0] then Some([])
    else
      match FirstIndex(blob, 0)
      case None => None
      case Some(i) =>
        match ParseEntry(blob[..i])
        case None => None
        case Some(p) =>
          match ParseBlob(blob[i + 1..])
          case None => None
          case Some(ps) => Some([p] + ps)
  }

  /** Reads field `k` of a header from its in-memory bytes. */
  function FieldAt(host: Endian, b: seq<byte>, k: nat): u32
    requires |b| >= HeaderSize && k < 8
  {
    ReadHost(host, b[8 + 4 * k..12 + 4 * k])
  }

  /** Reads a `MessageHeader` from the front of `b`. */
  function DecodeHeader(host: Endian, b: seq<byte>): Option<Header> {
    if |b| < HeaderSize || b[..8] != Prefix then None
    else Some(Header(FieldAt(host, b, 0), FieldAt(host, b, 1), FieldAt(host, b, 2), FieldAt(host, b, 3),
                     FieldAt(host, b, 4), FieldAt(host, b, 5), FieldAt(host, b, 6), FieldAt(host, b, 7)))
  }

  /** Reads a whole message: its header and its properties. */
  function DecodeMessage(host: Endian, msg: seq<byte>): Option<(Header, seq<Property>)> {
    match DecodeHeader(host, msg)
    case None => None
    case Some(h) =>
      match ParseBlob(msg[HeaderSize..])
      case None => None
      case Some(props) => Some((h, props))
  }

  // ---------------------------------------------------------------------
  // The blob.

  lemma {:induction false} SerializedCons(p: Property, ps: seq<Property>)
    ensures Serialized([p] + ps) == Entry(p) + Serialized(ps)
    decreases |ps|
  {
    var all := [p] + ps;
    if ps == [] {
      assert all[..0] == [];
    } else {
      var init, last := ps[..|ps| - 1], ps[|ps| - 1];
      SerializedCons(p, init);
      assert all[..|all| - 1] == [p] + init;
      assert all[|all| - 1] == last;
      assert Serialized(all) == Serialized([p] + init) + Entry(last);
      assert Serialized(ps) == Serialized(init) + Entry(last);
    }
  }

  /** The blob read front to back: the first property's entry, then the blob of the rest. */
  lemma BlobCons(p: Property, ps: seq<Property>)
    ensures PropertyBlob([p] + ps) == Entry(p) + PropertyBlob(ps)
  {
    SerializedCons(p, ps);
  }

  lemma {:induction false} FirstIndexIs(s: seq<byte>, x: byte, i: nat)
    requires i < |s| && s[i] == x
    requires forall k :: 0 <= k < i ==> s[k] != x
    ensures FirstIndex(s, x) == Some(i)
    decreases i
  {
    if i > 0 {
      FirstIndexIs(s[1..], x, i - 1);
    }
  }

  lemma ParseOneEntry(p: Property, rest: seq<byte>)
    requires Equals !in p.name
    ensures FirstIndex(Entry(p) + rest, 0) == Some(|p.name| + 1 + |p.value|)
    ensures ParseEntry((Entry(p) + rest)[..|p.name| + 1 + |p.value|]) == Some(p)
    ensures (Entry(p) + rest)[|p.name| + 1 + |p.value| + 1..] == rest
  {
    var blob := Entry(p) + rest;
    var i := |p.name| + 1 + |p.value|;
    var piece := p.name + [Equals] + p.value;
    assert blob[..i] == piece;
    assert forall k :: 0 <= k < i ==> blob[k] == piece[k];
    FirstIndexIs(blob, 0, i);
    FirstIndexIs(piece, Equals, |p.name|);
    assert piece[..|p.name|] == p.name;
    assert piece[|p.name| + 1..] == p.value;
  }

  lemma EntryOfParse(piece: CStr)
    requires ParseEntry(piece).Some?
    ensures var p := ParseEntry(piece).value;
            piece == p.name + [Equals] + p.value && Equals !in p.name
  {
    var j := FirstIndex(piece, Equals).value;
    assert piece == piece[..j] + [Equals] + piece[j + 1..];
  }

  /**
   * Round trip: when no property name contains '=', reading the blob back
   * gives exactly the properties, in order.
   */
  lemma {:induction false} ParseBlobRoundTrip(props: seq<Property>)
    requires forall p :: p in props ==> Equals !in p.name
    ensures ParseBlob(PropertyBlob(props)) == Some(props)
    decreases |props|
  {
    if props == [] {
      assert PropertyBlob(props) == [0];
    } else {
      var p, ps := props[0], props[1..];
      assert props == [p] + ps;
      BlobCons(p, ps);
      ParseOneEntry(p, PropertyBlob(ps));
      ParseBlobRoundTrip(ps);
      assert |Entry(p)| >= 2;
    }
  }

  /** One step of the reader: a blob other than the final NUL starts with one entry. */
  lemma ParseBlobStep(blob: seq<byte>) returns (p: Property, rest: seq<byte>)
    requires ParseBlob(blob).Some? && blob != [0]
    ensures |rest| < |blob| && ParseBlob(rest).Some?
    ensures ParseBlob(blob).value == [p] + ParseBlob(rest).value
    ensures blob == Entry(p) + rest && Equals !in p.name
  {
    var i := FirstIndex(blob, 0).value;
    var piece: CStr := blob[..i];
    p := ParseEntry(piece).value;
    rest := blob[i + 1..];
    EntryOfParse(piece);
    assert blob == piece + [0] + rest;
  }

  /**
   * Conversely, every blob the reader accepts is the blob of the
   * properties it reads, none of whose names contains '='.
   */
  lemma {:induction false} ParseBlobOnlyBlobs(blob: seq<byte>)
    requires ParseBlob(blob).Some?
    ensures PropertyBlob(ParseBlob(blob).value) == blob
    ensures forall p :: p in ParseBlob(blob).value ==> Equals !in p.name
    decreases |blob|
  {
    if blob != [0] {
      var p, rest := ParseBlobStep(blob);
      ParseBlobOnlyBlobs(rest);
      BlobCons(p, ParseBlob(rest).value);
    }
  }

  /** With '=' inside a name the blob is ambiguous: two property lists give the same bytes. */
  lemma EqualsInNameIsAmbiguous()
    ensures var ab, c := [0x61, Equals, 0x62], [0x63];
            var a, bc := [0x61], [0x62, Equals, 0x63];
            PropertyBlob([Property(ab, c)]) == PropertyBlob([Property(a, bc)])
  {
  }

  // ---------------------------------------------------------------------
  // The header.

  lemma {:induction false} WordAt(host: Endian, ws: seq<u32>, k: nat)
    requires k < |ws|
    ensures Words(host, ws)[4 * k..4 * k + 4] == HostBytes(host, ws[k])
    decreases k
  {
    if k > 0 {
      WordAt(host, ws[1..], k - 1);
      assert Words(host, ws)[4 * k..4 * k + 4] == Words(host, ws[1..])[4 * (k - 1)..4 * (k - 1) + 4];
    }
  }

  lemma SliceLeft(a: seq<byte>, b: seq<byte>, i: nat, j: nat)
    requires i <= j <= |a|
    ensures (a + b)[i..j] == a[i..j]
  {
  }

  lemma SliceRight(a: seq<byte>, b: seq<byte>, i: nat, j: nat)
    requires i <= j <= |b|
    ensures (a + b)[|a| + i..|a| + j] == b[i..j]
  {
  }

  /** Field `k` sits at bytes `8 + 4k .. 12 + 4k` of the message. */
  lemma FieldBytes(host: Endian, h: Header, rest: seq<byte>, k: nat)
    requires k < 8
    ensures (HeaderBytes(host, h) + rest)[8 + 4 * k..12 + 4 * k] == HostBytes(host, Fields(h)[k])
  {
    var ws := Words(host, Fields(h));
    WordAt(host, Fields(h), k);
    SliceLeft(HeaderBytes(host, h), rest, 8 + 4 * k, 12 + 4 * k);
    SliceRight(Prefix, ws, 4 * k, 4 * k + 4);
  }

  lemma FieldRoundTrip(host: Endian, h: Header, rest: seq<byte>, k: nat)
    requires k < 8
    ensures FieldAt(host, HeaderBytes(host, h) + rest, k) == Fields(h)[k]
  {
    FieldBytes(host, h, rest, k);
    ReadHostBytes(host, Fields(h)[k]);
  }

  /** A header read back from its bytes is the header written, whatever follows it. */
  lemma DecodeHeaderRoundTrip(host: Endian, h: Header, rest: seq<byte>)
    ensures DecodeHeader(host, HeaderBytes(host, h) + rest) == Some(h)
  {
    var b := HeaderBytes(host, h) + rest;
    assert b[..8] == Prefix;
    FieldRoundTrip(host, h, rest, 0);
    FieldRoundTrip(host, h, rest, 1);
    FieldRoundTrip(host, h, rest, 2);
    FieldRoundTrip(host, h, rest, 3);
    FieldRoundTrip(host, h, rest, 4);
    FieldRoundTrip(host, h, rest, 5);
    FieldRoundTrip(host, h, rest, 6);
    FieldRoundTrip(host, h, rest, 7);
  }

  /**
   * The whole message reads back as the header the sender filled in and
   * the device's properties, when no property name contains '='.
   */
  lemma MessageRoundTrip(murmur: Murmur2, host: Endian, dev: Device)
    requires forall p :: p in dev.properties ==> Equals !in p.name
    ensures DecodeMessage(host, Message(murmur, host, dev)) == Some((HeaderFor(murmur, host, dev), dev.properties))
  {
    var h := HeaderFor(murmur, host, dev);
    var blob := PropertyBlob(dev.properties);
    DecodeHeaderRoundTrip(host, h, blob);
    assert Message(murmur, host, dev)[HeaderSize..] == blob;
    ParseBlobRoundTrip(dev.properties);
  }

  lemma MessageField(murmur: Murmur2, host: Endian, dev: Device, k: nat)
    requires k < 8
    ensures Message(murmur, host, dev)[8 + 4 * k..12 + 4 * k]
         == HostBytes(host, Fields(HeaderFor(murmur, host, dev))[k])
  {
    FieldBytes(host, HeaderFor(murmur, host, dev), PropertyBlob(dev.properties), k);
  }

  /** `headerSize`, 40, goes out in the host's byte order. */
  lemma HeaderSizeOnWire(murmur: Murmur2, host: Endian, dev: Device)
    ensures Message(murmur, host, dev)[12..16] == HostBytes(host, HeaderSize)
  {
    MessageField(murmur, host, dev, 1);
  }

  /** `propertiesOffset`, 40, goes out in the host's byte order. */
  lemma OffsetOnWire(murmur: Murmur2, host: Endian, dev: Device)
    ensures Message(murmur, host, dev)[16..20] == HostBytes(host, HeaderSize)
  {
    MessageField(murmur, host, dev, 2);
  }

  /** `propertiesLength`, the blob's length, goes out in the host's byte order. */
  lemma LengthOnWire(murmur: Murmur2, host: Endian, dev: Device)
    ensures Message(murmur, host, dev)[20..24] == HostBytes(host, Unsigned(|PropertyBlob(dev.properties)|))
  {
    MessageField(murmur, host, dev, 3);
  }

  /** The magic goes out in network order, whatever the host's byte order. */
  lemma MagicOnWire(murmur: Murmur2, host: Endian, dev: Device)
    ensures Message(murmur, host, dev)[8..12] == BigEndian(Magic)
  {
    NetworkField(murmur, host, dev, 0, Magic);
  }

  /**
   * The subsystem hash field goes out as zeros when the device has no
   * subsystem and as its `stringHash` in network order otherwise.
   */
  lemma SubsystemOnWire(murmur: Murmur2, host: Endian, dev: Device)
    ensures Message(murmur, host, dev)[24..28] == NameBytes(murmur, dev.subsystem)
  {
    NameField(murmur, host, dev, 4, dev.subsystem);
  }

  /**
   * The device-type hash field goes out as zeros when the device has no
   * device type and as its `stringHash` in network order otherwise.
   */
  lemma DevtypeOnWire(murmur: Murmur2, host: Endian, dev: Device)
    ensures Message(murmur, host, dev)[28..32] == NameBytes(murmur, dev.devtype)
  {
    NameField(murmur, host, dev, 5, dev.devtype);
  }

  /** The low half of the tag filter goes out in network order. */
  lemma BloomLowOnWire(murmur: Murmur2, host: Endian, dev: Device)
    ensures Message(murmur, host, dev)[32..36] == BigEndian(BloomLow(TagFilter(murmur, dev.tags)))
  {
    NetworkField(murmur, host, dev, 6, BloomLow(TagFilter(murmur, dev.tags)));
  }

  /** The high half of the tag filter goes out in network order. */
  lemma BloomHighOnWire(murmur: Murmur2, host: Endian, dev: Device)
    ensures Message(murmur, host, dev)[36..40] == BigEndian(BloomHigh(TagFilter(murmur, dev.tags)))
  {
    NetworkField(murmur, host, dev, 7, BloomHigh(TagFilter(murmur, dev.tags)));
  }

  lemma NetworkField(murmur: Murmur2, host: Endian, dev: Device, k: nat, x: u32)
    requires k < 8 && Fields(HeaderFor(murmur, host, dev))[k] == Htonl(host, x)
    ensures Message(murmur, host, dev)[8 + 4 * k..12 + 4 * k] == BigEndian(x)
  {
    MessageField(murmur, host, dev, k);
  }

  lemma NameField(murmur: Murmur2, host: Endian, dev: Device, k: nat, name: Option<CStr>)
    requires k < 8 && Fields(HeaderFor(murmur, host, dev))[k] == NameHash(murmur, host, name)
    ensures Message(murmur, host, dev)[8 + 4 * k..12 + 4 * k] == NameBytes(murmur, name)
  {
    MessageField(murmur, host, dev, k);
  }

  /**
   * `headerSize` is not in network order on a little-endian host: the
   * bytes it puts on the wire differ from `htonl(40)`'s.
   */
  lemma HostOrderLengths()
    ensures HostBytes(Little, HeaderSize) == [40, 0, 0, 0]
    ensures HostBytes(Big, HeaderSize) == BigEndian(HeaderSize) == [0, 0, 0, 40]
  {
  }
}
