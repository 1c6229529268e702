/**
 * `sendDeviceMessage` up to its `sendmsg` (udevfw.c:68-133): the header
 * is filled in field by field, the tag loop ORs the tags' bloom hashes
 * into `tagBits`, and the property loop grows `buf` with `realloc` and
 * copies each `name=value\0` into it, keeping `bufpos == buflen` between
 * iterations. The method is proved to produce exactly `Wire.HeaderFor`
 * and `Wire.PropertyBlob`, the two parts of `Wire.Message`.
 */
module Encoder {
  import opened Bytes
  import opened Bloom
  import opened Wire

  /**
   * `realloc(buf, n)` growing a buffer: a new buffer of `n` bytes that
   * starts with the old contents. What follows them is indeterminate in C
   * and zero here; the encoder overwrites all of it.
   */
  method Realloc(buf: array<byte>, n: nat) returns (r: array<byte>)
    requires buf.Length <= n
    ensures fresh(r) && r.Length == n
    ensures r[..buf.Length] == buf[..]
  {
    r := new byte[n];
    var i := 0;
    while i < buf.Length
      invariant 0 <= i <= buf.Length
      invariant r[..i] == buf[..i]
    {
      r[i] := buf[i];
      i := i + 1;
    }
  }

  /** `memcpy(dst + at, src, |src|)`: the bytes at `at` become `src`, the rest stay. */
  method Memcpy(dst: array<byte>, at: nat, src: seq<byte>)
    requires at + |src| <= dst.Length
    modifies dst
    ensures dst[..] == old(dst[..at]) + src + old(dst[at + |src|..])
  {
    var i := 0;
    while i < |src|
      invariant 0 <= i <= |src|
      invariant forall k :: 0 <= k < dst.Length ==>
        dst[k] == if at <= k < at + i then src[k - at] else old(dst[k])
    {
      dst[at + i] := src[i];
      i := i + 1;
    }
    assert dst[..] == old(dst[..at]) + src + old(dst[at + |src|..]) by {
      assert forall k :: 0 <= k < dst.Length ==>
        dst[..][k] == (old(dst[..at]) + src + old(dst[at + |src|..]))[k];
    }
  }

  /**
   * One iteration of the property loop (udevfw.c:109-124): grow the buffer
   * by `proplen`, then copy the name, '=', the value and a NUL at
   * `bufpos`. Entered with `bufpos == buflen`, it leaves them equal again,
   * both advanced by `proplen`.
   */
  method AppendProperty(buf: array<byte>, buflen: nat, bufpos: nat, p: Property)
    returns (r: array<byte>, newlen: nat, newpos: nat)
    requires bufpos == buflen == buf.Length
    ensures fresh(r)
    ensures newpos == newlen == r.Length == buflen + |p.name| + |p.value| + 2
    ensures r[..] == buf[..] + Entry(p)
  {
    var name, val := p.name, p.value;
    var namelen, vallen := |name|, |val|;
    var proplen := namelen + vallen + 2;
    newlen, newpos := buflen, bufpos;
    ghost var before := buf[..];
    r := Realloc(buf, newlen + proplen);
    newlen := newlen + proplen;
    Memcpy(r, newpos, name);
    ghost var written := before + name;
    assert r[..newpos + namelen] == written;
    newpos := newpos + namelen;
    r[newpos] := Equals;
    assert r[..newpos + 1] == written + [Equals];
    written := written + [Equals];
    newpos := newpos + 1;
    Memcpy(r, newpos, val);
    assert r[..newpos + vallen] == written + val;
    written := written + val;
    newpos := newpos + vallen;
    r[newpos] := 0;
    assert r[..newpos + 1] == written + [0];
    written := written + [0];
    newpos := newpos + 1;
    assert r[..] == written;
    AppendEntry(before, p);
  }

  lemma AppendEntry(before: seq<byte>, p: Property)
    ensures before + p.name + [Equals] + p.value + [0] == before + Entry(p)
  {
  }

  /** The tag loop (udevfw.c:97-101): `tagBits` starts at 0 and ORs in `bloomHash` of each tag. */
  method TagBits(murmur: Murmur2, tags: seq<CStr>) returns (tagBits: nat)
    ensures tagBits == TagFilter(murmur, tags)
  {
    tagBits := 0;
    var i := 0;
    while i < |tags|
      invariant 0 <= i <= |tags|
      invariant tagBits == TagFilter(murmur, tags[..i])
    {
      assert tags[..i + 1][..i] == tags[..i];
      tagBits := Or(tagBits, BloomHash(murmur, tags[i]));
      i := i + 1;
    }
    assert tags[..i] == tags;
  }

  /**
   * The property loop and the final NUL (udevfw.c:106-129): `bufpos`
   * equals `buflen` after every iteration, the buffer holds every
   * property as `name=value\0`, in list order, then one more NUL, and
   * `buflen` is its length.
   */
  method SerializeProperties(props: seq<Property>) returns (buf: array<byte>, buflen: nat)
    ensures fresh(buf)
    ensures buf[..] == PropertyBlob(props)
    ensures buflen == buf.Length == PropsLength(props) + 1
  {
    buf := new byte[0];
    buflen := 0;
    var bufpos := 0;
    var j := 0;
    while j < |props|
      invariant 0 <= j <= |props|
      invariant fresh(buf)
      invariant bufpos == buflen == buf.Length
      invariant buf[..] == Serialized(props[..j])
    {
      assert props[..j + 1][..j] == props[..j];
      buf, buflen, bufpos := AppendProperty(buf, buflen, bufpos, props[j]);
      j := j + 1;
    }
    assert props[..j] == props;

    ghost var serialized := buf[..];
    buf := Realloc(buf, buflen + 1);
    buflen := buflen + 1;
    buf[buflen - 1] := 0;
    assert buf[..] == serialized + [0];
  }

  /**
   * The header and the buffer `sendDeviceMessage` hands to `sendmsg` as
   * its two `iovec`s: exactly the header and the blob of `Wire`, so that
   * together they are `Wire.Message`.
   */
  method SendDeviceMessage(murmur: Murmur2, host: Endian, dev: Device) returns (header: Header, buf: array<byte>)
    ensures fresh(buf)
    ensures header == HeaderFor(murmur, host, dev)
    ensures buf[..] == PropertyBlob(dev.properties)
    ensures HeaderBytes(host, header) + buf[..] == Message(murmur, host, dev)
  {
    header := Header(Htonl(host, Magic), HeaderSize, 0, 0, 0, 0, 0, 0);
    if dev.subsystem.Some? {
      header := header.(filterSubsystemHash := Htonl(host, StringHash(murmur, dev.subsystem.value)));
    }
    if dev.devtype.Some? {
      header := header.(filterDeviceTypeHash := Htonl(host, StringHash(murmur, dev.devtype.value)));
    }
    var tagBits := TagBits(murmur, dev.tags);
    header := header.(filterTagBloomLow := Htonl(host, BloomLow(tagBits)),
                      filterTagBloomHigh := Htonl(host, BloomHigh(tagBits)));
    var buflen;
    buf, buflen := SerializeProperties(dev.properties);
    header := header.(propertiesOffset := HeaderSize, propertiesLength := Unsigned(buflen));
  }
}
