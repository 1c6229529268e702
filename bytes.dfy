/**
 * Bytes, C strings and the byte order of 32-bit words in memory.
 *
 * A byte is a number below 256 and an `unsigned int` a number below
 * 2^32; shifting right by `k` bits is dividing by 2^k and masking with
 * `2^k - 1` is taking the remainder by 2^k.
 *
 * The C program keeps every numeric header field in an `unsigned int`
 * and hands the header struct to the kernel as raw memory, so what goes
 * on the wire is the host's in-memory layout of each field. `htonl`
 * (udevfw.c:71, 90, 94, 103-104) is the identity on a big-endian host
 * and a byte swap on a little-endian one; either way the memory bytes of
 * `htonl(x)` are the big-endian encoding of `x`.
 */
module Bytes {

  type byte = x: int | 0 <= x < 0x100

  /** An `unsigned int`. */
  type u32 = x: int | 0 <= x < 0x1_0000_0000

  /** A C string as the program sees it through `strlen`: its bytes, none of them NUL. */
  type CStr = s: seq<byte> | 0 !in s

  datatype Option<+T> = None | Some(value: T)

  /** The byte order of the host the program runs on. */
  datatype Endian = Little | Big

  /**
   * Big-endian (network order) encoding of a 32-bit word: the bytes
   * `x >> 24`, `(x >> 16) & 0xFF`, `(x >> 8) & 0xFF` and `x & 0xFF`.
   */
  function BigEndian(x: u32): (b: seq<byte>)
    ensures |b| == 4
  {
    [x / 0x100 / 0x100 / 0x100, x / 0x100 / 0x100 % 0x100, x / 0x100 % 0x100, x % 0x100]
  }

  /** Reads a big-endian 32-bit word. */
  function ReadBigEndian(b: seq<byte>): u32
    requires |b| == 4
  {
    ((b[0] as int * 0x100 + b[1]) * 0x100 + b[2]) * 0x100 + b[3]
  }

  /** The bytes of a word in the opposite order. */
  function Swapped(b: seq<byte>): (r: seq<byte>)
    requires |b| == 4
    ensures |r| == 4
  {
    [b[3], b[2], b[1], b[0]]
  }

  /** Little-endian encoding of a 32-bit word. */
  function LittleEndian(x: u32): (b: seq<byte>)
    ensures |b| == 4
  {
    Swapped(BigEndian(x))
  }

  /** Reverses the four bytes of a word. */
  function ByteSwap(x: u32): u32 {
    ReadBigEndian(LittleEndian(x))
  }

  /** The four bytes an `unsigned int` holding `x` occupies in memory on `host`. */
  function HostBytes(host: Endian, x: u32): (b: seq<byte>)
    ensures |b| == 4
  {
    match host
    case Big => BigEndian(x)
    case Little => LittleEndian(x)
  }

  /** Reads an `unsigned int` back from its in-memory bytes on `host`. */
  function ReadHost(host: Endian, b: seq<byte>): u32
    requires |b| == 4
  {
    match host
    case Big => ReadBigEndian(b)
    case Little => ReadBigEndian(Swapped(b))
  }

  /**
   * `htonl`: host to network order. Whatever the host, the memory bytes
   * of the result are `x` in network order.
   */
  function Htonl(host: Endian, x: u32): (r: u32)
    ensures HostBytes(host, r) == BigEndian(x)
  {
    match host
    case Big => x
    case Little =>
      WriteRead(LittleEndian(x));
      ByteSwap(x)
  }

  /** Four bytes read as a word and written back are the same four bytes. */
  lemma WriteRead(b: seq<byte>)
    requires |b| == 4
    ensures BigEndian(ReadBigEndian(b)) == b
  {
    var hi: nat := b[0] as int * 0x100 + b[1];
    var mid: nat := hi * 0x100 + b[2];
    Digit(mid, b[3]);
    Digit(hi, b[2]);
    Digit(b[0], b[1]);
  }

  /** Dividing `q * 256 + d` by 256 separates the last byte `d` from `q`. */
  lemma Digit(q: nat, d: byte)
    ensures (q * 0x100 + d) / 0x100 == q
    ensures (q * 0x100 + d) % 0x100 == d
  {
  }

  /** A word written as four bytes and read back is the same word. */
  lemma ReadWrite(x: u32)
    ensures ReadBigEndian(BigEndian(x)) == x
  {
  }

  /** Zero is four zero bytes in either order. */
  lemma ZeroBytes(host: Endian)
    ensures HostBytes(host, 0) == [0, 0, 0, 0]
  {
  }

  /** A word stored in memory reads back unchanged. */
  lemma ReadHostBytes(host: Endian, x: u32)
    ensures ReadHost(host, HostBytes(host, x)) == x
  {
    ReadWrite(x);
    if host == Little {
      assert Swapped(LittleEndian(x)) == BigEndian(x);
    }
  }
}
