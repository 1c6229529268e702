# udevfw in Dafny

udevfw forwards udev device events from the host into another network
namespace. The main thread receives devices from a udev monitor and links
them into a shared list. A second thread, running inside the target
namespace, takes them off that list and re-broadcasts each one. It encodes
each device in libudev's monitor format: a 40-byte `MessageHeader`, then
the device's properties as `name=value\0` strings.

This project models the three parts of `udevfw.c` that carry that logic.
It proves what they compute:

- `bytes.dfy` (module `Bytes`): bytes, NUL-free C strings, and the memory
  layout of an `unsigned int` on a little- or big-endian host. `htonl` is
  modelled as the identity on a big-endian host and a byte swap on a
  little-endian one.
- `bloom.dfy` (module `Bloom`): `stringHash`, `bloomHash`, and the tag
  bloom filter with its two 32-bit halves. A 64-bit word is a natural
  number below 2^64. Bitwise OR is `Or`, digit by digit. `1ULL << p` is
  `Pow2(p)`. The bits of a word are its binary digits (`BitSet`).
- `wire.dfy` (module `Wire`): the device as the encoder sees it, the
  header `sendDeviceMessage` fills in (`HeaderFor`), the property blob
  (`PropertyBlob`), and the message bytes (`Message`). It also holds a
  reader for those bytes (`DecodeMessage`), which serves as the
  round-trip partner of the encoder.
- `encoder.dfy` (module `Encoder`): `sendDeviceMessage` up to `sendmsg`,
  written as the C writes it. A tag loop ORs into `tagBits`. A property
  loop grows an `array` with `realloc` and copies each entry in with
  `memcpy` at `bufpos`. Then a final `realloc` adds the closing NUL. Each
  method is proved against the functions of `Wire`.
- `handoff.dfy` (module `HandOff`): the global list `qhead`. It is a
  `Queue` class over `QueueEntry` nodes. It has the producer's push
  (inside `main`'s receive loop) and the consumer's drain loop. A ghost
  log `Released` records the devices whose reference the consumer drops.

Header byte order: `magic`, the two name hashes and the two bloom halves
are stored through `htonl`, so they reach the wire in network order on
every host. `headerSize`, `propertiesOffset` and `propertiesLength` are
assigned without `htonl` (`udevfw.c:71`, `130-131`). On a little-endian
host they therefore go out least significant byte first, so on such a
host these three fields are not in network order, unlike the other five.
The model follows the code. `Wire.HostOrderLengths` shows the difference
for `headerSize` = 40.

MurmurHash2 is declared in `MurmurHash2.h`, which is not part of this
model. Every hashing function therefore takes it as a parameter `murmur`,
and every property proved here holds for any 32-bit hash function. The
host's byte order is also a parameter, `host`.

## Model

| member | source | states |
|---|---|---|
| Bytes.Htonl | udevfw.c:71 | `htonl`: the identity on a big-endian host and a byte swap on a little-endian one; on either host the four memory bytes of `htonl(x)` are the big-endian encoding of `x` |
| Bytes.ReadHostBytes | udevfw.c:30-37 | an `unsigned int` field read back from its memory bytes is the value stored, on either host |
| Bytes.WriteRead | udevfw.c:30-37 | four bytes read as a big-endian word and encoded again are the same four bytes |
| Bytes.ReadWrite | udevfw.c:30-37 | a word encoded big-endian and read back is the same word |
| Bytes.ZeroBytes | udevfw.c:70-72 | a field left at its zero initialiser is four zero bytes on either host |
| Bloom.StringHash | udevfw.c:51-54 | `stringHash`: MurmurHash2 over the bytes of the string before its NUL, with seed 0 |
| Bloom.Bit | udevfw.c:61 | `1ULL << p` for a position below 64 fits in 64 bits |
| Bloom.Slice | udevfw.c:61-64 | `(hash >> shift) & 63` is a bit position below 64 |
| Bloom.SetBit | udevfw.c:61-64 | setting bit `p` of a 64-bit word keeps it within 64 bits |
| Bloom.BloomHash | udevfw.c:56-66 | `bloomHash` is a 64-bit word |
| Bloom.BloomHashBits | udevfw.c:56-66 | the bits set in `bloomHash(s)` are exactly the four slices of `stringHash(s)`, so there are between 1 and 4 of them |
| Bloom.BloomHashSingleBit | udevfw.c:56-66 | exactly one bit is set if and only if the four slices coincide, and the word is then `1ULL << slice` |
| Bloom.TagFilter | udevfw.c:97-101 | the filter after the tag loop is a 64-bit word |
| Bloom.TagFilterBits | udevfw.c:97-101 | the bits of the filter are exactly the union of the slices of all tags; no tags gives no bits |
| Bloom.TagFilterCovers | udevfw.c:97-101 | every bit of each tag's `bloomHash` is set in the filter |
| Bloom.TagFilterSameTags | udevfw.c:97-101 | two tag lists with the same tags, in any order and with any repetitions, give the same filter |
| Bloom.BloomLow | udevfw.c:103 | `tagBits & 0xFFFFFFFF` fits in an `unsigned int` |
| Bloom.BloomHigh | udevfw.c:104 | `tagBits >> 32` fits in an `unsigned int` |
| Bloom.SplitHalves | udevfw.c:103-104 | the low half plus 2^32 times the high half is the filter |
| Bloom.Or | udevfw.c:100 | C's bitwise OR on 64-bit words, one binary digit at a time; its bits are given by `Bloom.OrBits` |
| Bloom.OrBound | udevfw.c:100 | the OR of two words below 2^n is below 2^n, so ORing `bloomHash(tag)` into `tagBits` keeps a 64-bit word |
| Bloom.OrBits | udevfw.c:58-64 | bit `p` of the OR of `x` and `y` is set if and only if it is set in `x` or in `y` |
| Bloom.BitSetDetermines | udevfw.c:97-104 | two 64-bit words with the same set bits are equal |
| Wire.Unsigned | udevfw.c:131 | the `int` `buflen` stored into the `unsigned int` `propertiesLength`: taken modulo 2^32, and unchanged when it is below 2^32 |
| Wire.NameHash | udevfw.c:89-95 | `filterSubsystemHash` / `filterDeviceTypeHash`: 0 when the name is absent and `htonl(stringHash(name))` otherwise, so its memory bytes are four zeros or the name's hash in network order |
| Wire.HeaderFor | udevfw.c:70-131 | the header `sendDeviceMessage` fills in: `headerSize` and `propertiesOffset` are 40, `propertiesLength` is the sum of `proplen` over the properties plus 1 (modulo 2^32), the hash fields are 0 for an absent subsystem or device type, and both bloom halves are 0 for a device without tags |
| Wire.Entry | udevfw.c:111-124 | one property as the loop writes it: `proplen = strlen(name) + strlen(val) + 2` bytes, '=' right after the name, a NUL at the end and no NUL before it |
| Wire.Serialized | udevfw.c:106-125 | the buffer after the property loop: the entries in list order, `buflen` bytes long, the sum of the `proplen`s |
| Wire.PropertyBlob | udevfw.c:106-129 | the buffer after the final `realloc`: one byte longer than the loop's, ending in NUL, so its length, and with it `propertiesLength`, is at least 1 |
| Wire.Message | udevfw.c:79-133 | the bytes `sendmsg` gets: 40 header bytes starting with "libudev\0", followed immediately by the blob |
| Wire.Fields | udevfw.c:27-38 | a header has eight `unsigned int` fields |
| Wire.HeaderBytes | udevfw.c:27-38 | the header in memory is 40 bytes, `sizeof(MessageHeader)` |
| Wire.Words | udevfw.c:30-37 | a run of `unsigned int`s takes four bytes each |
| Wire.WordAt | udevfw.c:30-37 | field `k` of a run of words occupies bytes `4k` to `4k+4` |
| Wire.FieldBytes | udevfw.c:30-37 | header field `k` sits at bytes `8+4k` to `12+4k` of anything that starts with the header |
| Wire.FieldRoundTrip | udevfw.c:30-37 | reading field `k` back from the header's bytes gives the field stored |
| Wire.DecodeHeaderRoundTrip | udevfw.c:27-38 | a header read back from its 40 bytes, whatever follows them, is the header written |
| Wire.BlobCons | udevfw.c:106-129 | the blob of a list is the first property's `name=value\0`, then the blob of the rest |
| Wire.FirstIndex | udevfw.c:106-129 | the position found holds the byte looked for, and no earlier position does; no position means the byte is absent |
| Wire.ParseBlobRoundTrip | udevfw.c:106-129 | when no name contains '=', splitting the blob at NULs and each piece at its first '=' gives back exactly the properties, in order |
| Wire.ParseBlobOnlyBlobs | udevfw.c:106-129 | every byte string the reader accepts is the blob of the properties it reads, and none of their names contains '=' |
| Wire.EqualsInNameIsAmbiguous | udevfw.c:117-121 | with '=' inside a name, two different property lists produce the same blob |
| Wire.MessageRoundTrip | udevfw.c:68-133 | the message reads back as the header the sender filled in and the device's properties, when no name contains '=' |
| Wire.MagicOnWire | udevfw.c:70-71 | bytes 8-12 are `0xFEEDCAFE` in network order |
| Wire.HeaderSizeOnWire | udevfw.c:71 | bytes 12-16 are 40 in the host's byte order |
| Wire.OffsetOnWire | udevfw.c:130 | bytes 16-20 are 40 in the host's byte order |
| Wire.LengthOnWire | udevfw.c:131 | bytes 20-24 are the blob's length in the host's byte order |
| Wire.SubsystemOnWire | udevfw.c:86-91 | bytes 24-28 are zero without a subsystem, and otherwise its `stringHash` in network order |
| Wire.DevtypeOnWire | udevfw.c:93-95 | bytes 28-32 are zero without a device type, and otherwise its `stringHash` in network order |
| Wire.BloomLowOnWire | udevfw.c:103 | bytes 32-36 are the low half of the tag filter in network order |
| Wire.BloomHighOnWire | udevfw.c:104 | bytes 36-40 are the high half of the tag filter in network order |
| Wire.HostOrderLengths | udevfw.c:71 | 40 stored without `htonl` is `28 00 00 00` on a little-endian host, and `00 00 00 28` (network order) only on a big-endian one |
| Encoder.Realloc | udevfw.c:115 | the grown buffer has the new length and starts with the old contents |
| Encoder.Memcpy | udevfw.c:117 | the bytes at the destination offset become the source, and every other byte stays |
| Encoder.AppendProperty | udevfw.c:109-124 | one loop iteration, entered with `bufpos == buflen`, appends exactly `name=value\0` and leaves `bufpos == buflen` again, both advanced by `proplen` |
| Encoder.TagBits | udevfw.c:97-101 | the tag loop computes `Bloom.TagFilter` of the tag list |
| Encoder.SerializeProperties | udevfw.c:106-129 | the property loop keeps `bufpos == buflen` after every iteration, and with the final NUL produces exactly `Wire.PropertyBlob` of the property list, `buflen` being its length |
| Encoder.SendDeviceMessage | udevfw.c:68-133 | the header filled in is `Wire.HeaderFor(dev)`, the buffer is the blob, and together they are `Wire.Message(dev)` |
| HandOff.QueueEntry.constructor | udevfw.c:249-254 | a new entry holds the device and links to the old head |
| HandOff.Queue.constructor | udevfw.c:49 | the global list starts empty |
| HandOff.Queue.Push | udevfw.c:249-255 | the new entry holding the device becomes the head, the old list follows it unchanged, and nothing is released |
| HandOff.Queue.ReceiveOne | udevfw.c:245-258 | a received device is pushed, and a failed receive leaves the list as it was |
| HandOff.Queue.Receive | udevfw.c:244-260 | after a batch of events, the devices received are at the head of the list, the last received first |
| HandOff.Queue.Unlink | udevfw.c:163-167 | the head's device is returned and `qhead` moves to the next entry |
| HandOff.Queue.Consume | udevfw.c:163-169 | one consumer iteration: the head's device is unlinked, the bytes handed to `sendmsg` for it are `Wire.Message` of that device, and it is released, once |
| HandOff.Queue.Drain | udevfw.c:162-170 | the drain loop visits every device in list order exactly once, releases each, and leaves `qhead` null |
| HandOff.Transmit | udevfw.c:168 | `sendDeviceMessage(sendfd, dev)` as the consumer calls it: the bytes it hands to `sendmsg` are `Wire.Message` of the device |
| HandOff.ReceiveThenDrain | udevfw.c:162-170 | devices received into an empty list come out in reverse order of arrival, each exactly once (same multiset) |
| HandOff.ReverseIndex | udevfw.c:162-170 | position `i` of the drained order holds the device received `i`-th from last |
| HandOff.ReverseMultiset | udevfw.c:162-170 | reversing the order neither loses nor duplicates a device |
| HandOff.PresentAppend | udevfw.c:244-258 | the devices received in two consecutive runs of events are those of the first run, then those of the second |
| HandOff.ReverseAppend | udevfw.c:253-255 | pushing two runs one after the other stacks the second run, reversed, on top of the first |

## Left out

- MurmurHash2 (`MurmurHash2.h`) is not part of this model. It is the parameter `murmur`, any function from bytes and a 32-bit seed to a 32-bit value.
- The sockets, `sendmsg`, `setns`, `epoll_create1`, `epoll_ctl`, `epoll_wait` with its EINTR retry, and the `sockaddr_nl` and `msghdr` setup are kernel I/O. `Encoder.SendDeviceMessage` returns the two `iovec` parts (header and buffer) instead of sending them. `HandOff.Transmit` returns the bytes it would send. What `sendmsg` does with them is not modelled, and the consumer ignores the result, as in C.
- `pthread_mutex_*`, `pthread_cond_*` and the thread spawn are left out. The model is sequential: a batch of pushes, then a drain. The consumer's wait on an empty list (`udevfw.c:158-160`) is not modelled.
- libudev is replaced by the `Device` datatype and by events of type `Option<Device>`. This covers `udev_monitor_receive_device`, the list accessors and the device getters. An event that is not `EPOLLIN`, and a failed receive, are both `None`. `udev_device_unref` is the ghost log `Queue.Released`.
- `main`'s argument checks, `open`, the monitor setup and the `perror`/`exit` error paths are startup wiring.
- `malloc` and `realloc` failures are unchecked in C. The model's allocation always succeeds. The bytes of a grown buffer past its old contents are zero here, where C leaves them indeterminate. The encoder overwrites all of them.
- Wire.LengthOnWire: `buflen` is an `int`, and a blob of 2^31 bytes or more overflows it. The model stores the length modulo 2^32 (`Wire.Unsigned`) and does not model the signed overflow.
- `free(qhead)` is not modelled. Unlinked entries simply become unreachable.
- The `QueueEntry` fields are set once when the entry is linked (`udevfw.c:253-254`) and never changed. The model declares them `const`.
