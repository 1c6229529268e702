/**
 * The hand-off between the two threads (udevfw.c:40-49, 158-170,
 * 244-258): the main thread links each received device at the head of the
 * list `qhead`; the namespace thread unlinks entries from the head until
 * the list is empty, sends each device's message and releases the device.
 *
 * The mutex and the condition variable only serialise these steps, so the
 * model runs them one after the other. `Contents` is the list from `qhead`
 * to the tail; `Released` logs, in order, the devices whose reference was
 * dropped with `udev_device_unref`.
 */
module HandOff {
  import opened Bytes
  import opened Bloom
  import opened Wire
  import opened Encoder

  /** `QueueEntry` (udevfw.c:40-44): set once, when the entry is linked in. */
  class QueueEntry {
    const next: QueueEntry?
    const dev: Device
    /** The devices from this entry to the end of the list. */
    ghost const Contents: seq<Device>

    ghost predicate Valid()
      decreases |Contents|
    {
      |Contents| >= 1 && Contents[0] == dev &&
      (next == null ==> |Contents| == 1) &&
      (next != null ==> next.Contents == Contents[1..] && next.Valid())
    }

    /** `malloc`, then `entry->next = qhead; entry->dev = dev`. */
    constructor(dev: Device, next: QueueEntry?)
      requires next != null ==> next.Valid()
      ensures Valid()
      ensures this.dev == dev && this.next == next
      ensures Contents == [dev] + (if next == null then [] else next.Contents)
    {
      this.dev := dev;
      this.next := next;
      Contents := [dev] + (if next == null then [] else next.Contents);
    }
  }

  /** The global `qhead` with the list it heads. */
  class Queue {
    var qhead: QueueEntry?
    /** The queued devices, the most recently pushed first. */
    ghost var Contents: seq<Device>
    /** The devices released so far, in the order they were released. */
    ghost var Released: seq<Device>

    ghost predicate Valid()
      reads this
    {
      (qhead == null ==> Contents == []) &&
      (qhead != null ==> qhead.Valid() && qhead.Contents == Contents)
    }

    /** `struct QueueEntry *qhead;`: a global, so it starts out null. */
    constructor()
      ensures Valid() && Contents == [] && Released == []
    {
      qhead := null;
      Contents := [];
      Released := [];
    }

    /**
     * The producer (udevfw.c:249-255): the new entry becomes the head and
     * the old list follows it unchanged.
     */
    method Push(dev: Device)
      requires Valid()
      modifies this
      ensures Valid()
      ensures Contents == [dev] + old(Contents)
      ensures qhead != null && qhead.dev == dev && qhead.next == old(qhead)
      ensures Released == old(Released)
    {
      var entry := new QueueEntry(dev, qhead);
      qhead := entry;
      Contents := [dev] + Contents;
    }

    /**
     * One event of the main loop (udevfw.c:246-256): a device received is
     * pushed, a failed receive pushes nothing.
     */
    method ReceiveOne(event: Option<Device>)
      requires Valid()
      modifies this
      ensures Valid()
      ensures Contents == (if event.Some? then [event.value] else []) + old(Contents)
      ensures Released == old(Released)
    {
      if event.Some? {
        Push(event.value);
      }
    }

    /**
     * One batch of events in the main loop (udevfw.c:244-258): the devices
     * received end up at the head of the list, the last received first.
     */
    method Receive(events: seq<Option<Device>>)
      requires Valid()
      modifies this
      ensures Valid()
      ensures Contents == Reverse(Present(events)) + old(Contents)
      ensures Released == old(Released)
    {
      ghost var queued := Contents;
      var i := 0;
      while i < |events|
        invariant 0 <= i <= |events|
        invariant Valid()
        invariant Contents == Reverse(Present(events[..i])) + queued
        invariant Released == old(Released)
      {
        ReceivedStep(events, i, queued);
        ReceiveOne(events[i]);
        i := i + 1;
      }
      assert events[..i] == events;
    }

    /**
     * The head of the list is taken off (udevfw.c:164-168): its device is
     * returned and `qhead` moves on to the next entry.
     */
    method Unlink() returns (dev: Device)
      requires Valid() && qhead != null
      modifies this
      ensures Valid()
      ensures old(Contents) == [dev] + Contents
      ensures qhead == old(qhead.next)
      ensures Released == old(Released)
    {
      var next := qhead.next;
      dev := qhead.dev;
      qhead := next;
      Contents := Contents[1..];
    }

    /**
     * One iteration of the consumer (udevfw.c:163-169): the head is
     * unlinked, its device's message is sent, and the device is released.
     * `sent` is the bytes handed to `sendmsg` for that device.
     */
    method Consume(murmur: Murmur2, host: Endian) returns (dev: Device, sent: seq<byte>)
      requires Valid() && qhead != null
      modifies this
      ensures sent == Message(murmur, host, dev)
      ensures Valid()
      ensures old(Contents) == [dev] + Contents
      ensures qhead == old(qhead.next)
      ensures Released == old(Released) + [dev]
    {
      dev := Unlink();
      sent := Transmit(murmur, host, dev);
      Released := Released + [dev];
    }

    /**
     * The consumer (udevfw.c:162-170): unlinks entries from the head until
     * `qhead` is null, sending each device's message and releasing the
     * device. The devices come out in list order, each exactly once, and
     * the queue is left empty.
     */
    method Drain(murmur: Murmur2, host: Endian) returns (drained: seq<Device>)
      requires Valid()
      modifies this
      ensures Valid() && Contents == [] && qhead == null
      ensures drained == old(Contents)
      ensures Released == old(Released) + old(Contents)
    {
      ghost var queued, released := Contents, Released;
      drained := [];
      while qhead != null
        invariant Valid()
        invariant queued == drained + Contents
        invariant Released == released + drained
        decreases |Contents|
      {
        var dev, _ := Consume(murmur, host);
        ConcatAssoc(drained, [dev], Contents);
        ConcatAssoc(released, drained, [dev]);
        drained := drained + [dev];
      }
    }
  }

  /**
   * `sendDeviceMessage(sendfd, dev)` as the consumer calls it
   * (udevfw.c:168): the bytes handed to `sendmsg` are the message of
   * `dev`. Handing them to the socket is not part of this model, and the
   * consumer ignores the result, as in C.
   */
  method Transmit(murmur: Murmur2, host: Endian, dev: Device) returns (sent: seq<byte>)
    ensures sent == Message(murmur, host, dev)
  {
    var header, buf := SendDeviceMessage(murmur, host, dev);
    sent := HeaderBytes(host, header) + buf[..];
  }

  /** The devices of a batch that were received, in order. */
  function Present(events: seq<Option<Device>>): seq<Device>
    decreases |events|
  {
    if events == [] then []
    else (if events[0].Some? then [events[0].value] else []) + Present(events[1..])
  }

  /** The devices received so far, newest first, after one more event. */
  lemma ReceivedStep(events: seq<Option<Device>>, i: nat, queued: seq<Device>)
    requires i < |events|
    ensures Reverse(Present(events[..i + 1])) + queued
         == (if events[i].Some? then [events[i].value] else []) + (Reverse(Present(events[..i])) + queued)
  {
    assert events[..i + 1] == events[..i] + [events[i]];
    PresentAppend(events[..i], [events[i]]);
    ReverseAppend(Present(events[..i]), Present([events[i]]));
    PresentOne(events[i]);
    ConcatAssoc(if events[i].Some? then [events[i].value] else [], Reverse(Present(events[..i])), queued);
  }

  lemma ConcatAssoc<T>(a: seq<T>, b: seq<T>, c: seq<T>)
    ensures a + (b + c) == (a + b) + c
  {
  }

  lemma PresentOne(e: Option<Device>)
    ensures Reverse(Present([e])) == if e.Some? then [e.value] else []
  {
    assert [e][1..] == [];
    if e.Some? {
      assert [e.value][1..] == [];
    }
  }

  function Reverse<T>(s: seq<T>): (r: seq<T>)
    ensures |r| == |s|
    decreases |s|
  {
    if s == [] then [] else Reverse(s[1..]) + [s[0]]
  }

  lemma {:induction false} PresentAppend(a: seq<Option<Device>>, b: seq<Option<Device>>)
    ensures Present(a + b) == Present(a) + Present(b)
    decreases |a|
  {
    if a == [] {
      assert a + b == b;
    } else {
      assert (a + b)[0] == a[0];
      assert (a + b)[1..] == a[1..] + b;
      PresentAppend(a[1..], b);
    }
  }

  lemma {:induction false} ReverseAppend<T>(a: seq<T>, b: seq<T>)
    ensures Reverse(a + b) == Reverse(b) + Reverse(a)
    decreases |a|
  {
    if a == [] {
      assert a + b == b;
    } else {
      assert (a + b)[1..] == a[1..] + b;
      ReverseAppend(a[1..], b);
    }
  }

  /** Position `i` of the reversed list holds element `|s| - 1 - i`. */
  lemma {:induction false} ReverseIndex<T>(s: seq<T>, i: nat)
    requires i < |s|
    ensures Reverse(s)[i] == s[|s| - 1 - i]
    decreases |s|
  {
    if i < |s| - 1 {
      ReverseIndex(s[1..], i);
    }
  }

  /** Reversal neither loses nor duplicates an element. */
  lemma {:induction false} ReverseMultiset<T>(s: seq<T>)
    ensures multiset(Reverse(s)) == multiset(s)
    decreases |s|
  {
    if s != [] {
      ReverseMultiset(s[1..]);
      assert s == [s[0]] + s[1..];
    }
  }

  /**
   * One batch received into an empty queue and then drained: the devices
   * are sent and released last-received first, each exactly once. By
   * `ReverseIndex`, devices received e1, e2, ..., en come out en, ..., e1.
   */
  method ReceiveThenDrain(q: Queue, events: seq<Option<Device>>, murmur: Murmur2, host: Endian)
    returns (drained: seq<Device>)
    requires q.Valid() && q.Contents == []
    modifies q
    ensures q.Valid() && q.Contents == []
    ensures drained == Reverse(Present(events))
    ensures q.Released == old(q.Released) + drained
    ensures multiset(drained) == multiset(Present(events))
  {
    q.Receive(events);
    assert q.Contents == Reverse(Present(events));
    drained := q.Drain(murmur, host);
    ReverseMultiset(Present(events));
  }
}
