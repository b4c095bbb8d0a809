/**
  The receive virtqueue (hal/x86_64/virtio_net.c) between the driver and a
  device that follows the specification: free-running 16-bit indices into rings
  of a power-of-two size, over any number of receives.
 */
module Virtqueue {
  import opened Options
  import opened Words

  const WRAP: nat := 0x1_0000

  datatype Used = Used(id: nat, len: nat)

  /** The memory both sides see, and the driver's two private counters. */
  datatype Ring = Ring(qsize: nat, avail: seq<nat>, availIdx: nat, used: seq<Used>, usedIdx: nat,
                       nextAvail: nat, lastUsed: nat)

  predicate RingOk(r: Ring) {
    && 0 < r.qsize <= 0x8000 && WRAP % r.qsize == 0
    && |r.avail| == r.qsize && |r.used| == r.qsize
  }

  /** virtq_publish: entry first, then the index. */
  function Publish(r: Ring, id: nat): (r': Ring)
    requires RingOk(r)
    ensures RingOk(r')
  {
    var n := (r.nextAvail + 1) % WRAP;
    r.(avail := r.avail[r.nextAvail % r.qsize := id], nextAvail := n, availIdx := n)
  }

  /** One look at the used ring: the next returned buffer, if the device has returned one. */
  function TakeUsed(r: Ring): (x: (Ring, Option<Used>))
    requires RingOk(r)
    ensures RingOk(x.0)
  {
    if r.usedIdx == r.lastUsed then (r, None)
    else (r.(lastUsed := (r.lastUsed + 1) % WRAP), Some(r.used[r.lastUsed % r.qsize]))
  }

  /** The device's side of the used ring. */
  function DeviceReturn(r: Ring, u: Used): (r': Ring)
    requires RingOk(r)
    ensures RingOk(r')
  {
    r.(used := r.used[r.usedIdx % r.qsize := u], usedIdx := (r.usedIdx + 1) % WRAP)
  }

  // ---- the protocol -----------------------------------------------------------------

  /**
    Driver and device together. The four logs record everything published,
    taken by the device, returned by it and taken by the driver; `atDevice` and
    `atDriver` are the buffers each side holds in between.
   */
  datatype Queue = Queue(ring: Ring, deviceLast: nat, atDevice: set<nat>, atDriver: set<nat>,
                         published: seq<nat>, consumed: seq<nat>, returned: seq<Used>, taken: seq<Used>)

  datatype Event =
    | Post(id: nat)                 // driver: rx_post of a buffer it holds
    | DeviceTake                    // device: reads the next available entry
    | DeviceGiveBack(id: nat, len: nat) // device: returns a buffer it holds, in any order
    | Take                          // driver: reads the next used entry

  predicate Enabled(q: Queue, e: Event) {
    RingOk(q.ring) &&
    match e
    case Post(id) => id in q.atDriver
    case DeviceTake => q.deviceLast != q.ring.availIdx
    case DeviceGiveBack(id, _) => id in q.atDevice
    case Take => q.ring.usedIdx != q.ring.lastUsed
  }

  function Step(q: Queue, e: Event): Queue
    requires Enabled(q, e)
  {
    match e
    case Post(id) =>
      q.(ring := Publish(q.ring, id), atDriver := q.atDriver - {id}, published := q.published + [id])
    case DeviceTake =>
      var id := q.ring.avail[q.deviceLast % q.ring.qsize];
      q.(deviceLast := (q.deviceLast + 1) % WRAP, atDevice := q.atDevice + {id}, consumed := q.consumed + [id])
    case DeviceGiveBack(id, len) =>
      q.(ring := DeviceReturn(q.ring, Used(id, len)), atDevice := q.atDevice - {id}, returned := q.returned + [Used(id, len)])
    case Take =>
      var (r, u) := TakeUsed(q.ring);
      q.(ring := r, atDriver := q.atDriver + {u.value.id}, taken := q.taken + [u.value])
  }

  function Ids(s: seq<Used>): (r: seq<nat>)
    ensures |r| == |s|
  {
    seq(|s|, i requires 0 <= i < |s| => s[i].id)
  }

  function Buffers(n: nat): (r: set<nat>)
    ensures forall i: nat :: i in r <==> i < n
  {
    if n == 0 then {} else Buffers(n - 1) + {n - 1}
  }

  // ---- the invariant -------------------------------------------------------------------

  /** 16-bit indices are the true counts modulo 65536, and the device and the driver have read prefixes. */
  predicate Counted(q: Queue) {
    && q.ring.nextAvail == q.ring.availIdx == |q.published| % WRAP
    && q.deviceLast == |q.consumed| % WRAP
    && q.ring.usedIdx == |q.returned| % WRAP
    && q.ring.lastUsed == |q.taken| % WRAP
    && q.consumed <= q.published && q.taken <= q.returned
  }

  /** Published entries the device has not read, and returned ones the driver has not read. */
  function Pending(q: Queue): seq<nat>
    requires |q.consumed| <= |q.published|
  {
    q.published[|q.consumed|..]
  }

  function Unread(q: Queue): seq<Used>
    requires |q.taken| <= |q.returned|
  {
    q.returned[|q.taken|..]
  }

  /** Every posted buffer is in exactly one place. */
  ghost predicate Conserved(q: Queue, n: nat)
    requires |q.consumed| <= |q.published| && |q.taken| <= |q.returned|
  {
    multiset(Pending(q)) + multiset(q.atDevice) + multiset(Ids(Unread(q))) + multiset(q.atDriver) == multiset(Buffers(n))
  }

  /** The rings still hold every entry the other side has yet to read. */
  predicate Stored(q: Queue)
    requires RingOk(q.ring)
  {
    && (forall p :: |q.consumed| <= p < |q.published| ==> q.ring.avail[p % q.ring.qsize] == q.published[p])
    && (forall p :: |q.taken| <= p < |q.returned| ==> q.ring.used[p % q.ring.qsize] == q.returned[p])
  }

  ghost predicate QueueInv(q: Queue, n: nat) {
    && RingOk(q.ring) && n <= q.ring.qsize
    && Counted(q) && Conserved(q, n) && Stored(q)
  }

  // ---- arithmetic on wrapping indices -----------------------------------------------------

  /** Reducing a count modulo 65536 first does not change its ring slot when the ring size divides 65536. */
  lemma SlotOfIndex(x: nat, qsize: nat)
    requires 0 < qsize && WRAP % qsize == 0
    ensures x % WRAP % qsize == x % qsize
  {
    var a, b := x / WRAP, x % WRAP;
    var m := WRAP / qsize;
    var c, d := b / qsize, b % qsize;
    assert WRAP == qsize * m;
    assert x == WRAP * a + b;
    assert WRAP * a == qsize * (m * a);
    assert x == qsize * (m * a + c) + d;
    QuotientUnique(x, qsize, m * a + c, d);
  }

  /** And only then: otherwise the very first wrap-around jumps to the wrong slot. */
  lemma SlotOfIndexOnlyIf(qsize: nat)
    requires 0 < qsize && forall x: nat :: x % WRAP % qsize == x % qsize
    ensures WRAP % qsize == 0
  {
    assert WRAP % WRAP % qsize == WRAP % qsize;
    QuotientUnique(0, qsize, 0, 0);
  }

  /** Counts less than a ring apart occupy different slots. */
  lemma SlotsDiffer(x: nat, y: nat, n: nat)
    requires 0 < n && y < x < y + n
    ensures x % n != y % n
  {
    var a, b := x / n, y / n;
    assert x == n * a + x % n && y == n * b + y % n;
    if x % n == y % n {
      assert n * (a - b) == x - y;
      if a > b {
        MulAtLeast(n, a - b, 1);
      } else {
        MulAtLeast(n, 0, a - b);
      }
    }
  }

  lemma CountsSize(q: Queue, n: nat)
    requires |q.consumed| <= |q.published| && |q.taken| <= |q.returned| && Conserved(q, n)
    ensures |Pending(q)| + |q.atDevice| + |Unread(q)| + |q.atDriver| == n
  {
    BuffersSize(n);
    assert |multiset(Pending(q))| == |Pending(q)|;
    assert |multiset(Ids(Unread(q)))| == |Unread(q)|;
    assert |multiset(Pending(q)) + multiset(q.atDevice) + multiset(Ids(Unread(q))) + multiset(q.atDriver)|
        == |Pending(q)| + |q.atDevice| + |Unread(q)| + |q.atDriver|;
    assert |multiset(Buffers(n))| == n;
  }

  lemma {:induction false} BuffersSize(n: nat)
    ensures |Buffers(n)| == n
  {
    if n > 0 {
      BuffersSize(n - 1);
      assert n - 1 !in Buffers(n - 1);
    }
  }

  // ---- every step keeps it ------------------------------------------------------------------

  /** Posting writes a slot the device has finished with. */
  lemma PostKeeps(q: Queue, n: nat, id: nat)
    requires QueueInv(q, n) && Enabled(q, Post(id))
    ensures QueueInv(Step(q, Post(id)), n)
    ensures forall p :: |q.consumed| <= p < |q.published| ==> p % q.ring.qsize != q.ring.nextAvail % q.ring.qsize
  {
    var q' := Step(q, Post(id));
    CountsSize(q, n);
    assert |q.atDriver| >= 1;
    SlotOfIndex(|q.published|, q.ring.qsize);
    forall p | |q.consumed| <= p < |q.published|
      ensures p % q.ring.qsize != q.ring.nextAvail % q.ring.qsize
    {
      SlotsDiffer(|q.published|, p, q.ring.qsize);
    }
    assert Pending(q') == Pending(q) + [id];
    assert multiset(q.atDriver) == multiset(q'.atDriver) + multiset{id};
    NextIndex(|q.published|);
  }

  lemma NextIndex(x: nat)
    ensures (x % WRAP + 1) % WRAP == (x + 1) % WRAP
  {
  }

  lemma SameIndex(x: nat, y: nat)
    requires y <= x < y + WRAP
    ensures x % WRAP == y % WRAP <==> x == y
  {
  }

  /** The device reads exactly what was published there. */
  lemma DeviceTakeKeeps(q: Queue, n: nat)
    requires QueueInv(q, n) && Enabled(q, DeviceTake)
    ensures QueueInv(Step(q, DeviceTake), n)
  {
    var q' := Step(q, DeviceTake);
    CountsSize(q, n);
    SameIndex(|q.published|, |q.consumed|);
    SlotOfIndex(|q.consumed|, q.ring.qsize);
    var id := q.published[|q.consumed|];
    assert Pending(q) == [id] + Pending(q');
    AtMostOnce(q, n, id);
    NextIndex(|q.consumed|);
    assert multiset(q'.atDevice) == multiset(q.atDevice) + multiset{id};
    assert multiset(Pending(q)) == multiset{id} + multiset(Pending(q'));
  }

  /** A buffer that is published or returned is not also held by either side. */
  lemma AtMostOnce(q: Queue, n: nat, id: nat)
    requires |q.consumed| <= |q.published| && |q.taken| <= |q.returned| && Conserved(q, n)
    ensures id in Pending(q) ==> id !in q.atDevice && id !in q.atDriver
    ensures id in Ids(Unread(q)) ==> id !in q.atDevice && id !in q.atDriver
    ensures id in Pending(q) ==> id !in Ids(Unread(q))
  {
    var all := multiset(Buffers(n));
    assert all[id] <= 1;
    assert multiset(Pending(q))[id] + multiset(q.atDevice)[id] + multiset(Ids(Unread(q)))[id] + multiset(q.atDriver)[id] == all[id];
  }

  lemma GiveBackKeeps(q: Queue, n: nat, id: nat, len: nat)
    requires QueueInv(q, n) && Enabled(q, DeviceGiveBack(id, len))
    ensures QueueInv(Step(q, DeviceGiveBack(id, len)), n)
  {
    var q' := Step(q, DeviceGiveBack(id, len));
    CountsSize(q, n);
    assert |q.atDevice| >= 1;
    SlotOfIndex(|q.returned|, q.ring.qsize);
    forall p | |q.taken| <= p < |q.returned|
      ensures p % q.ring.qsize != q.ring.usedIdx % q.ring.qsize
    {
      SlotsDiffer(|q.returned|, p, q.ring.qsize);
    }
    assert Unread(q') == Unread(q) + [Used(id, len)];
    assert Ids(Unread(q')) == Ids(Unread(q)) + [id];
    assert multiset(q.atDevice) == multiset(q'.atDevice) + multiset{id};
    NextIndex(|q.returned|);
  }

  lemma TakeKeeps(q: Queue, n: nat)
    requires QueueInv(q, n) && Enabled(q, Take)
    ensures QueueInv(Step(q, Take), n)
  {
    var q' := Step(q, Take);
    CountsSize(q, n);
    SameIndex(|q.returned|, |q.taken|);
    SlotOfIndex(|q.taken|, q.ring.qsize);
    var u := q.returned[|q.taken|];
    assert Unread(q) == [u] + Unread(q');
    assert Ids(Unread(q)) == [u.id] + Ids(Unread(q'));
    AtMostOnce(q, n, u.id);
    NextIndex(|q.taken|);
    assert multiset(q'.atDriver) == multiset(q.atDriver) + multiset{u.id};
    assert multiset(Ids(Unread(q))) == multiset{u.id} + multiset(Ids(Unread(q')));
  }

  lemma StepKeeps(q: Queue, n: nat, e: Event)
    requires QueueInv(q, n) && Enabled(q, e)
    ensures QueueInv(Step(q, e), n)
  {
    match e
    case Post(id) => PostKeeps(q, n, id);
    case DeviceTake => DeviceTakeKeeps(q, n);
    case DeviceGiveBack(id, len) => GiveBackKeeps(q, n, id, len);
    case Take => TakeKeeps(q, n);
  }

  // ---- theorems about every run -------------------------------------------------------------

  ghost predicate IsRun(qs: seq<Queue>, es: seq<Event>) {
    && |qs| == |es| + 1
    && (forall i {:trigger es[i]} :: 0 <= i < |es| ==> Enabled(qs[i], es[i]) && qs[i + 1] == Step(qs[i], es[i]))
  }

  /** virtq_init: empty rings; the driver still holds all n receive buffers. */
  predicate Initial(q: Queue, n: nat) {
    && RingOk(q.ring) && n <= q.ring.qsize
    && q.ring.availIdx == q.ring.usedIdx == q.ring.nextAvail == q.ring.lastUsed == q.deviceLast == 0
    && q.atDevice == {} && q.atDriver == Buffers(n)
    && q.published == [] && q.consumed == [] && q.returned == [] && q.taken == []
  }

  lemma {:induction false} RunKeeps(qs: seq<Queue>, es: seq<Event>, n: nat, i: nat)
    requires IsRun(qs, es) && Initial(qs[0], n) && i < |qs|
    ensures QueueInv(qs[i], n)
  {
    if i > 0 {
      RunKeeps(qs, es, n, i - 1);
      assert qs[i] == Step(qs[i - 1], es[i - 1]);
      StepKeeps(qs[i - 1], n, es[i - 1]);
    }
  }

  /** In exactly one of the places a buffer can be. */
  predicate InOnePlace(q: Queue, id: nat)
    requires |q.consumed| <= |q.published| && |q.taken| <= |q.returned|
  {
    var p, d, u, h := id in Pending(q), id in q.atDevice, id in Ids(Unread(q)), id in q.atDriver;
    (p || d || u || h) && !(p && d) && !(p && u) && !(p && h) && !(d && u) && !(d && h) && !(u && h)
  }

  /**
    Over any number of receives, index wrap-around included: each of the n
    buffers is in exactly one place, the device reads exactly the sequence the
    driver published, and the driver takes exactly the sequence the device
    returned.
   */
  lemma ReceiveRingSafe(qs: seq<Queue>, es: seq<Event>, n: nat, i: nat)
    requires IsRun(qs, es) && Initial(qs[0], n) && i < |qs|
    ensures qs[i].consumed <= qs[i].published && qs[i].taken <= qs[i].returned
    ensures forall id :: 0 <= id < n ==> InOnePlace(qs[i], id)
  {
    RunKeeps(qs, es, n, i);
    var q := qs[i];
    forall id | 0 <= id < n
      ensures InOnePlace(q, id)
    {
      AtMostOnce(q, n, id);
      assert id in Buffers(n);
      assert multiset(Buffers(n))[id] == 1;
      assert multiset(Pending(q))[id] + multiset(q.atDevice)[id] + multiset(Ids(Unread(q)))[id] + multiset(q.atDriver)[id] == 1;
    }
  }

  /** No entry of the available ring is overwritten before the device has read it. */
  lemma NoEntryOverwritten(qs: seq<Queue>, es: seq<Event>, n: nat, i: nat, p: nat)
    requires IsRun(qs, es) && Initial(qs[0], n) && i < |es| && es[i].Post?
    requires |qs[i].consumed| <= p < |qs[i].published|
    ensures Step(qs[i], es[i]).ring.avail[p % qs[i].ring.qsize] == qs[i].published[p]
  {
    RunKeeps(qs, es, n, i);
    PostKeeps(qs[i], n, es[i].id);
  }

  // ---- queue memory ---------------------------------------------------------------------------

  function AlignUp(x: nat): nat {
    (x + 4095) / 4096 * 4096
  }

  /** virtq_init's layout: where the used ring starts, and how many pages the queue takes. */
  function UsedOffset(qsize: nat): nat {
    AlignUp(16 * qsize + (4 + 2 * qsize))
  }

  function QueuePages(qsize: nat): nat {
    (UsedOffset(qsize) + (4 + 8 * qsize) + 4095) / 4096
  }

  /** Section 2.4.2 of virtio 1.0: the two rings end with an event field the driver leaves out. */
  function LegacyUsedOffset(qsize: nat): nat {
    AlignUp(16 * qsize + 2 * (3 + qsize))
  }

  function LegacyPages(qsize: nat): nat {
    (LegacyUsedOffset(qsize) + AlignUp(2 * 3 + 8 * qsize)) / 4096
  }

  /** Descriptor table, available ring and used ring are disjoint and fit the pages allocated. */
  lemma LayoutFits(qsize: nat)
    ensures 16 * qsize + (4 + 2 * qsize) <= UsedOffset(qsize)
    ensures UsedOffset(qsize) % 4096 == 0 && UsedOffset(qsize) + (4 + 8 * qsize) <= 4096 * QueuePages(qsize)
  {
  }

  /** Leaving the event fields out moves the used ring only for sizes no power of two has. */
  lemma OffsetAgreesIff(qsize: nat)
    ensures UsedOffset(qsize) == LegacyUsedOffset(qsize) <==> 18 * qsize % 4096 != 4092
  {
    var x := 18 * qsize;
    var k, m := x / 4096, x % 4096;
    EvenResidue(qsize, k, m);
    RoundingAgrees(k, m);
    assert 16 * qsize + (4 + 2 * qsize) == 4096 * k + m + 4;
    assert 16 * qsize + 2 * (3 + qsize) == 4096 * k + m + 6;
  }

  lemma EvenResidue(qsize: nat, k: nat, m: nat)
    requires 18 * qsize == 4096 * k + m
    ensures m % 2 == 0
  {
    assert m == 2 * (9 * qsize - 2048 * k);
  }

  /** Two bytes more than an even offset round up further in one case. */
  lemma RoundingAgrees(k: nat, m: nat)
    requires m < 4096 && m % 2 == 0
    ensures AlignUp(4096 * k + m + 4) == AlignUp(4096 * k + m + 6) <==> m != 4092
  {
    var x := 4096 * k + m;
    if m <= 4090 {
      AlignUpAt(x + 4, k, m + 4);
      AlignUpAt(x + 6, k, m + 6);
    } else if m == 4092 {
      AlignUpAt(x + 4, k, m + 4);
      AlignUpAt(x + 6, k + 1, 2);
    } else {
      AlignUpAt(x + 4, k + 1, 2);
      AlignUpAt(x + 6, k + 1, 4);
    }
  }

  /** Rounding up inside page k: 0 < r means page k + 1. */
  lemma AlignUpAt(x: nat, k: nat, r: int)
    requires x == 4096 * k + r && 0 < r <= 4096
    ensures AlignUp(x) == 4096 * (k + 1)
  {
  }

  ghost predicate PowerOfTwo(n: nat) {
    n == 1 || (n > 1 && n % 2 == 0 && PowerOfTwo(n / 2))
  }

  /** For every power-of-two queue size the layout is the legacy one, page for page. */
  lemma LayoutIsLegacy(qsize: nat)
    requires PowerOfTwo(qsize)
    ensures UsedOffset(qsize) == LegacyUsedOffset(qsize) && QueuePages(qsize) == LegacyPages(qsize)
  {
    PowerOfTwoResidue(qsize);
    OffsetAgreesIff(qsize);
    PagesAgree(qsize);
  }

  /** 4092 is 18 times a power of two modulo 4096 for no power of two: 4 never divides the rest. */
  lemma PowerOfTwoResidue(qsize: nat)
    requires PowerOfTwo(qsize)
    ensures 18 * qsize % 4096 != 4092
  {
    if qsize >= 4 {
      assert PowerOfTwo(qsize / 2);
      var m := qsize / 4;
      assert qsize == 4 * m;
      assert 18 * qsize == 8 * (9 * m);
    }
  }

  /** Rounding the used ring's size up to whole pages absorbs its event field. */
  lemma PagesAgree(qsize: nat)
    ensures UsedOffset(qsize) == LegacyUsedOffset(qsize) ==> QueuePages(qsize) == LegacyPages(qsize)
  {
    var y := 8 * qsize;
    var k, m := y / 4096, y % 4096;
    assert y == 4096 * k + m && m % 8 == 0;
    AlignUpAt(y + 6, k, m + 6);
    AlignUpAt(y + 4, k, m + 4);
    var base := (16 * qsize + (4 + 2 * qsize) + 4095) / 4096;
    assert UsedOffset(qsize) == 4096 * base;
    PagesFrom(base, y + 4, k);
    if UsedOffset(qsize) == LegacyUsedOffset(qsize) {
      assert LegacyPages(qsize) == (4096 * (base + k + 1)) / 4096;
    }
  }

  lemma PagesFrom(base: nat, size: nat, k: nat)
    requires AlignUp(size) == 4096 * (k + 1)
    ensures (4096 * base + size + 4095) / 4096 == base + k + 1
  {
  }
}
