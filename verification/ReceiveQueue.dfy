/** The driver's half of the receive queue (hal/x86_64/virtio_net.c), on the shared rings themselves. */
module ReceiveQueue {
  import opened Options
  import opened Words
  import opened Virtqueue

  const NET_HDR_LEN: nat := 10
  const FRAME_BUF_SIZE: nat := 2048
  const DESC_F_WRITE: nat := 2

  datatype Descriptor = Descriptor(addr: nat, len: nat, flags: nat, next: nat)

  /** What one turn of hal_net_poll_receive's loop ends with. */
  datatype Look =
    | Idle              // nothing returned yet: spin again
    | Malformed         // shorter than the header: re-armed, spin again
    | TooLong           // does not fit the caller's buffer: re-armed, -1
    | Frame(len: nat)   // copied out and re-armed

  function Judge(u: Used, maxLen: nat): Look {
    if u.len < NET_HDR_LEN then Malformed
    else if u.len - NET_HDR_LEN > maxLen then TooLong
    else Frame(u.len - NET_HDR_LEN)
  }

  /** The ring after one look: whatever was taken is posted again at once. */
  function AfterLook(r: Ring): (r': Ring)
    requires RingOk(r)
    ensures RingOk(r')
  {
    var (r1, u) := TakeUsed(r);
    if u.None? then r1 else Publish(r1, u.value.id)
  }

  /** Buffers 0, 1, ..., k - 1 posted one after the other. */
  function PublishFirst(r: Ring, k: nat): (r': Ring)
    requires RingOk(r)
    ensures RingOk(r')
  {
    if k == 0 then r else Publish(PublishFirst(r, k - 1), k - 1)
  }

  /** After initialisation every buffer is published exactly once, in order, and nothing else is. */
  lemma {:induction false} PublishFirstInOrder(r: Ring, k: nat)
    requires RingOk(r) && r.nextAvail == r.availIdx == 0 && k <= r.qsize
    ensures var r' := PublishFirst(r, k);
            && r' == r.(avail := r'.avail, nextAvail := k, availIdx := k)
            && (forall j :: 0 <= j < k ==> r'.avail[j] == j)
  {
    if k > 0 {
      PublishFirstInOrder(r, k - 1);
      assert k < WRAP;
      QuotientUnique(k - 1, r.qsize, 0, k - 1);
      QuotientUnique(k, WRAP, 0, k);
    }
  }

  class RxQueue {
    const qsize: nat
    const avail: array<nat>
    var availIdx: nat
    const used: array<Used>
    var usedIdx: nat
    const desc: array<Descriptor>
    const addrs: seq<nat>
    const buffers: seq<array<byte>>
    var nextAvail: nat
    var lastUsed: nat

    ghost predicate Valid()
      reads this
    {
      && 0 < qsize <= 0x8000 && WRAP % qsize == 0
      && avail.Length == qsize && used.Length == qsize && desc.Length == qsize
      && |addrs| == |buffers| <= qsize
    }

    ghost function State(): (r: Ring)
      requires Valid()
      reads this, avail, used
      ensures RingOk(r)
    {
      Ring(qsize, avail[..], availIdx, used[..], usedIdx, nextAvail, lastUsed)
    }

    /** virtq_init on freshly zeroed queue memory. */
    constructor (n: nat, addrs: seq<nat>, buffers: seq<array<byte>>)
      requires 0 < n <= 0x8000 && WRAP % n == 0 && |addrs| == |buffers| <= n
      ensures Valid() && fresh(avail) && fresh(used) && fresh(desc)
      ensures State() == Ring(n, seq(n, i => 0), 0, seq(n, i => Used(0, 0)), 0, 0, 0)
      ensures this.addrs == addrs && this.buffers == buffers
    {
      qsize := n;
      avail := new nat[n](i => 0);
      used := new Used[n](i => Used(0, 0));
      desc := new Descriptor[n](i => Descriptor(0, 0, 0, 0));
      availIdx, usedIdx, nextAvail, lastUsed := 0, 0, 0, 0;
      this.addrs, this.buffers := addrs, buffers;
      new;
      assert avail[..] == seq(n, i => 0);
      assert used[..] == seq(n, i => Used(0, 0));
    }

    /** virtq_publish. */
    method PublishEntry(id: nat)
      requires Valid()
      modifies this`nextAvail, this`availIdx, avail
      ensures Valid() && State() == Publish(old(State()), id)
    {
      avail[nextAvail % qsize] := id;
      nextAvail := (nextAvail + 1) % WRAP;
      availIdx := nextAvail;
    }

    /** rx_post: the whole buffer, writable by the device. */
    method RxPost(id: nat)
      requires Valid() && id < |buffers|
      modifies this`nextAvail, this`availIdx, avail, desc
      ensures Valid() && State() == Publish(old(State()), id)
      ensures desc[..] == old(desc[..])[id := Descriptor(addrs[id], FRAME_BUF_SIZE, DESC_F_WRITE, 0)]
    {
      desc[id] := Descriptor(addrs[id], FRAME_BUF_SIZE, DESC_F_WRITE, 0);
      PublishEntry(id);
    }

    /** hal_net_init's posting loop. */
    method PostAll()
      requires Valid()
      modifies this`nextAvail, this`availIdx, avail, desc
      ensures Valid() && State() == PublishFirst(old(State()), |buffers|)
    {
      var i := 0;
      while i < |buffers|
        invariant 0 <= i <= |buffers|
        invariant State() == PublishFirst(old(State()), i)
      {
        RxPost(i);
        i := i + 1;
      }
    }

    /**
      One turn of the polling loop. The device returned a buffer it was given,
      with a length that fits it; the bytes after the header reach `buf`, and
      only those.
     */
    method PollOnce(buf: array<byte>, maxLen: nat) returns (look: Look)
      requires Valid() && maxLen <= buf.Length && buf !in buffers
      requires usedIdx != lastUsed ==>
                 var u := used[lastUsed % qsize]; u.id < |buffers| && u.len <= buffers[u.id].Length
      modifies this`nextAvail, this`availIdx, this`lastUsed, avail, desc, buf
      ensures Valid() && State() == AfterLook(old(State()))
      ensures look == if usedIdx == old(lastUsed) then Idle else Judge(used[old(lastUsed) % qsize], maxLen)
      ensures look.Frame? ==>
                var u := used[old(lastUsed) % qsize];
                && buf[..look.len] == old(buffers[u.id][NET_HDR_LEN..u.len])
                && buf[look.len..] == old(buf[..])[look.len..]
      ensures !look.Frame? ==> buf[..] == old(buf[..])
    {
      if usedIdx == lastUsed {
        return Idle;
      }
      var u := used[lastUsed % qsize];
      lastUsed := (lastUsed + 1) % WRAP;
      look := Judge(u, maxLen);
      if look.Frame? {
        CopyFrame(buf, u.id, look.len);
      }
      RxPost(u.id);
    }

    method CopyFrame(buf: array<byte>, id: nat, len: nat)
      requires Valid() && len <= buf.Length && buf !in buffers
      requires id < |buffers| && NET_HDR_LEN + len <= buffers[id].Length
      modifies buf
      ensures buf[..len] == old(buffers[id][NET_HDR_LEN..NET_HDR_LEN + len])
      ensures buf[len..] == old(buf[..])[len..]
    {
      var src := buffers[id];
      var i := 0;
      while i < len
        invariant 0 <= i <= len
        invariant buf[..i] == old(src[NET_HDR_LEN..NET_HDR_LEN + i])
        invariant buf[len..] == old(buf[..])[len..]
      {
        buf[i] := src[NET_HDR_LEN + i];
        i := i + 1;
      }
    }
  }

  /**
    In the protocol a look is Take followed at once by Post of the same buffer:
    it keeps the queue's invariant, leaves the driver holding what it held, and
    hands over the oldest return it had not yet seen.
   */
  lemma LookIsTakeThenPost(q: Queue, n: nat)
    requires QueueInv(q, n) && q.ring.usedIdx != q.ring.lastUsed
    ensures |q.taken| < |q.returned|
    ensures TakeUsed(q.ring).1 == Some(q.returned[|q.taken|])
    ensures var id := q.returned[|q.taken|].id;
            && id < n
            && Enabled(q, Take) && Enabled(Step(q, Take), Post(id))
            && var q' := Step(Step(q, Take), Post(id));
            && q'.ring == AfterLook(q.ring) && q'.atDriver == q.atDriver
            && QueueInv(q', n)
  {
    CountsSize(q, n);
    SlotOfIndex(|q.taken|, q.ring.qsize);
    var u := q.returned[|q.taken|];
    TakeKeeps(q, n);
    var q1 := Step(q, Take);
    assert Unread(q)[0] == u && Ids(Unread(q))[0] == u.id;
    AtMostOnce(q, n, u.id);
    PostKeeps(q1, n, u.id);
    assert u.id in multiset(Buffers(n)) by {
      assert u.id in multiset(Ids(Unread(q)));
    }
  }
}
