/** Draining a virtqueue (`process_queue_descriptors` in src/virtio/mmio.rs). */
module VirtqueueDrain {
  import opened Bytes
  import opened GuestMemory
  import opened VirtqueueChains
  import opened Virtqueue
  import opened VirtqueueRings

  /** What a device makes of a chain: its own state and the memory after it, and the
      number of bytes it has written. */
  datatype Service<D> = Service(dev: D, mem: seq<byte>, written: nat)

  /** A device, with states D. */
  type Device<!D> = (D, seq<byte>, Chain) -> Service<D>

  /** As long as the buffers of a chain keep off the rings, so does the device. */
  ghost predicate Polite<D(!new)>(dev: Device<D>, q: Queue, l: Layout) {
    forall d: D, mem: seq<byte>, c: Chain :: |mem| == l.size && Harmless(q, l, c.descriptors) ==>
      && |dev(d, mem, c).mem| == |mem| && ViewOf(q, l, dev(d, mem, c).mem) == ViewOf(q, l, mem)
      && dev(d, mem, c).written < 0x1_0000_0000
  }

  /** The number of available entries past the cursor, with 16-bit wrap-around. */
  function Pending(availIdx: nat, last: nat): nat
    requires last < 0x1_0000
  {
    (availIdx + 0x1_0000 - last) % 0x1_0000
  }

  /** The head that the j-th entry from the cursor on announces. */
  function HeadAt(v: View, last: nat, j: nat): nat
    requires |v.heads| > 0
  {
    v.heads[Rem((last + j) % 0x1_0000, |v.heads|)]
  }

  /** The view after the elements have been posted one by one. */
  function PostAll(v: View, log: seq<Elem>): (r: View)
    requires |v.elems| > 0
    ensures |r.elems| == |v.elems| && r.table == v.table && r.heads == v.heads && r.availIdx == v.availIdx
    ensures r.flags == v.flags
  {
    if log == [] then v else PushView(PostAll(v, log[..|log| - 1]), log[|log| - 1])
  }

  predicate Shaped(v: View) {
    |v.table| == |v.heads| == |v.elems| > 0 && v.availIdx < 0x1_0000 && v.usedIdx < 0x1_0000
  }

  /** The j-th published chain: its head and the descriptors visited from it. */
  function ChainAt(v: View, last: nat, j: nat): Chain
    requires Shaped(v)
  {
    var head := HeadAt(v, last, j);
    match Walk(v.table, head, |v.table|)
    case None => Chain(head, [])
    case Some(p) => Chain(head, Pick(v.table, p))
  }

  function Chains(v: View, last: nat, n: nat): (cs: seq<Chain>)
    requires Shaped(v)
    ensures |cs| == n
  {
    seq(n, j requires 0 <= j => ChainAt(v, last, j))
  }

  /** The device and the memory. */
  datatype Machine<D> = Machine(dev: D, mem: seq<byte>)

  /** The device serves a chain, and its completion is posted. */
  function ServeChain<D>(dev: Device<D>, q: Queue, m: Machine<D>, c: Chain): Machine<D>
    requires Sized(q)
  {
    var r := dev(m.dev, m.mem, c);
    Machine(r.dev, Push(q, r.mem, true, c.head, r.written).mem)
  }

  function ServeAll<D>(dev: Device<D>, q: Queue, m: Machine<D>, cs: seq<Chain>): Machine<D>
    requires Sized(q)
  {
    if cs == [] then m else ServeChain(dev, q, ServeAll(dev, q, m, cs[..|cs| - 1]), cs[|cs| - 1])
  }

  /** The completion of the j-th chain: its head, and the bytes that the device has
      written for it. */
  function ElemFor<D>(dev: Device<D>, q: Queue, m: Machine<D>, v: View, last: nat, j: nat): Elem
    requires Sized(q) && Shaped(v)
  {
    var c, n := ChainAt(v, last, j), ServeAll(dev, q, m, Chains(v, last, j));
    Elem(c.head, dev(n.dev, n.mem, c).written)
  }

  /** From view v0 and cursor last0 the chains in `log` have been served, in order. */
  ghost predicate Progress(v0: View, last0: nat, v: View, last: nat, log: seq<Elem>)
    requires Shaped(v0) && last0 < 0x1_0000
  {
    && |log| <= Pending(v0.availIdx, last0) && last == (last0 + |log|) % 0x1_0000 && v == PostAll(v0, log)
    && forall j :: 0 <= j < |log| ==> log[j].id == HeadAt(v0, last0, j)
  }

  /** The same as one fact. */
  ghost predicate Moving(v0: View, last0: nat, v: View, last: nat, log: seq<Elem>)
    requires Shaped(v0) && last0 < 0x1_0000
  {
    forall k {:trigger Look(k)} :: Look(k) ==> Progress(v0, last0, v, last, log)
  }

  /** The buffers of every chain that is published keep off the rings. */
  ghost predicate HarmlessChains(q: Queue, l: Layout, v: View, last: nat)
    requires Shaped(v) && last < 0x1_0000
  {
    forall j: nat :: j < Pending(v.availIdx, last) ==> Harmless(q, l, ChainAt(v, last, j).descriptors)
  }

  ghost predicate HarmlessQueue(q: Queue, l: Layout, mem: seq<byte>, last: nat)
    requires Sized(q) && last < 0x1_0000
  {
    ShapedView(q, l, mem);
    HarmlessChains(q, l, ViewOf(q, l, mem), last)
  }

  lemma ShapedView(q: Queue, l: Layout, mem: seq<byte>)
    requires Sized(q)
    ensures Shaped(ViewOf(q, l, mem))
  {
    NumBound(mem, Base(l, q.avail) + 2, 2);
    NumBound(mem, Base(l, q.used) + 2, 2);
  }

  lemma NumBound(mem: seq<byte>, at: nat, n: nat)
    ensures Num(mem, at, n) < Radix(n) && (n == 2 ==> Num(mem, at, n) < 0x1_0000)
  {
    RadixValues();
    if at + n <= |mem| {
      FromLEBound(mem[at..at + n]);
    }
  }

  lemma HeadBound(q: Queue, l: Layout, mem: seq<byte>, i: nat)
    requires i < q.size
    ensures ViewOf(q, l, mem).heads[i] < 0x1_0000
  {
    NumBound(mem, Base(l, q.avail) + 4 + 2 * i, 2);
  }

  lemma MorePending(availIdx: nat, last0: nat, n: nat)
    requires availIdx < 0x1_0000 && last0 < 0x1_0000 && n <= Pending(availIdx, last0)
    ensures (last0 + n) % 0x1_0000 == availIdx <==> n == Pending(availIdx, last0)
  {
  }

  lemma Served(v0: View, last0: nat, v: View, last: nat, log: seq<Elem>, e: Elem, v': View, last': nat)
    requires Shaped(v0) && last0 < 0x1_0000 && Moving(v0, last0, v, last, log) && |log| < Pending(v0.availIdx, last0)
    requires |v.elems| > 0 && e.id == HeadAt(v0, last0, |log|) && v' == PushView(v, e) && last' == (last + 1) % 0x1_0000
    ensures Moving(v0, last0, v', last', log + [e]) && v'.flags == v0.flags
  {
    assert Look(Key);
    Advance(last0, |log|, last);
    assert (log + [e])[..|log|] == log;
  }

  lemma Advance(u: nat, n: nat, x: nat)
    requires x == (u + n) % 0x1_0000
    ensures (x + 1) % 0x1_0000 == (u + n + 1) % 0x1_0000
  {
  }

  /** Drain the queue.  Each served chain gets one used element, with the number of
      bytes that the device reports, in the order in which the heads were published;
      the loop ends at the published index or at the first chain that leaves the
      table or is cyclic. */
  method ProcessQueueDescriptors<D(!new)>(vq: Virtqueue, dev: Device<D>, d0: D, ghost l: Layout)
    returns (raised: bool, d: D, ghost log: seq<Elem>)
    requires vq.Valid() && Laid(vq.Q(), l) && |vq.mem| == l.size && Polite(dev, vq.Q(), l)
    requires HarmlessQueue(vq.Q(), l, vq.mem, vq.lastAvail)
    modifies vq`mem, vq`lastAvail
    ensures vq.Valid() && |vq.mem| == l.size && Shaped(ViewOf(vq.Q(), l, old(vq.mem)))
    ensures !vq.ready ==> log == [] && vq.mem == old(vq.mem) && vq.lastAvail == old(vq.lastAvail) && !raised && d == d0
    ensures vq.ready ==>
      Progress(ViewOf(vq.Q(), l, old(vq.mem)), old(vq.lastAvail), ViewOf(vq.Q(), l, vq.mem), vq.lastAvail, log)
    ensures vq.ready ==> Drained(dev, vq.Q(), Machine(d0, old(vq.mem)), ViewOf(vq.Q(), l, old(vq.mem)),
      old(vq.lastAvail), Machine(d, vq.mem), log)
    ensures vq.ready ==> Stopped(ViewOf(vq.Q(), l, old(vq.mem)), old(vq.lastAvail), |log|)
    ensures vq.ready ==> (raised <==> log != [] && ViewOf(vq.Q(), l, old(vq.mem)).flags % 2 == 0)
  {
    raised, d, log := false, d0, [];
    ShapedView(vq.Q(), l, vq.mem);
    if !vq.ready {
      return;
    }
    ghost var v0, last0, m0 := ViewOf(vq.Q(), l, vq.mem), vq.lastAvail, Machine(d0, vq.mem);
    var more := true;
    while more
      invariant vq.Valid() && |vq.mem| == l.size
      invariant Moving(v0, last0, ViewOf(vq.Q(), l, vq.mem), vq.lastAvail, log)
      invariant Drained(dev, vq.Q(), m0, v0, last0, Machine(d, vq.mem), log)
      invariant !more ==> Stopped(v0, last0, |log|)
      invariant raised <==> log != [] && v0.flags % 2 == 0
      decreases more, Pending(v0.availIdx, last0) - |log|
    {
      ghost var e;
      ghost var m := Machine(d, vq.mem);
      more, e, raised, d := ServeOne(vq, dev, d, l, raised, v0, last0, log);
      if more {
        DrainedNext(dev, vq.Q(), m0, v0, last0, m, log, e, Machine(d, vq.mem));
        log := log + [e];
      }
    }
    assert Look(Key);
  }

  /** The machine m, and the elements posted, come from serving the published chains. */
  ghost predicate Drained<D>(dev: Device<D>, q: Queue, m0: Machine<D>, v0: View, last0: nat, m: Machine<D>,
                             log: seq<Elem>)
    requires Sized(q) && Shaped(v0)
  {
    && m == ServeAll(dev, q, m0, Chains(v0, last0, |log|))
    && forall j :: 0 <= j < |log| ==> log[j] == ElemFor(dev, q, m0, v0, last0, j)
  }

  lemma DrainedNext<D>(dev: Device<D>, q: Queue, m0: Machine<D>, v0: View, last0: nat, m: Machine<D>, log: seq<Elem>,
                       e: Elem, m': Machine<D>)
    requires Sized(q) && Shaped(v0) && Drained(dev, q, m0, v0, last0, m, log)
    requires var c := ChainAt(v0, last0, |log|);
      m' == ServeChain(dev, q, m, c) && e == Elem(c.head, dev(m.dev, m.mem, c).written)
    ensures Drained(dev, q, m0, v0, last0, m', log + [e])
  {
    assert Chains(v0, last0, |log| + 1)[..|log|] == Chains(v0, last0, |log|);
  }

  /** Where the loop stops after n chains. */
  ghost predicate Stopped(v0: View, last0: nat, n: nat)
    requires Shaped(v0) && last0 < 0x1_0000
  {
    n == Pending(v0.availIdx, last0) || Leaves(v0.table, HeadAt(v0, last0, n)) || Cyclic(v0.table, HeadAt(v0, last0, n))
  }

  /** What a pop means in the course of the loop: the next published chain, or a
      reason to stop. */
  lemma PopMeans(q: Queue, l: Layout, mem: seq<byte>, v0: View, last0: nat, last: nat, log: seq<Elem>)
    requires Laid(q, l) && |mem| == l.size && Shaped(v0) && last0 < 0x1_0000 && |v0.heads| == q.size
    requires Moving(v0, last0, ViewOf(q, l, mem), last, log)
    ensures Pop(q, mem, true, last) == None ==> Stopped(v0, last0, |log|)
    ensures Pop(q, mem, true, last).Some? ==> Pop(q, mem, true, last) == Some(ChainAt(v0, last0, |log|))
    ensures Pop(q, mem, true, last).Some? ==> |log| < Pending(v0.availIdx, last0) && HeadAt(v0, last0, |log|) < 0x1_0000
  {
    PopIs(q, l, mem, last);
    HeadBound(q, l, mem, Rem(last, q.size));
    assert Look(Key);
    PopViewMeans(v0, last0, ViewOf(q, l, mem), last, log);
  }

  lemma PopViewMeans(v0: View, last0: nat, v: View, last: nat, log: seq<Elem>)
    requires Shaped(v0) && last0 < 0x1_0000 && Progress(v0, last0, v, last, log)
    ensures PopView(v, last) == None ==> Stopped(v0, last0, |log|)
    ensures PopView(v, last).Some? ==>
      PopView(v, last) == Some(ChainAt(v0, last0, |log|)) && |log| < Pending(v0.availIdx, last0)
  {
    MorePending(v0.availIdx, last0, |log|);
    if v.availIdx != last {
      AcceptsGoodChains(v0.table, HeadAt(v0, last0, |log|));
    }
  }

  /** One turn of the loop. */
  method ServeOne<D(!new)>(vq: Virtqueue, dev: Device<D>, d: D, ghost l: Layout, wasRaised: bool, ghost v0: View,
                    ghost last0: nat, ghost log: seq<Elem>)
    returns (more: bool, ghost e: Elem, raised: bool, d': D)
    requires vq.Valid() && vq.ready && Laid(vq.Q(), l) && |vq.mem| == l.size && Polite(dev, vq.Q(), l)
    requires Shaped(v0) && last0 < 0x1_0000 && |v0.heads| == vq.size
    requires Moving(v0, last0, ViewOf(vq.Q(), l, vq.mem), vq.lastAvail, log)
    requires HarmlessChains(vq.Q(), l, v0, last0)
    modifies vq`mem, vq`lastAvail
    ensures vq.Valid() && |vq.mem| == l.size
    ensures more ==>
      Moving(v0, last0, ViewOf(vq.Q(), l, vq.mem), vq.lastAvail, log + [e]) && |log| < Pending(v0.availIdx, last0)
    ensures more ==> (raised <==> wasRaised || v0.flags % 2 == 0)
    ensures more ==> var c, m := ChainAt(v0, last0, |log|), Machine(d, old(vq.mem));
      Machine(d', vq.mem) == ServeChain(dev, vq.Q(), m, c) && e == Elem(c.head, dev(d, old(vq.mem), c).written)
    ensures !more ==> Stopped(v0, last0, |log|) && vq.mem == old(vq.mem) && vq.lastAvail == old(vq.lastAvail)
    ensures !more ==> raised == wasRaised && d' == d
  {
    ghost var last := vq.lastAvail;
    PopMeans(vq.Q(), l, vq.mem, v0, last0, last, log);
    var chain := vq.PopAvail();
    raised, e, d' := wasRaised, Elem(0, 0), d;
    if chain == None {
      return false, e, raised, d';
    }
    var notify;
    e, notify, d' := FinishOne(vq, dev, d, l, chain.value, v0, last0, last, log);
    raised := raised || notify;
    more := true;
  }

  /** Serve the chain that was popped at cursor `last`. */
  method FinishOne<D(!new)>(vq: Virtqueue, dev: Device<D>, d: D, ghost l: Layout, c: Chain,
                            ghost v0: View, ghost last0: nat, ghost last: nat, ghost log: seq<Elem>)
    returns (ghost e: Elem, notify: bool, d': D)
    requires vq.Valid() && vq.ready && Laid(vq.Q(), l) && |vq.mem| == l.size && Polite(dev, vq.Q(), l)
    requires Shaped(v0) && last0 < 0x1_0000 && Moving(v0, last0, ViewOf(vq.Q(), l, vq.mem), last, log)
    requires |log| < Pending(v0.availIdx, last0) && c.head == HeadAt(v0, last0, |log|) < 0x1_0000
    requires Harmless(vq.Q(), l, c.descriptors) && vq.lastAvail == (last + 1) % 0x1_0000
    modifies vq`mem
    ensures vq.Valid() && |vq.mem| == l.size && Moving(v0, last0, ViewOf(vq.Q(), l, vq.mem), vq.lastAvail, log + [e])
    ensures Machine(d', vq.mem) == ServeChain(dev, vq.Q(), Machine(d, old(vq.mem)), c)
    ensures e == Elem(c.head, dev(d, old(vq.mem), c).written)
    ensures notify <==> v0.flags % 2 == 0
  {
    ghost var v := ViewOf(vq.Q(), l, vq.mem);
    e, d' := Complete(vq, dev, d, l, c);
    Served(v0, last0, v, last, log, e, ViewOf(vq.Q(), l, vq.mem), vq.lastAvail);
    notify := WantsInterrupt(vq, l);
  }

  /** Whether the driver wants an interrupt: bit 0 of the flags in the available ring
      suppresses it. */
  method WantsInterrupt(vq: Virtqueue, ghost l: Layout) returns (b: bool)
    requires vq.Valid() && vq.ready && Laid(vq.Q(), l) && |vq.mem| == l.size
    ensures b <==> ViewOf(vq.Q(), l, vq.mem).flags % 2 == 0
  {
    b := vq.NeedsNotification();
    FlagsRead(vq.Q(), l, vq.mem);
  }

  /** Whether a chain has been published that the cursor has not passed. */
  method HasPending(vq: Virtqueue, ghost l: Layout) returns (b: bool)
    requires vq.Valid() && vq.ready && Laid(vq.Q(), l) && |vq.mem| == l.size
    ensures b <==> Pending(ViewOf(vq.Q(), l, vq.mem).availIdx, vq.lastAvail) > 0
    ensures !b ==> Pop(vq.Q(), vq.mem, true, vq.lastAvail) == None
  {
    b := vq.HasAvailable();
    AvailField(vq.Q(), l, vq.mem, 2, 2, vq.avail + 2);
    ShapedView(vq.Q(), l, vq.mem);
    MorePending(ViewOf(vq.Q(), l, vq.mem).availIdx, vq.lastAvail, 0);
    PopIs(vq.Q(), l, vq.mem, vq.lastAvail);
  }

  lemma FlagsRead(q: Queue, l: Layout, mem: seq<byte>)
    requires Laid(q, l) && |mem| == l.size
    ensures q.io.read(mem, q.avail, 2) == Some(ViewOf(q, l, mem).flags)
  {
    AvailField(q, l, mem, 0, 2, q.avail);
  }

  /** Let the device serve a chain that was popped, and post its completion. */
  method Complete<D(!new)>(vq: Virtqueue, dev: Device<D>, d: D, ghost l: Layout, c: Chain) returns (ghost e: Elem,
                    d': D)
    requires vq.Valid() && vq.ready && Laid(vq.Q(), l) && |vq.mem| == l.size && Polite(dev, vq.Q(), l)
    requires c.head < 0x1_0000 && Harmless(vq.Q(), l, c.descriptors)
    modifies vq`mem
    ensures vq.Valid() && |vq.mem| == l.size && e == Elem(c.head, dev(d, old(vq.mem), c).written)
    ensures ViewOf(vq.Q(), l, vq.mem) == PushView(ViewOf(vq.Q(), l, old(vq.mem)), e)
    ensures Machine(d', vq.mem) == ServeChain(dev, vq.Q(), Machine(d, old(vq.mem)), c)
  {
    var s := dev(d, vq.mem, c);
    vq.mem := s.mem;
    e, d' := Elem(c.head, s.written), s.dev;
    PushRings(vq.Q(), l, vq.mem, c.head, s.written);
    var ok := vq.PushUsed(c.head, s.written);
  }

  // ----- where the used elements end up

  lemma RemOfRem(x: nat, m: nat, c: nat, k: nat)
    requires c > 0 && m == c * k && m > 0
    ensures Rem(Rem(x, m), c) == Rem(x, c)
  {
    var r := Rem(x, m);
    DivMod(x, m);
    DivMod(r, c);
    var q := k * Quot(x, m) + Quot(r, c);
    Distribute(c, k, Quot(x, m), Quot(r, c));
    QuotRem(x, c, q, Rem(r, c));
  }

  lemma Distribute(c: nat, k: nat, a: nat, b: nat)
    ensures c * (k * a + b) == c * k * a + c * b
  {
  }

  lemma RemsDiffer(x: nat, y: nat, c: nat)
    requires c > 0 && x < y < x + c
    ensures Rem(x, c) != Rem(y, c)
  {
    DivMod(x, c);
    DivMod(y, c);
    if Rem(x, c) == Rem(y, c) && Quot(x, c) < Quot(y, c) {
      MulLess(c, Quot(x, c), Quot(y, c));
    } else if Rem(x, c) == Rem(y, c) && Quot(y, c) < Quot(x, c) {
      MulLess(c, Quot(y, c), Quot(x, c));
    }
  }

  /** The slot of the j-th element from index u on. */
  function SlotOf(u: nat, j: nat, size: nat): (s: nat)
    requires size > 0
    ensures s < size
  {
    Rem((u + j) % 0x1_0000, size)
  }

  lemma SlotsDiffer(u: nat, i: nat, j: nat, size: nat)
    requires size > 0 && 0x1_0000 % size == 0 && i < j < i + size
    ensures SlotOf(u, i, size) != SlotOf(u, j, size)
  {
    DivMod(0x1_0000, size);
    RemOfRem(u + i, 0x1_0000, size, Quot(0x1_0000, size));
    RemOfRem(u + j, 0x1_0000, size, Quot(0x1_0000, size));
    RemsDiffer(u + i, u + j, size);
  }

  lemma {:induction false} PostAllIndex(v: View, log: seq<Elem>)
    requires |v.elems| > 0 && v.usedIdx < 0x1_0000
    ensures PostAll(v, log).usedIdx == (v.usedIdx + |log|) % 0x1_0000
  {
    if log != [] {
      var n := |log| - 1;
      PostAllIndex(v, log[..n]);
      Advance(v.usedIdx, n, PostAll(v, log[..n]).usedIdx);
    }
  }

  /** When the ring size divides 65536 and no more elements are posted than there are
      slots, each posted element is in the slot of its index and every other slot
      is as before. */
  lemma {:induction false} PostAllSlots(v: View, log: seq<Elem>, s: nat)
    requires Shaped(v) && 0x1_0000 % |v.elems| == 0 && |log| <= |v.elems| && s < |v.elems|
    ensures forall j: nat :: j < |log| && SlotOf(v.usedIdx, j, |v.elems|) == s ==> PostAll(v, log).elems[s] == log[j]
    ensures (forall j: nat :: j < |log| ==> SlotOf(v.usedIdx, j, |v.elems|) != s) ==>
      PostAll(v, log).elems[s] == v.elems[s]
  {
    if log != [] {
      var n := |log| - 1;
      PostAllSlots(v, log[..n], s);
      PostAllIndex(v, log[..n]);
      assert PostAll(v, log).elems == PostAll(v, log[..n]).elems[SlotOf(v.usedIdx, n, |v.elems|) := log[n]];
      forall j: nat | j < n ensures SlotOf(v.usedIdx, j, |v.elems|) != SlotOf(v.usedIdx, n, |v.elems|) {
        SlotsDiffer(v.usedIdx, j, n, |v.elems|);
      }
    }
  }

  /** After draining with at most `size` entries outstanding, the used index has
      advanced by the number of chains served, and the j-th element from the old
      index on names the j-th published head. */
  lemma UsedRingHolds(v0: View, last0: nat, v: View, last: nat, log: seq<Elem>, j: nat)
    requires Shaped(v0) && last0 < 0x1_0000 && Progress(v0, last0, v, last, log)
    requires 0x1_0000 % |v0.elems| == 0 && Pending(v0.availIdx, last0) <= |v0.elems| && j < |log|
    ensures v.usedIdx == (v0.usedIdx + |log|) % 0x1_0000
    ensures v.elems[SlotOf(v0.usedIdx, j, |v0.elems|)] == log[j] && log[j].id == HeadAt(v0, last0, j)
  {
    PostAllIndex(v0, log);
    PostAllSlots(v0, log, SlotOf(v0.usedIdx, j, |v0.elems|));
  }
}
