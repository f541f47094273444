/** Receiving frames: the network device's loop, the transport's loop, and the
    equality of the two over whole runs. */
module NetRxRuns {
  import opened Bytes
  import opened GuestMemory
  import opened VirtqueueChains
  import opened Virtqueue
  import opened VirtqueueRings
  import opened VirtqueueDrain
  import opened NetRx
  import NetRxArrival

  /** A writable buffer lies in memory and off the rings. */
  ghost predicate GoodBuffer(q: Queue, l: Layout, d: Descriptor) {
    Writable(d.flags) ==> Fits(l, d.addr, d.len) && OffRings(q, l, Offset(l, d.addr).value, d.len)
  }

  ghost predicate GoodBuffers(q: Queue, l: Layout, ds: seq<Descriptor>) {
    forall k :: 0 <= k < |ds| ==> GoodBuffer(q, l, ds[k])
  }

  /** The chain from a head is acyclic and its buffers are good. */
  ghost predicate GoodChain(q: Queue, l: Layout, t: Table, head: nat) {
    Walk(t, head, |t|).Some? && GoodBuffers(q, l, Pick(t, Walk(t, head, |t|).value))
  }

  /** The next chain, if there is one, is good. */
  ghost predicate GoodNext(q: Queue, l: Layout, mem: seq<byte>)
    requires Sized(q)
  {
    var v := ViewOf(q, l, mem);
    v.availIdx != v.usedIdx ==> GoodChain(q, l, v.table, v.heads[Rem(v.usedIdx, q.size)])
  }

  // ----- the network device

  function Start(mem: seq<byte>, frame: seq<byte>): Pieces { Pieces(mem, Header(), frame, 0) }

  /** What receiving one frame makes of memory. */
  function Received(q: Queue, l: Layout, mem: seq<byte>, frame: seq<byte>): seq<byte>
    requires Sized(q)
  {
    match RxPop(q, l, mem)
    case None => mem
    case Some((head, last)) =>
      var t := ViewOf(q, l, mem).table;
      match Walk(t, head, |t|)
      case None => mem
      case Some(p) => Delivered(q, l, FillNet(l, Start(mem, frame), Pick(t, p)), head, last)
  }

  /** Completion of a chain whose buffers have been filled. */
  function Delivered(q: Queue, l: Layout, r: Pieces, head: nat, last: nat): seq<byte>
    requires Sized(q)
  {
    RxPush(q, l, r.mem, head, last, r.written)
  }

  lemma CopyOnly(mem: seq<byte>, at: nat, d: seq<byte>, n: nat)
    requires |d| <= n
    ensures OnlyBytes(mem, CopyTo(mem, at, d), at, n)
  {
  }

  /** Filling a good buffer leaves the rings alone. */
  lemma BufferKeeps(q: Queue, l: Layout, p: Pieces, d: Descriptor)
    requires Proper(l) && |p.mem| == l.size && Writable(d.flags) && GoodBuffer(q, l, d)
    ensures ViewOf(q, l, FillBuffer(l, p, d).mem) == ViewOf(q, l, p.mem) && |FillBuffer(l, p, d).mem| == |p.mem|
  {
    BufferAgrees(l, p, d);
    var at, rest := Offset(l, d.addr).value, p.hdr + p.frame;
    CopyOnly(p.mem, at, rest[..Min(d.len, |rest|)], d.len);
    BufferWrite(q, l, p.mem, FillBuffer(l, p, d).mem, at, d.len);
  }

  /** The descriptors of the chain from idx on. */
  function ChainFrom(t: Table, idx: nat, budget: nat): seq<Descriptor> {
    match Walk(t, idx, budget)
    case None => []
    case Some(p) => Pick(t, p)
  }

  /** ds is what is left of a chain at idx. */
  ghost predicate Left(t: Table, idx: nat, budget: nat, ds: seq<Descriptor>) {
    forall k {:trigger Use(k)} :: Use(k) ==> Walk(t, idx, budget).Some? && ds == ChainFrom(t, idx, budget)
  }

  lemma ChainStep(t: Table, idx: nat, budget: nat, ds: seq<Descriptor>)
    requires Left(t, idx, budget, ds)
    ensures idx < |t| && budget > 0 && ds != [] && ds[0] == t[idx]
    ensures HasNext(t[idx].flags) ==> Left(t, t[idx].next, budget - 1, ds[1..])
    ensures !HasNext(t[idx].flags) ==> ds[1..] == []
  {
    assert Use(Key);
  }

  class NetDevice {
    const q: Queue
    const l: Layout
    var mem: seq<byte>

    /** Read the descriptor at idx and fill its buffer. */
    method FillNext(idx: nat, p: Pieces, ghost t: Table) returns (d: Descriptor, p': Pieces)
      requires Laid(q, l) && Proper(l) && |mem| == l.size && p.mem == mem && ViewOf(q, l, mem).table == t
      requires idx < |t| && GoodBuffer(q, l, t[idx])
      modifies this
      ensures |mem| == l.size && p'.mem == mem && ViewOf(q, l, mem).table == t
      ensures d == t[idx] && p' == if Writable(d.flags) then FillBuffer(l, p, d) else p
    {
      RxDescIs(q, l, mem, idx);
      d, p' := RxDesc(q, l, mem, idx), p;
      if Writable(d.flags) {
        BufferKeeps(q, l, p, d);
        p' := FillBuffer(l, p, d);
        mem := p'.mem;
      }
    }

    /** One step along a chain of which ds is left. */
    method FillStep(idx: nat, p: Pieces, ghost t: Table, ghost left: nat, ghost ds: seq<Descriptor>)
      returns (d: Descriptor, p': Pieces)
      requires Laid(q, l) && Proper(l) && |mem| == l.size && p.mem == mem && ViewOf(q, l, mem).table == t
      requires Left(t, idx, left, ds) && GoodBuffers(q, l, ds)
      modifies this
      ensures |mem| == l.size && p'.mem == mem && ViewOf(q, l, mem).table == t
      ensures ds != [] && left > 0 && FillNet(l, p', ds[1..]) == FillNet(l, p, ds) && GoodBuffers(q, l, ds[1..])
      ensures if HasNext(d.flags) then Left(t, d.next, left - 1, ds[1..]) else ds[1..] == []
    {
      ChainStep(t, idx, left, ds);
      assert GoodBuffer(q, l, ds[0]);
      d, p' := FillNext(idx, p, t);
    }

    /** Walk the chain from `head` and fill its writable buffers.  The walk has no bound
        of its own: it ends because the chain does. */
    method FillChain(head: nat, frame: seq<byte>) returns (written: nat)
      requires Laid(q, l) && Proper(l) && |mem| == l.size && GoodChain(q, l, ViewOf(q, l, mem).table, head)
      modifies this
      ensures |mem| == l.size
      ensures var r := FillNet(l, Start(old(mem), frame), ChainFrom(ViewOf(q, l, old(mem)).table, head, q.size));
        mem == r.mem && written == r.written
    {
      ghost var t := ViewOf(q, l, mem).table;
      ghost var left: nat, ds := q.size, ChainFrom(t, head, q.size);
      ghost var goal := FillNet(l, Start(mem, frame), ds);
      var p := Start(mem, frame);
      var idx: nat, more := head, true;
      while more
        invariant |mem| == l.size && p.mem == mem && ViewOf(q, l, mem).table == t
        invariant GoodBuffers(q, l, ds) && goal == FillNet(l, p, ds)
        invariant if more then Left(t, idx, left, ds) else ds == []
        decreases more, left
      {
        var d;
        d, p := FillStep(idx, p, t, left, ds);
        ds := ds[1..];
        if HasNext(d.flags) {
          idx := d.next;
          left := left - 1;
        } else {
          more := false;
        }
      }
      written := p.written;
    }

    /** `process_rx_from_tap` with a frame at hand. */
    method ProcessRx(frame: seq<byte>) returns (delivered: bool)
      requires Laid(q, l) && Proper(l) && |mem| == l.size && q.avail != 0 && GoodNext(q, l, mem)
      modifies this
      ensures mem == Received(q, l, old(mem), frame)
      ensures delivered <==>
        RxPop(q, l, old(mem)).Some? &&
        FillNet(l, Start(old(mem), frame),
          ChainFrom(ViewOf(q, l, old(mem)).table, RxPop(q, l, old(mem)).value.0, q.size)).written > 0
      ensures |frame| < 0x1_0000 ==> ArrivesNext(q, l, old(mem), mem, frame)
      ensures var v := ViewOf(q, l, old(mem)); NetRxArrival.Apart(l, NextBuffers(v)) ==>
        (delivered <==> v.availIdx != v.usedIdx && NetRxArrival.Room(NextBuffers(v)) > 0)
    {
      if |frame| < 0x1_0000 {
        ReceivedArrives(q, l, mem, frame);
      }
      if NetRxArrival.Apart(l, NextBuffers(ViewOf(q, l, mem))) {
        DeliveredIs(q, l, mem, frame);
      }
      var next := RxPop(q, l, mem);
      if next == None {
        return false;
      }
      RxPopIs(q, l, mem);
      var written := FillChain(next.value.0, frame);
      mem := RxPush(q, l, mem, next.value.0, next.value.1, written);
      return written > 0;
    }
  }

  // ----- the transport

  datatype Injection = Injection(mem: seq<byte>, last: nat)

  /** What injecting one frame makes of memory and cursor. */
  function Injected(q: Queue, l: Layout, s: Injection, frame: seq<byte>): Injection
    requires Sized(q)
  {
    match Pop(q, s.mem, true, s.last)
    case None => s
    case Some(c) => Finished(q, FillTransport(l, Fill(s.mem, Header() + frame, 0), c.descriptors), c.head, s.last)
  }

  function Finished(q: Queue, f: Fill, head: nat, last: nat): Injection
    requires Sized(q)
  {
    Injection(Push(q, f.mem, true, head, f.written).mem, (last + 1) % 0x1_0000)
  }

  /** `inject_rx_frame` */
  method InjectRxFrame(vq: Virtqueue, l: Layout, frame: seq<byte>) returns (delivered: bool, raised: bool)
    requires vq.Valid()
    modifies vq`mem, vq`lastAvail
    ensures vq.Valid() && (delivered <==> Pop(vq.Q(), old(vq.mem), vq.ready, old(vq.lastAvail)).Some?)
    ensures !delivered ==> vq.mem == old(vq.mem) && vq.lastAvail == old(vq.lastAvail)
    ensures vq.ready ==>
      Injection(vq.mem, vq.lastAvail) == Injected(vq.Q(), l, Injection(old(vq.mem), old(vq.lastAvail)), frame)
    ensures raised <==> delivered && Notifies(vq.Q(), vq.mem)
    ensures vq.ready ==> ArrivesPopped(vq.Q(), l, old(vq.mem), old(vq.lastAvail), vq.mem, frame)
  {
    PoppedArrives(vq.Q(), l, vq.mem, vq.lastAvail, frame);
    var available := vq.HasAvailable();
    if !available {
      return false, false;
    }
    var chain := vq.PopAvail();
    if chain == None {
      return false, false;
    }
    var f := FillDescriptors(l, vq.mem, chain.value.descriptors, Header() + frame);
    vq.mem := f.mem;
    var ok := vq.PushUsed(chain.value.head, f.written);
    raised := vq.NeedsNotification();
    delivered := true;
  }

  /** The device that copies data into the writable buffers of every chain. */
  function Filler(l: Layout, data: seq<byte>): Device<()> {
    (d: (), mem: seq<byte>, c: Chain) =>
      var f := FillTransport(l, Fill(mem, data, 0), c.descriptors);
      Service(d, f.mem, f.written)
  }

  lemma OneBuffer(q: Queue, l: Layout, mem: seq<byte>, d: Descriptor, data: seq<byte>)
    requires |mem| == l.size && |data| <= d.len && Fits(l, d.addr, d.len)
    requires OffRings(q, l, Offset(l, d.addr).value, d.len)
    ensures ViewOf(q, l, CopyTo(mem, Offset(l, d.addr).value, data)) == ViewOf(q, l, mem)
  {
    var at := Offset(l, d.addr).value;
    CopyOnly(mem, at, data, d.len);
    BufferWrite(q, l, mem, CopyTo(mem, at, data), at, d.len);
  }

  lemma {:induction false} TransportKeeps(q: Queue, l: Layout, f: Fill, ds: seq<Descriptor>)
    requires |f.mem| == l.size && Harmless(q, l, ds)
    ensures ViewOf(q, l, FillTransport(l, f, ds).mem) == ViewOf(q, l, f.mem) && |FillTransport(l, f, ds).mem| == l.size
    ensures FillTransport(l, f, ds).written <= f.written + |f.rest|
    decreases |ds|
  {
    if ds != [] && Writable(ds[0].flags) && f.rest != [] && Fits(l, ds[0].addr, ds[0].len) {
      var n, at := Min(ds[0].len, |f.rest|), Offset(l, ds[0].addr).value;
      OneBuffer(q, l, f.mem, ds[0], f.rest[..n]);
      TransportKeeps(q, l, Fill(CopyTo(f.mem, at, f.rest[..n]), f.rest[n..], f.written + n), ds[1..]);
    } else if ds != [] {
      TransportKeeps(q, l, f, ds[1..]);
    }
  }

  /** Such a device may be drained: it keeps off the rings wherever the buffers do. */
  lemma FillerPolite(q: Queue, l: Layout, data: seq<byte>)
    requires |data| < 0x1_0000_0000
    ensures Polite(Filler(l, data), q, l)
  {
    forall d: (), mem: seq<byte>, c: Chain | |mem| == l.size && Harmless(q, l, c.descriptors)
      ensures var r := Filler(l, data)(d, mem, c);
        |r.mem| == |mem| && ViewOf(q, l, r.mem) == ViewOf(q, l, mem) && r.written < 0x1_0000_0000
    {
      TransportKeeps(q, l, Fill(mem, data, 0), c.descriptors);
    }
  }

  method FillDescriptors(l: Layout, mem: seq<byte>, ds: seq<Descriptor>, data: seq<byte>) returns (f: Fill)
    ensures f == FillTransport(l, Fill(mem, data, 0), ds)
  {
    f := Fill(mem, data, 0);
    var k := 0;
    while k < |ds|
      invariant k <= |ds| && FillTransport(l, f, ds[k..]) == FillTransport(l, Fill(mem, data, 0), ds)
    {
      assert ds[k..][1..] == ds[k + 1..];
      var d := ds[k];
      k := k + 1;
      if !Writable(d.flags) {
        continue;
      }
      if f.rest == [] {
        return;
      }
      if Fits(l, d.addr, d.len) {
        var n := Min(d.len, |f.rest|);
        f := Fill(CopyTo(f.mem, Offset(l, d.addr).value, f.rest[..n]), f.rest[n..], f.written + n);
      }
    }
  }

  // ----- the two agree

  lemma {:induction false} FillKeeps(q: Queue, l: Layout, p: Pieces, ds: seq<Descriptor>)
    requires Proper(l) && |p.mem| == l.size && GoodBuffers(q, l, ds)
    ensures ViewOf(q, l, FillNet(l, p, ds).mem) == ViewOf(q, l, p.mem) && |FillNet(l, p, ds).mem| == l.size
    ensures FillNet(l, p, ds).written <= p.written + |p.hdr| + |p.frame|
    decreases |ds|
  {
    if ds != [] {
      assert GoodBuffer(q, l, ds[0]);
      if Writable(ds[0].flags) {
        BufferKeeps(q, l, p, ds[0]);
        FillKeeps(q, l, FillBuffer(l, p, ds[0]), ds[1..]);
      } else {
        FillKeeps(q, l, p, ds[1..]);
      }
    }
  }

  lemma RxPushIs(q: Queue, l: Layout, mem: seq<byte>, head: nat, len: nat)
    requires Laid(q, l) && |mem| == l.size && head < 0x1_0000 && len < 0x1_0000_0000
    ensures Push(q, mem, true, head, len) == Outcome(true, RxPush(q, l, mem, head, ViewOf(q, l, mem).usedIdx, len))
  {
    var idx := ViewOf(q, l, mem).usedIdx;
    PushPosts(q, l, mem, head, len, idx);
    RxPostIs(q, l, mem, Rem(idx, q.size), (idx + 1) % 0x1_0000, Elem(head, len));
  }

  /** A chain that is filled and completed either way. */
  lemma ChainAgrees(q: Queue, l: Layout, mem: seq<byte>, frame: seq<byte>, head: nat, ds: seq<Descriptor>, u: nat)
    requires Laid(q, l) && Proper(l) && |mem| == l.size && |frame| < 0x1_0000 && GoodBuffers(q, l, ds)
    requires u == ViewOf(q, l, mem).usedIdx && head < 0x1_0000
    ensures var m := Delivered(q, l, FillNet(l, Start(mem, frame), ds), head, u);
      && Finished(q, FillTransport(l, Fill(mem, Header() + frame, 0), ds), head, u) ==
           Injection(m, ViewOf(q, l, m).usedIdx)
      && |m| == l.size
  {
    FillsAgree(l, Start(mem, frame), ds);
    FillKeeps(q, l, Start(mem, frame), ds);
    CompletionAgrees(q, l, FillNet(l, Start(mem, frame), ds), FillTransport(l, Fill(mem, Header() + frame, 0), ds),
      head, u);
  }

  lemma CompletionAgrees(q: Queue, l: Layout, r: Pieces, f: Fill, head: nat, u: nat)
    requires Laid(q, l) && |r.mem| == l.size && f.mem == r.mem && f.written == r.written < 0x1_0000_0000
    requires u == ViewOf(q, l, r.mem).usedIdx && head < 0x1_0000
    ensures var m := Delivered(q, l, r, head, u);
      Finished(q, f, head, u) == Injection(m, ViewOf(q, l, m).usedIdx) && |m| == l.size
  {
    RxPushIs(q, l, r.mem, head, r.written);
    PushRings(q, l, r.mem, head, r.written);
  }

  lemma ReceivedIs(q: Queue, l: Layout, mem: seq<byte>, frame: seq<byte>, head: nat, last: nat, p: seq<nat>)
    requires Sized(q) && RxPop(q, l, mem) == Some((head, last))
    requires Walk(ViewOf(q, l, mem).table, head, q.size) == Some(p)
    ensures Received(q, l, mem, frame) ==
      Delivered(q, l, FillNet(l, Start(mem, frame), Pick(ViewOf(q, l, mem).table, p)), head, last)
  {
  }

  lemma InjectedIs(q: Queue, l: Layout, mem: seq<byte>, last: nat, frame: seq<byte>, c: Chain)
    requires Sized(q) && Pop(q, mem, true, last) == Some(c)
    ensures Injected(q, l, Injection(mem, last), frame)
         == Finished(q, FillTransport(l, Fill(mem, Header() + frame, 0), c.descriptors), c.head, last)
  {
  }

  /** Receiving one frame with the used index as cursor leaves the same memory as
      popping, filling and pushing through the virtqueue, and the cursors agree
      again afterwards. */
  lemma FrameAgrees(q: Queue, l: Layout, mem: seq<byte>, frame: seq<byte>)
    requires Laid(q, l) && Proper(l) && |mem| == l.size && q.avail != 0 && |frame| < 0x1_0000 && GoodNext(q, l, mem)
    ensures var m := Received(q, l, mem, frame);
      && Injected(q, l, Injection(mem, ViewOf(q, l, mem).usedIdx), frame) == Injection(m, ViewOf(q, l, m).usedIdx)
      && |m| == l.size
  {
    var v := ViewOf(q, l, mem);
    RxPopIs(q, l, mem);
    PopIs(q, l, mem, v.usedIdx);
    if v.availIdx != v.usedIdx {
      var head := v.heads[Rem(v.usedIdx, q.size)];
      var p := Walk(v.table, head, q.size).value;
      HeadBound(q, l, mem, Rem(v.usedIdx, q.size));
      ReceivedIs(q, l, mem, frame, head, v.usedIdx, p);
      InjectedIs(q, l, mem, v.usedIdx, frame, Chain(head, Pick(v.table, p)));
      ChainAgrees(q, l, mem, frame, head, Pick(v.table, p), v.usedIdx);
    }
  }

  // ----- the frame arrives

  /** How much of a frame and its header fits. */
  function Fitting(ds: seq<Descriptor>, frame: seq<byte>): nat {
    if 12 + |frame| < NetRxArrival.Room(ds) then 12 + |frame| else NetRxArrival.Room(ds)
  }

  /** From mem to mem', a frame behind its header of twelve zeros has come into the
      buffers ds of the chain from head as far as there is room, `written` bytes of it, and
      the chain has been posted as used; no other byte has changed. */
  ghost predicate Arrives(q: Queue, l: Layout, mem: seq<byte>, mem': seq<byte>, frame: seq<byte>, head: nat,
                          ds: seq<Descriptor>, written: nat)
    requires Sized(q)
  {
    Copied(l, mem', frame, ds, written) && Elsewhere(q, l, ds, mem, mem') && Used(q, l, mem, mem', head, written)
  }

  /** The buffers begin with the header and the frame, cut off where there is no room. */
  ghost predicate Copied(l: Layout, mem: seq<byte>, frame: seq<byte>, ds: seq<Descriptor>, written: nat) {
    && written == Fitting(ds, frame)
    && NetRxArrival.Starts(NetRxArrival.ReadBack(l, mem, ds), [0, 0, 0, 0, 0, 0, 0, 0, 0, 0, 0, 0] + frame, written)
  }

  /** The bytes outside the buffers and outside the used ring are the same. */
  ghost predicate Elsewhere(q: Queue, l: Layout, ds: seq<Descriptor>, mem: seq<byte>, mem': seq<byte>) {
    && |mem'| == |mem|
    && forall x: nat :: x < |mem| && !NetRxArrival.InBuffers(l, ds, x) && !InUsed(q, l, x) ==> mem'[x] == mem[x]
  }

  predicate InUsed(q: Queue, l: Layout, x: nat) { Base(l, q.used) <= x < Base(l, q.used) + 4 + 8 * q.size }

  /** The head of the next chain and its buffers. */
  function NextHead(v: View): nat
    requires |v.heads| > 0
  {
    v.heads[Rem(v.usedIdx, |v.heads|)]
  }

  function NextBuffers(v: View): seq<Descriptor>
    requires |v.heads| > 0
  {
    ChainFrom(v.table, NextHead(v), |v.table|)
  }

  /** From mem to mem', a frame has arrived in the next chain, or there was none. */
  ghost predicate ArrivesNext(q: Queue, l: Layout, mem: seq<byte>, mem': seq<byte>, frame: seq<byte>)
    requires Sized(q)
  {
    var v := ViewOf(q, l, mem);
    var ds := NextBuffers(v);
    if v.availIdx == v.usedIdx then mem' == mem else
    NetRxArrival.Apart(l, ds) ==> Arrives(q, l, mem, mem', frame, NextHead(v), ds, Fitting(ds, frame))
  }

  /** A pop yields c, whose buffers are good and apart. */
  ghost predicate Caught(q: Queue, l: Layout, mem: seq<byte>, last: nat, frame: seq<byte>, c: Chain)
    requires Sized(q)
  {
    && Laid(q, l) && |mem| == l.size && |frame| + 12 < 0x1_0000_0000 && Pop(q, mem, true, last) == Some(c)
    && GoodBuffers(q, l, c.descriptors) && NetRxArrival.Apart(l, c.descriptors)
  }

  /** From mem to mem', a frame has arrived in the chain that a pop yields. */
  ghost predicate ArrivesPopped(q: Queue, l: Layout, mem: seq<byte>, last: nat, mem': seq<byte>, frame: seq<byte>)
    requires Sized(q)
  {
    forall c :: Caught(q, l, mem, last, frame, c) ==>
      Arrives(q, l, mem, mem', frame, c.head, c.descriptors, Fitting(c.descriptors, frame))
  }

  /** One more used element, which names the head and a length. */
  ghost predicate Used(q: Queue, l: Layout, mem: seq<byte>, mem': seq<byte>, head: nat, len: nat)
    requires Sized(q)
  {
    var v := ViewOf(q, l, mem);
    ViewOf(q, l, mem') == v.(usedIdx := (v.usedIdx + 1) % 0x1_0000,
      elems := v.elems[Rem(v.usedIdx, q.size) := Elem(head, len)])
  }

  lemma GoodMeans(q: Queue, l: Layout, ds: seq<Descriptor>)
    requires GoodBuffers(q, l, ds)
    ensures Reachable(l, ds) && Harmless(q, l, ds) && NetRxArrival.Off(l, ds, Base(l, q.used), 4 + 8 * q.size)
  {
    forall k | 0 <= k < |ds| && Writable(ds[k].flags)
      ensures Fits(l, ds[k].addr, ds[k].len) && OffRings(q, l, Offset(l, ds[k].addr).value, ds[k].len)
    {
      assert GoodBuffer(q, l, ds[k]);
    }
  }

  lemma BesideThenUsed(q: Queue, l: Layout, ds: seq<Descriptor>, mem: seq<byte>, m: seq<byte>, mem': seq<byte>)
    requires NetRxArrival.Beside(l, ds, mem, m) && OnlyBytes(m, mem', Base(l, q.used), 4 + 8 * q.size)
    ensures Elsewhere(q, l, ds, mem, mem')
  {
  }

  /** Filling the buffers of a chain and posting it. */
  lemma FinishedArrives(q: Queue, l: Layout, mem: seq<byte>, frame: seq<byte>, head: nat, ds: seq<Descriptor>,
                        last: nat, f: Fill)
    requires Laid(q, l) && |mem| == l.size && |frame| + 12 < 0x1_0000_0000 && head < 0x1_0000
    requires GoodBuffers(q, l, ds) && NetRxArrival.Apart(l, ds)
    requires f == FillTransport(l, Fill(mem, Header() + frame, 0), ds)
    ensures Arrives(q, l, mem, Finished(q, f, head, last).mem, frame, head, ds, f.written)
  {
    GoodMeans(q, l, ds);
    var g := Fill(mem, Header() + frame, 0);
    TransportKeeps(q, l, g, ds);
    NetRxArrival.FillArrives(l, g, ds, f);
    PostedArrives(q, l, mem, f.mem, frame, head, ds, f.written);
  }

  lemma PostedArrives(q: Queue, l: Layout, mem: seq<byte>, m: seq<byte>, frame: seq<byte>, head: nat,
                      ds: seq<Descriptor>, n: nat)
    requires Laid(q, l) && |m| == l.size && head < 0x1_0000 && n < 0x1_0000_0000 && GoodBuffers(q, l, ds)
    requires NetRxArrival.Arrived(l, ds, mem, m, Header() + frame, 0, n) && ViewOf(q, l, m) == ViewOf(q, l, mem)
    ensures Arrives(q, l, mem, Push(q, m, true, head, n).mem, frame, head, ds, n)
  {
    var m' := Push(q, m, true, head, n).mem;
    PushOnly(q, l, m, head, n);
    BesideThenUsed(q, l, ds, mem, m, m');
    CopiedStays(q, l, mem, m, m', frame, ds, n);
    PushRings(q, l, m, head, n);
  }

  lemma CopiedStays(q: Queue, l: Layout, mem: seq<byte>, m: seq<byte>, m': seq<byte>, frame: seq<byte>,
                    ds: seq<Descriptor>, n: nat)
    requires OnlyBytes(m, m', Base(l, q.used), 4 + 8 * q.size) && GoodBuffers(q, l, ds)
    requires NetRxArrival.Arrived(l, ds, mem, m, Header() + frame, 0, n)
    ensures Copied(l, m', frame, ds, n)
  {
    GoodMeans(q, l, ds);
    NetRxArrival.ReadStays(l, m, m', ds, Base(l, q.used), 4 + 8 * q.size);
    assert Header() == [0, 0, 0, 0, 0, 0, 0, 0, 0, 0, 0, 0];
  }

  /** A frame received by the transport arrives in the chain that is popped. */
  lemma InjectedArrives(q: Queue, l: Layout, mem: seq<byte>, last: nat, frame: seq<byte>, c: Chain)
    requires Laid(q, l) && |mem| == l.size && |frame| + 12 < 0x1_0000_0000 && Pop(q, mem, true, last) == Some(c)
    requires GoodBuffers(q, l, c.descriptors) && NetRxArrival.Apart(l, c.descriptors)
    ensures Arrives(q, l, mem, Injected(q, l, Injection(mem, last), frame).mem, frame, c.head, c.descriptors,
      Fitting(c.descriptors, frame))
  {
    PopHead(q, l, mem, last, c);
    var f := FillTransport(l, Fill(mem, Header() + frame, 0), c.descriptors);
    FinishedArrives(q, l, mem, frame, c.head, c.descriptors, last, f);
    InjectedIs(q, l, mem, last, frame, c);
  }

  lemma PoppedArrives(q: Queue, l: Layout, mem: seq<byte>, last: nat, frame: seq<byte>)
    requires Sized(q)
    ensures ArrivesPopped(q, l, mem, last, Injected(q, l, Injection(mem, last), frame).mem, frame)
  {
    forall c | Caught(q, l, mem, last, frame, c)
      ensures Arrives(q, l, mem, Injected(q, l, Injection(mem, last), frame).mem, frame, c.head, c.descriptors,
        Fitting(c.descriptors, frame))
    {
      InjectedArrives(q, l, mem, last, frame, c);
    }
  }

  lemma PopHead(q: Queue, l: Layout, mem: seq<byte>, last: nat, c: Chain)
    requires Laid(q, l) && |mem| == l.size && Pop(q, mem, true, last) == Some(c)
    ensures c.head < 0x1_0000
  {
    PopIs(q, l, mem, last);
    HeadBound(q, l, mem, Rem(last, q.size));
  }

  /** A frame received by the network device arrives in the next chain. */
  lemma ReceivedArrives(q: Queue, l: Layout, mem: seq<byte>, frame: seq<byte>)
    requires Laid(q, l) && Proper(l) && |mem| == l.size && q.avail != 0 && |frame| < 0x1_0000 && GoodNext(q, l, mem)
    ensures ArrivesNext(q, l, mem, Received(q, l, mem, frame), frame)
  {
    var v := ViewOf(q, l, mem);
    RxPopIs(q, l, mem);
    if v.availIdx != v.usedIdx && NetRxArrival.Apart(l, NextBuffers(v)) {
      PopIs(q, l, mem, v.usedIdx);
      FrameAgrees(q, l, mem, frame);
      InjectedArrives(q, l, mem, v.usedIdx, frame, Chain(NextHead(v), NextBuffers(v)));
    }
  }

  /** What the device's loop counts. */
  lemma WrittenIs(q: Queue, l: Layout, mem: seq<byte>, frame: seq<byte>, ds: seq<Descriptor>)
    requires Proper(l) && |mem| == l.size && GoodBuffers(q, l, ds) && NetRxArrival.Apart(l, ds)
    ensures FillNet(l, Start(mem, frame), ds).written == Fitting(ds, frame)
  {
    GoodMeans(q, l, ds);
    FillsAgree(l, Start(mem, frame), ds);
    var f := Fill(mem, Header() + frame, 0);
    NetRxArrival.FillArrives(l, f, ds, FillTransport(l, f, ds));
  }

  lemma DeliveredIs(q: Queue, l: Layout, mem: seq<byte>, frame: seq<byte>)
    requires Laid(q, l) && Proper(l) && |mem| == l.size && q.avail != 0 && GoodNext(q, l, mem)
    requires NetRxArrival.Apart(l, NextBuffers(ViewOf(q, l, mem)))
    ensures var v := ViewOf(q, l, mem);
      var next := RxPop(q, l, mem);
      (next.Some? && FillNet(l, Start(mem, frame), ChainFrom(v.table, next.value.0, q.size)).written > 0)
      <==> v.availIdx != v.usedIdx && NetRxArrival.Room(NextBuffers(v)) > 0
  {
    var v := ViewOf(q, l, mem);
    RxPopIs(q, l, mem);
    if v.availIdx != v.usedIdx {
      WrittenIs(q, l, mem, frame, NextBuffers(v));
    }
  }

  // ----- whole runs

  /** Between frames the guest may change its memory. */
  datatype Event = Guest(mem: seq<byte>) | Frame(bytes: seq<byte>)

  function RunNet(q: Queue, l: Layout, mem: seq<byte>, es: seq<Event>): seq<byte>
    requires Sized(q)
    decreases |es|
  {
    if es == [] then mem else
    RunNet(q, l, match es[0] case Guest(m) => m case Frame(f) => Received(q, l, mem, f), es[1..])
  }

  function RunQueue(q: Queue, l: Layout, s: Injection, es: seq<Event>): Injection
    requires Sized(q)
    decreases |es|
  {
    if es == [] then s else
    RunQueue(q, l, match es[0] case Guest(m) => s.(mem := m) case Frame(f) => Injected(q, l, s, f), es[1..])
  }

  /** The guest leaves the used index to the device, and offers good chains. */
  ghost predicate Allowed(q: Queue, l: Layout, mem: seq<byte>, es: seq<Event>)
    requires Sized(q)
    decreases |es|
  {
    es == [] ||
    match es[0]
    case Guest(m) => |m| == l.size && ViewOf(q, l, m).usedIdx == ViewOf(q, l, mem).usedIdx && Allowed(q, l, m, es[1..])
    case Frame(f) => |f| < 0x1_0000 && GoodNext(q, l, mem) && Allowed(q, l, Received(q, l, mem, f), es[1..])
  }

  /** Over every run that starts with equal cursors, both paths leave the same guest
      memory, used ring included, and the cursors stay equal. */
  lemma {:induction false} RunsAgree(q: Queue, l: Layout, mem: seq<byte>, last: nat, es: seq<Event>)
    requires Laid(q, l) && Proper(l) && |mem| == l.size && q.avail != 0 && Allowed(q, l, mem, es)
    requires last == ViewOf(q, l, mem).usedIdx
    ensures var r := RunQueue(q, l, Injection(mem, last), es);
      r.mem == RunNet(q, l, mem, es) && r.last == ViewOf(q, l, r.mem).usedIdx
    decreases |es|
  {
    if es != [] {
      match es[0]
      case Guest(m) =>
        RunsAgree(q, l, m, last, es[1..]);
      case Frame(f) =>
        FrameAgrees(q, l, mem, f);
        var m := Received(q, l, mem, f);
        RunsAgree(q, l, m, ViewOf(q, l, m).usedIdx, es[1..]);
    }
  }
}
