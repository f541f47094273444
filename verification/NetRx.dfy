/** The receive path of the network device (src/virtio/net.rs), which keeps no cursor
    of its own, beside the transport's receive path (`inject_rx_frame` in
    src/virtio/mmio.rs), which goes through the virtqueue. */
module NetRx {
  import opened Bytes
  import opened GuestMemory
  import opened VirtqueueChains
  import opened Virtqueue
  import opened VirtqueueRings
  import opened VirtqueueDrain

  /** The header that precedes a frame: twelve zero bytes. */
  function Header(): seq<byte> { Zeros(12) }

  function Min(a: nat, b: nat): nat { if a < b then a else b }

  // ----- filling the buffers of a chain

  /** Copy d to an offset, if it fits. */
  function CopyTo(mem: seq<byte>, at: nat, d: seq<byte>): (r: seq<byte>)
    ensures |r| == |mem|
  {
    if at + |d| <= |mem| then Splice(mem, at, d) else mem
  }

  datatype Fill = Fill(mem: seq<byte>, rest: seq<byte>, written: nat)

  /** The transport's loop: readable descriptors and unreachable buffers are skipped,
      and the loop stops when everything has been copied. */
  function FillTransport(l: Layout, f: Fill, ds: seq<Descriptor>): Fill
    decreases |ds|
  {
    if ds == [] then f
    else if !Writable(ds[0].flags) then FillTransport(l, f, ds[1..])
    else if f.rest == [] then f
    else if !Fits(l, ds[0].addr, ds[0].len) then FillTransport(l, f, ds[1..])
    else
      var n := Min(ds[0].len, |f.rest|);
      FillTransport(l, Fill(CopyTo(f.mem, Offset(l, ds[0].addr).value, f.rest[..n]), f.rest[n..], f.written + n),
        ds[1..])
  }

  /** What the network device does with one writable buffer: first what is left of the
      header, then what is left of the frame. */
  datatype Pieces = Pieces(mem: seq<byte>, hdr: seq<byte>, frame: seq<byte>, written: nat)

  function FillAt(p: Pieces, at: nat, len: nat): Pieces {
    var n := Min(|p.hdr|, len);
    var m := if n < len then Min(|p.frame|, len - n) else 0;
    Pieces(CopyTo(CopyTo(p.mem, at, p.hdr[..n]), at + n, p.frame[..m]), p.hdr[n..], p.frame[m..], p.written + n + m)
  }

  function FillBuffer(l: Layout, p: Pieces, d: Descriptor): Pieces {
    FillAt(p, NetPointer(l, d.addr), d.len)
  }

  function FillNet(l: Layout, p: Pieces, ds: seq<Descriptor>): Pieces
    decreases |ds|
  {
    if ds == [] then p else FillNet(l, if Writable(ds[0].flags) then FillBuffer(l, p, ds[0]) else p, ds[1..])
  }

  /** Every writable buffer lies in memory. */
  ghost predicate Reachable(l: Layout, ds: seq<Descriptor>) {
    forall k :: 0 <= k < |ds| && Writable(ds[k].flags) ==> Fits(l, ds[k].addr, ds[k].len)
  }

  lemma TwoCopies(mem: seq<byte>, at: nat, a: seq<byte>, b: seq<byte>)
    requires at + |a| + |b| <= |mem|
    ensures CopyTo(CopyTo(mem, at, a), at + |a|, b) == CopyTo(mem, at, a + b)
  {
  }

  /** r is p after as much of its bytes as fits has gone to a buffer at `at`. */
  ghost predicate Filled(p: Pieces, r: Pieces, at: nat, len: nat) {
    var rest, n := p.hdr + p.frame, Min(len, |p.hdr + p.frame|);
    r.mem == CopyTo(p.mem, at, rest[..n]) && r.hdr + r.frame == rest[n..] && r.written == p.written + n
  }

  lemma FillAtIs(p: Pieces, at: nat, len: nat)
    requires at + len <= |p.mem|
    ensures Filled(p, FillAt(p, at, len), at, len)
  {
    var n := Min(|p.hdr|, len);
    var m := if n < len then Min(|p.frame|, len - n) else 0;
    TwoCopies(p.mem, at, p.hdr[..n], p.frame[..m]);
    Rejoined(p.hdr, p.frame, n, m);
  }

  /** Filling one buffer is the same either way. */
  lemma BufferAgrees(l: Layout, p: Pieces, d: Descriptor)
    requires Proper(l) && Fits(l, d.addr, d.len) && |p.mem| == l.size
    ensures Filled(p, FillBuffer(l, p, d), Offset(l, d.addr).value, d.len)
  {
    NetAgrees(l, d.addr);
    FillAtIs(p, NetPointer(l, d.addr), d.len);
  }

  lemma Rejoined(a: seq<byte>, b: seq<byte>, n: nat, m: nat)
    requires n <= |a| && m <= |b| && (m > 0 ==> n == |a|)
    ensures a[..n] + b[..m] == (a + b)[..n + m] && a[n..] + b[m..] == (a + b)[n + m..]
  {
  }

  /** Both loops leave the same memory and count the same bytes. */
  lemma {:induction false} FillsAgree(l: Layout, p: Pieces, ds: seq<Descriptor>)
    requires Proper(l) && |p.mem| == l.size && Reachable(l, ds)
    ensures FillNet(l, p, ds).mem == FillTransport(l, Fill(p.mem, p.hdr + p.frame, p.written), ds).mem
    ensures FillNet(l, p, ds).written == FillTransport(l, Fill(p.mem, p.hdr + p.frame, p.written), ds).written
    decreases |ds|
  {
    if ds != [] {
      if Writable(ds[0].flags) {
        BufferAgrees(l, p, ds[0]);
        FillsAgree(l, FillBuffer(l, p, ds[0]), ds[1..]);
        if p.hdr + p.frame == [] {
          NothingLeft(l, p, ds);
        }
      } else {
        FillsAgree(l, p, ds[1..]);
      }
    }
  }

  lemma {:induction false} NothingLeft(l: Layout, p: Pieces, ds: seq<Descriptor>)
    requires p.hdr == [] && p.frame == []
    ensures FillNet(l, p, ds).mem == p.mem && FillNet(l, p, ds).written == p.written
    decreases |ds|
  {
    if ds != [] {
      if Writable(ds[0].flags) {
        var r := FillBuffer(l, p, ds[0]);
        assert r.hdr == [] && r.frame == [] && r.mem == p.mem;
      }
      NothingLeft(l, if Writable(ds[0].flags) then FillBuffer(l, p, ds[0]) else p, ds[1..]);
    }
  }

  // ----- the rings without a cursor

  /** The memory with v in the n bytes from `at` on. */
  function Put(mem: seq<byte>, at: nat, v: nat, n: nat): seq<byte> {
    if at + n <= |mem| then Splice(mem, at, ToLE(v, n)) else mem
  }

  /** `rx_pop_avail`: the used index serves as the cursor. */
  function RxPop(q: Queue, l: Layout, mem: seq<byte>): Option<(nat, nat)>
    requires Sized(q)
  {
    if q.avail == 0 then None else
    var idx, last := Num(mem, NetPointer(l, q.avail + 2), 2), Num(mem, NetPointer(l, q.used + 2), 2);
    if idx == last then None
    else Some((Num(mem, NetPointer(l, q.avail + 4 + 2 * Rem(last, q.size)), 2), last))
  }

  function RxDesc(q: Queue, l: Layout, mem: seq<byte>, idx: nat): Descriptor {
    DescAt(mem, NetPointer(l, q.desc + 16 * idx))
  }

  /** `rx_push_used` */
  function RxPush(q: Queue, l: Layout, mem: seq<byte>, head: nat, last: nat, len: nat): seq<byte>
    requires Sized(q)
  {
    RxPost(l, mem, q.used, Rem(last, q.size), (last + 1) % 0x1_0000, head, len)
  }

  function RxPost(l: Layout, mem: seq<byte>, used: nat, slot: nat, idx: nat, head: nat, len: nat): seq<byte> {
    PutAll(mem, NetPointer(l, used + 4 + 8 * slot), NetPointer(l, used + 2), idx, head, len)
  }

  /** An element at one offset and then the index at another. */
  function PutAll(mem: seq<byte>, at: nat, idxAt: nat, idx: nat, head: nat, len: nat): seq<byte> {
    Put(Put(Put(mem, at, head, 4), at + 4, len, 4), idxAt, idx, 2)
  }

  lemma NetInside(l: Layout, base: nat, len: nat, x: nat)
    requires Proper(l) && Area(l, base, len) && x < len
    ensures NetPointer(l, base + x) == Base(l, base) + x
  {
    Inside(l, base, len, x, 1);
    NetAgrees(l, base + x);
  }

  /** The pointers of the network device into the three areas. */
  lemma NetPointers(q: Queue, l: Layout, x: nat)
    requires Laid(q, l)
    ensures x < 16 * q.size ==> NetPointer(l, q.desc + x) == Base(l, q.desc) + x
    ensures x < 4 + 2 * q.size ==> NetPointer(l, q.avail + x) == Base(l, q.avail) + x
    ensures x < 4 + 8 * q.size ==>
      NetPointer(l, q.used + x) == Base(l, q.used) + x && Base(l, q.used) + 4 + 8 * q.size <= l.size
  {
    assert Use(Key);
    if x < 16 * q.size {
      NetInside(l, q.desc, 16 * q.size, x);
    }
    if x < 4 + 2 * q.size {
      NetInside(l, q.avail, 4 + 2 * q.size, x);
    }
    if x < 4 + 8 * q.size {
      NetInside(l, q.used, 4 + 8 * q.size, x);
    }
  }

  lemma RxPopIs(q: Queue, l: Layout, mem: seq<byte>)
    requires Laid(q, l) && q.avail != 0
    ensures RxPop(q, l, mem) == var v := ViewOf(q, l, mem);
      if v.availIdx == v.usedIdx then None else Some((v.heads[Rem(v.usedIdx, q.size)], v.usedIdx))
  {
    var r := Rem(Num(mem, Base(l, q.used) + 2, 2), q.size);
    AvailPointers(q, l, r);
  }

  lemma AvailPointers(q: Queue, l: Layout, r: nat)
    requires Laid(q, l) && r < q.size
    ensures NetPointer(l, q.avail + 2) == Base(l, q.avail) + 2 && NetPointer(l, q.used + 2) == Base(l, q.used) + 2
    ensures NetPointer(l, q.avail + 4 + 2 * r) == Base(l, q.avail) + 4 + 2 * r
  {
    NetPointers(q, l, 2);
    NetPointers(q, l, 4 + 2 * r);
  }

  lemma RxDescIs(q: Queue, l: Layout, mem: seq<byte>, i: nat)
    requires Laid(q, l) && i < q.size
    ensures RxDesc(q, l, mem, i) == ViewOf(q, l, mem).table[i]
  {
    NetPointers(q, l, 16 * i);
  }

  lemma PutWrote(mem: seq<byte>, at: nat, v: nat, n: nat)
    requires at + n <= |mem| && v < Radix(n)
    ensures Wrote(mem, Put(mem, at, v, n), at, v, n)
  {
    NumWritten(mem, at, v, n);
  }

  /** Posting through pointers is posting through the queue. */
  lemma RxPostIs(q: Queue, l: Layout, mem: seq<byte>, slot: nat, idx: nat, e: Elem)
    requires Laid(q, l) && |mem| == l.size && slot < q.size && idx < 0x1_0000 && e.id < 0x1_0000_0000
    requires e.len < 0x1_0000_0000
    ensures Post(q.io, mem, q.used, slot, idx, e.id, e.len) ==
      Outcome(true, RxPost(l, mem, q.used, slot, idx, e.id, e.len))
  {
    var m1, m2, m3 := PostRuns(q, l, mem, slot, idx, e);
    UsedPointers(q, l, slot);
    PostedSame(l, mem, m1, m2, m3, q.used, slot, idx, e, Base(l, q.used));
  }

  lemma PostedSame(l: Layout, mem: seq<byte>, m1: seq<byte>, m2: seq<byte>, m3: seq<byte>, used: nat, slot: nat,
                   idx: nat, e: Elem, u: nat)
    requires NetPointer(l, used + 4 + 8 * slot) == u + 4 + 8 * slot && NetPointer(l, used + 2) == u + 2
    requires Posts(mem, m1, m2, m3, u, slot, e, idx) && u + 12 + 8 * slot <= |mem|
    requires idx < 0x1_0000 && e.id < 0x1_0000_0000 && e.len < 0x1_0000_0000
    ensures m3 == RxPost(l, mem, used, slot, idx, e.id, e.len)
  {
    PutsAre(mem, m1, m2, m3, u, slot, idx, e);
  }

  lemma UsedPointers(q: Queue, l: Layout, slot: nat)
    requires Laid(q, l) && slot < q.size
    ensures NetPointer(l, q.used + 4 + 8 * slot) == Base(l, q.used) + 4 + 8 * slot
    ensures NetPointer(l, q.used + 2) == Base(l, q.used) + 2
    ensures Base(l, q.used) + 12 + 8 * slot <= l.size
  {
    NetPointers(q, l, 4 + 8 * slot);
    NetPointers(q, l, 2);
  }

  lemma PutsAre(mem: seq<byte>, m1: seq<byte>, m2: seq<byte>, m3: seq<byte>, u: nat, slot: nat, idx: nat, e: Elem)
    requires Posts(mem, m1, m2, m3, u, slot, e, idx) && u + 12 + 8 * slot <= |mem|
    requires idx < 0x1_0000 && e.id < 0x1_0000_0000 && e.len < 0x1_0000_0000
    ensures m3 == PutAll(mem, u + 4 + 8 * slot, u + 2, idx, e.id, e.len)
  {
    RadixValues();
    PutIs(mem, m1, u + 4 + 8 * slot, e.id, 4);
    PutIs(m1, m2, u + 4 + 8 * slot + 4, e.len, 4);
    PutIs(m2, m3, u + 2, idx, 2);
  }

  lemma PutIs(mem: seq<byte>, m: seq<byte>, at: nat, v: nat, n: nat)
    requires Wrote(mem, m, at, v, n) && at + n <= |mem| && v < Radix(n)
    ensures m == Put(mem, at, v, n)
  {
    PutWrote(mem, at, v, n);
    WroteOnce(mem, m, Put(mem, at, v, n), at, v, n);
  }
}
