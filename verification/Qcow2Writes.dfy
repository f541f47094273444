/** When a write must fail: a cluster that is not allocated and only partly covered is
    filled from the base first, as a whole. */
module Qcow2Writes {
  import opened Bytes
  import opened Qcow2Image
  import opened Qcow2State
  import opened Qcow2Ops
  import opened Qcow2Count
  import opened Qcow2Correct

  /** Where the guest cluster that holds p lives. */
  function HostOf(t: Tables, u: Sectors, p: nat): Option<int> { Host(t, L1Index(p, u), L2Index(p, u)) }

  /** The range of `len` bytes from `from` on covers the whole cluster that holds p. */
  predicate Covered(u: Sectors, p: nat, from: nat, len: nat) {
    from <= Start(p, u) && Start(p, u) + Cs(u) <= from + len
  }

  /** The cluster that holds p cannot be prepared for a write to that range. */
  ghost predicate Stuck(t: Tables, u: Sectors, base: Base, p: nat, from: nat, len: nat) {
    HostOf(t, u, p) == None && !Covered(u, p, from, len) && !BaseReadable(base, Start(p, u), Cs(u))
  }

  /** Nothing stands in the way of a write to the range. */
  ghost predicate Unobstructed(t: Tables, u: Sectors, base: Base, from: nat, len: nat) {
    forall p: nat :: from <= p < from + len ==> !Stuck(t, u, base, p, from, len)
  }

  /** Guest clusters other than the one that holds pos live where they did. */
  ghost predicate SameElsewhere(t: Tables, t': Tables, u: Sectors, pos: nat) {
    forall x: nat, y: nat :: (x, y) != (L1Index(pos, u), L2Index(pos, u)) ==> Host(t', x, y) == Host(t, x, y)
  }

  /** pos is where the write to the range enters a cluster, and m how much of it lies
      in that cluster. */
  predicate Chunk(u: Sectors, pos: nat, m: nat, from: nat, len: nat) {
    && from <= pos && 0 < m && pos + m <= from + len && Rem(pos, Cs(u)) + m <= Cs(u)
    && (pos == from || Rem(pos, Cs(u)) == 0) && (pos + m == from + len || Rem(pos, Cs(u)) + m == Cs(u))
  }

  lemma SameStart(p: nat, pos: nat, u: Sectors)
    requires L1Index(p, u) == L1Index(pos, u) && L2Index(p, u) == L2Index(pos, u)
    ensures Start(p, u) == Start(pos, u)
  {
    Position(p, pos, u);
  }

  lemma InChunk(u: Sectors, pos: nat, m: nat, from: nat, len: nat, p: nat)
    requires Chunk(u, pos, m, from, len) && pos <= p < pos + m
    ensures L1Index(p, u) == L1Index(pos, u) && L2Index(p, u) == L2Index(pos, u) && Start(p, u) == Start(pos, u)
    ensures Covered(u, p, from, len) <==> m == Cs(u)
  {
    Locate(p, pos, m, u);
    SameStart(p, pos, u);
  }

  lemma AfterChunk(u: Sectors, pos: nat, m: nat, from: nat, len: nat, p: nat)
    requires Chunk(u, pos, m, from, len) && pos + m <= p < from + len
    ensures (L1Index(p, u), L2Index(p, u)) != (L1Index(pos, u), L2Index(pos, u))
  {
    if (L1Index(p, u), L2Index(p, u)) == (L1Index(pos, u), L2Index(pos, u)) {
      SameStart(p, pos, u);
    }
  }

  /** A chunk is stuck exactly when its cluster is not allocated, the chunk does not
      fill it, and the base cannot. */
  lemma ChunkStuck(t: Tables, u: Sectors, base: Base, pos: nat, m: nat, from: nat, len: nat, p: nat)
    requires Chunk(u, pos, m, from, len) && pos <= p < pos + m
    ensures Stuck(t, u, base, p, from, len) <==>
      HostOf(t, u, pos) == None && m < Cs(u) && !BaseReadable(base, Start(pos, u), Cs(u))
  {
    InChunk(u, pos, m, from, len, p);
  }

  /** The first n bytes of the range have been written: nothing stood in the way, and
      the clusters ahead live where they did. */
  ghost predicate Ahead(t0: Tables, t: Tables, u: Sectors, base: Base, from: nat, len: nat, n: nat) {
    && n <= len && (n == 0 || n == len || Rem(from + n, Cs(u)) == 0)
    && (forall p: nat :: from <= p < from + n ==> !Stuck(t0, u, base, p, from, len))
    && (forall p: nat :: from + n <= p < from + len ==> HostOf(t, u, p) == HostOf(t0, u, p))
  }

  /** The same as one fact. */
  ghost predicate Advanced(t0: Tables, t: Tables, u: Sectors, base: Base, from: nat, len: nat, n: nat) {
    forall k {:trigger Look(k)} :: Look(k) ==> Ahead(t0, t, u, base, from, len, n)
  }

  lemma Begin(t: Tables, u: Sectors, base: Base, from: nat, len: nat)
    ensures Advanced(t, t, u, base, from, len, 0)
  {
  }

  lemma End(t0: Tables, t: Tables, u: Sectors, base: Base, from: nat, len: nat)
    requires Advanced(t0, t, u, base, from, len, len)
    ensures Unobstructed(t0, u, base, from, len)
  {
    assert Look(Key);
  }

  lemma NextChunk(t0: Tables, t: Tables, u: Sectors, base: Base, from: nat, len: nat, n: nat, m: nat)
    requires Advanced(t0, t, u, base, from, len, n) && n < len
    requires m == if Cs(u) - Rem(from + n, Cs(u)) < len - n then Cs(u) - Rem(from + n, Cs(u)) else len - n
    ensures Chunk(u, from + n, m, from, len) && HostOf(t, u, from + n) == HostOf(t0, u, from + n)
  {
    assert Look(Key);
  }

  lemma WrittenChunk(t0: Tables, t: Tables, t': Tables, u: Sectors, base: Base, from: nat, len: nat, n: nat, m: nat)
    requires Advanced(t0, t, u, base, from, len, n) && Chunk(u, from + n, m, from, len)
    requires SameElsewhere(t, t', u, from + n) && HostOf(t, u, from + n) == HostOf(t0, u, from + n)
    requires HostOf(t, u, from + n) == None && m < Cs(u) ==> BaseReadable(base, Start(from + n, u), Cs(u))
    ensures Advanced(t0, t', u, base, from, len, n + m)
  {
    assert Look(Key);
    var pos := from + n;
    NextBoundary(u, pos, m);
    forall p: nat | from <= p < pos + m ensures !Stuck(t0, u, base, p, from, len) {
      if pos <= p {
        ChunkStuck(t0, u, base, pos, m, from, len, p);
      }
    }
    forall p: nat | pos + m <= p < from + len ensures HostOf(t', u, p) == HostOf(t0, u, p) {
      AfterChunk(u, pos, m, from, len, p);
    }
  }

  lemma ReadyElsewhere(g: Geometry, s: State, m: State, s': State, pos: nat, h: nat, ok: bool)
    requires Ready(g, s, m)
    requires if ok then Linked(m, s'.(file := m.file), L1Index(pos, g.u), L2Index(pos, g.u), h) else s' == m
    ensures SameElsewhere(s.tables, s'.tables, g.u, pos) && |s'.l1| == |s.l1| && s'.next >= s.next
  {
  }

  lemma ReadyOwn(g: Geometry, s: State, m: State, h: nat)
    requires Ready(g, s, m) && h in s.own
    ensures h in m.own && m.own[h] == s.own[h]
  {
  }

  lemma NextBoundary(u: Sectors, pos: nat, m: nat)
    ensures Rem(pos, Cs(u)) + m == Cs(u) ==> Rem(pos + m, Cs(u)) == 0
  {
    if Rem(pos, Cs(u)) + m == Cs(u) {
      DivMod(pos, Cs(u));
      QuotRem(pos + m, Cs(u), Quot(pos, Cs(u)) + 1, 0);
    }
  }

  lemma WholeCluster(u: Sectors, p: nat, n: nat)
    requires p < n && Rem(n, Cs(u)) == 0
    ensures Start(p, u) + Cs(u) <= n
  {
    DivMod(p, Cs(u));
    DivMod(n, Cs(u));
    if Quot(n, Cs(u)) <= Quot(p, Cs(u)) {
      MulLess(Cs(u), Quot(n, Cs(u)), Quot(p, Cs(u)) + 1);
    } else {
      MulLess(Cs(u), Quot(p, Cs(u)), Quot(n, Cs(u)));
    }
  }

  /** Nothing can stand in the way where the base is readable: there is none, it is
      raw, or it is a readable image of whole clusters that goes far enough. */
  lemma ReadableBase(t: Tables, u: Sectors, base: Base, from: nat, len: nat)
    requires base.LayerBase? ==> from + len <= |base.disk| && Rem(|base.disk|, Cs(u)) == 0
    requires base.LayerBase? ==> forall p :: 0 <= p < |base.disk| ==> base.disk[p].Some?
    ensures Unobstructed(t, u, base, from, len)
  {
    forall p: nat | from <= p < from + len ensures !Stuck(t, u, base, p, from, len) {
      if base.LayerBase? {
        WholeCluster(u, p, |base.disk|);
      }
      forall x: nat | Start(p, u) <= x < Start(p, u) + Cs(u) ensures BaseByte(base, x).Some? {
      }
    }
  }

  /** The smallest case: a disk of 700 bytes over an image of 700 bytes, with 512-byte
      clusters.  A write to byte 600 alone is obstructed. */
  lemma ShortBase(disk: seq<Option<byte>>)
    requires |disk| == 700
    ensures !Unobstructed(map[], 1, LayerBase(disk), 600, 1)
  {
    QuotRem(600, 512, 1, 88);
    assert Start(600, 1) == 512;
    assert BaseByte(LayerBase(disk), 700) == None;
    assert Stuck(map[], 1, LayerBase(disk), 600, 600, 1);
  }

  // ----- how far the cursor can move

  /** The number of clusters that a range touches. */
  function Touched(u: Sectors, from: nat, len: nat): nat {
    if len == 0 then 0 else
    QuotMono(from, from + len - 1, Cs(u));
    Quot(from + len - 1, Cs(u)) + 1 - Quot(from, Cs(u))
  }

  lemma TouchedNext(u: Sectors, from: nat, len: nat, m: nat)
    requires len > 0 && m == if Cs(u) - Rem(from, Cs(u)) < len then Cs(u) - Rem(from, Cs(u)) else len
    ensures Touched(u, from, len) == 1 + Touched(u, from + m, len - m)
  {
    var c, q, r := Cs(u), Quot(from, Cs(u)), Rem(from, Cs(u));
    DivMod(from, c);
    if m == len {
      QuotRem(from + len - 1, c, q, r + len - 1);
    } else {
      QuotRem(from + m, c, q + 1, 0);
      QuotMono(from + m, from + len - 1, c);
    }
  }

  /** At most c clusters have been added, and the refcount table has grown no further than
      to the range of the cursor. */
  ghost predicate Spends(u: Sectors, next: nat, entries: nat, next': nat, entries': nat, c: nat) {
    forall k {:trigger Note(k)} :: Note(k) ==> Spending(u, next, entries, next', entries', c)
  }

  ghost predicate Spending(u: Sectors, next: nat, entries: nat, next': nat, entries': nat, c: nat) {
    && next <= next' <= next + Times(c, Cs(u))
    && entries <= entries' <= Max(entries, Quot(Quot(next', Cs(u)), PerBlock(u)) + 1)
  }

  lemma SpendsNothing(u: Sectors, next: nat, entries: nat, c: nat)
    ensures Spends(u, next, entries, next, entries, c)
  {
  }

  lemma SpendsAtMost(u: Sectors, next: nat, entries: nat, next': nat, entries': nat, c: nat)
    requires Spends(u, next, entries, next', entries', c)
    ensures Spending(u, next, entries, next', entries', c)
  {
    assert Note(Key);
  }

  lemma SpendsStep(u: Sectors, next: nat, entries: nat, next': nat, entries': nat, steps: nat, next'': nat,
                   entries'': nat)
    requires Spends(u, next, entries, next', entries', 4 * steps) && Spends(u, next', entries', next'', entries'', 4)
    ensures Spends(u, next, entries, next'', entries'', 4 * (steps + 1))
  {
    SpendsTwice(u, next, entries, next', entries', 4 * steps, next'', entries'', 4);
  }

  lemma SpendsMore(u: Sectors, next: nat, entries: nat, next': nat, entries': nat, c: nat, c': nat)
    requires Spends(u, next, entries, next', entries', c) && c <= c'
    ensures Spends(u, next, entries, next', entries', c')
  {
    assert Note(Key);
    TimesMono(c, c', Cs(u));
  }

  lemma SpendsTwice(u: Sectors, next: nat, entries: nat, next': nat, entries': nat, c: nat, next'': nat,
                    entries'': nat, c': nat)
    requires Spends(u, next, entries, next', entries', c) && Spends(u, next', entries', next'', entries'', c')
    ensures Spends(u, next, entries, next'', entries'', c + c')
  {
    assert Note(Key);
    TimesAdd(c, c', Cs(u));
    QuotMono(next', next'', Cs(u));
    QuotMono(Quot(next', Cs(u)), Quot(next'', Cs(u)), PerBlock(u));
  }

  /** An allocation adds a cluster and perhaps a refcount block. */
  lemma AllocSpends(g: Geometry, s: State, s': State, ok: bool)
    requires (s', ok) == AllocCluster(g, s) && |s.file| <= s.next
    ensures Spends(g.u, s.next, |s.refcountTable|, s'.next, |s'.refcountTable|, 2)
  {
    var (s1, ok1) := Grow(g, s);
    GrowIs(g, s, s1, ok1);
    TimesIs(2, Cs(g.u));
    if ok1 {
      SetEffect(g, s1, s', s.next, Quot(Quot(s.next, Cs(g.u)), PerBlock(g.u)), ok);
      QuotMono(s.next, s'.next, Cs(g.u));
      QuotMono(Quot(s.next, Cs(g.u)), Quot(s'.next, Cs(g.u)), PerBlock(g.u));
    }
  }

  // ----- a write, chunk by chunk

  datatype WriteResult = Written | PastEnd | NoSpace | BackingUnreadable

  /** What a write can change of an image: the disk, the mapping, the cursor and the
      length of the refcount table. */
  datatype View = View(disk: seq<Option<byte>>, tables: Tables, next: nat, entries: nat)

  /** A write of data at `offset` to an image over a base, and the image before it. */
  datatype Job = Job(u: Sectors, limit: nat, base: Base, offset: nat, data: seq<byte>, start: View)

  /** What writing the chunk d at pos has done. */
  ghost predicate ChunkDone(j: Job, v: View, v': View, pos: nat, d: seq<byte>, r: WriteResult) {
    && pos + |d| <= |v.disk| && v'.disk == (if r == Written then Patched(v.disk, pos, d) else v.disk)
    && Spends(j.u, v.next, v.entries, v'.next, v'.entries, 4) && SameElsewhere(v.tables, v'.tables, j.u, pos)
    && r != PastEnd && (r == NoSpace ==> v'.next > j.limit)
    && (r == BackingUnreadable ==>
          HostOf(v.tables, j.u, pos) == None && |d| < Cs(j.u) && !BaseReadable(j.base, Start(pos, j.u), Cs(j.u)))
    && (r == Written && HostOf(v.tables, j.u, pos) == None && |d| < Cs(j.u) ==>
          BaseReadable(j.base, Start(pos, j.u), Cs(j.u)))
  }

  /** The first n bytes have been written in so many steps: the disk differs there from
      what it was, and in nothing else.  If r says so, the next chunk could not be
      written. */
  ghost predicate Doing(j: Job, v: View, n: nat, steps: nat, r: WriteResult) {
    && n <= |j.data| && j.offset + |j.data| <= |j.start.disk|
    && v.disk == Patched(j.start.disk, j.offset, j.data[..n])
    && Spends(j.u, j.start.next, j.start.entries, v.next, v.entries, 4 * steps)
    && steps + (if r == Written then Touched(j.u, j.offset + n, |j.data| - n)
         else 0) <= Touched(j.u, j.offset, |j.data|)
    && r != PastEnd && (r == NoSpace ==> v.next > j.limit)
    && (r == Written ==> Advanced(j.start.tables, v.tables, j.u, j.base, j.offset, |j.data|, n))
    && (r == BackingUnreadable ==>
          n < |j.data| && Stuck(j.start.tables, j.u, j.base, j.offset + n, j.offset, |j.data|))
  }

  /** The same as one fact. */
  ghost predicate InProgress(j: Job, v: View, n: nat, steps: nat, r: WriteResult) {
    forall k {:trigger Note(k)} :: Note(k) ==> Doing(j, v, n, steps, r)
  }

  lemma BeginJob(j: Job)
    requires j.offset + |j.data| <= |j.start.disk|
    ensures InProgress(j, j.start, 0, 0, Written)
  {
    PatchNothing(j.start.disk, j.offset, j.data);
    Begin(j.start.tables, j.u, j.base, j.offset, |j.data|);
    SpendsNothing(j.u, j.start.next, j.start.entries, 0);
  }

  /** The size of the next chunk. */
  function ChunkSize(u: Sectors, pos: nat, left: nat): nat {
    if Cs(u) - Rem(pos, Cs(u)) < left then Cs(u) - Rem(pos, Cs(u)) else left
  }

  lemma NextStep(j: Job, v: View, v': View, n: nat, n': nat, d: seq<byte>, steps: nat, r: WriteResult)
    requires InProgress(j, v, n, steps, Written) && n < |j.data|
    requires |d| == ChunkSize(j.u, j.offset + n, |j.data| - n) && d == j.data[n..n + |d|]
    requires ChunkDone(j, v, v', j.offset + n, d, r) && n' == if r == Written then n + |d| else n
    ensures InProgress(j, v', n', steps + 1, r)
  {
    assert Note(Key);
    SpendsStep(j.u, j.start.next, j.start.entries, v.next, v.entries, steps, v'.next, v'.entries);
    TouchedNext(j.u, j.offset + n, |j.data| - n, |d|);
    NextChunk(j.start.tables, v.tables, j.u, j.base, j.offset, |j.data|, n, |d|);
    if r == Written {
      NextWritten(j, v, v', n, d);
    } else if r == BackingUnreadable {
      ChunkStuck(j.start.tables, j.u, j.base, j.offset + n, |d|, j.offset, |j.data|, j.offset + n);
    }
  }

  lemma NextWritten(j: Job, v: View, v': View, n: nat, d: seq<byte>)
    requires n + |d| <= |j.data| && d == j.data[n..n + |d|] && j.offset + |j.data| <= |j.start.disk|
    requires v.disk == Patched(j.start.disk, j.offset, j.data[..n]) && ChunkDone(j, v, v', j.offset + n, d, Written)
    requires Advanced(j.start.tables, v.tables, j.u, j.base, j.offset, |j.data|, n)
    requires Chunk(j.u, j.offset + n, |d|, j.offset, |j.data|)
    requires HostOf(v.tables, j.u, j.offset + n) == HostOf(j.start.tables, j.u, j.offset + n)
    ensures v'.disk == Patched(j.start.disk, j.offset, j.data[..n + |d|])
    ensures Advanced(j.start.tables, v'.tables, j.u, j.base, j.offset, |j.data|, n + |d|)
  {
    PatchAppend(j.start.disk, j.offset, j.data, n, |d|);
    WrittenChunk(j.start.tables, v.tables, v'.tables, j.u, j.base, j.offset, |j.data|, n, |d|);
  }

  /** What is known of the write when the loop has ended. */
  lemma EndJob(j: Job, v: View, n: nat, steps: nat, r: WriteResult)
    requires InProgress(j, v, n, steps, r) && (r == Written ==> n == |j.data|)
    requires n <= |j.data| && j.offset + |j.data| <= |j.start.disk|
    ensures r != PastEnd && v.disk == Patched(j.start.disk, j.offset, j.data[..n])
    ensures Spending(j.u, j.start.next, j.start.entries, v.next, v.entries, 4 * Touched(j.u, j.offset, |j.data|))
    ensures r == NoSpace ==> v.next > j.limit
    ensures r == BackingUnreadable ==>
      n < |j.data| && Stuck(j.start.tables, j.u, j.base, j.offset + n, j.offset, |j.data|)
    ensures r == Written ==> Unobstructed(j.start.tables, j.u, j.base, j.offset, |j.data|)
  {
    assert Note(Key);
    SpendsMore(j.u, j.start.next, j.start.entries, v.next, v.entries, 4 * steps, 4 * Touched(j.u, j.offset, |j.data|));
    SpendsAtMost(j.u, j.start.next, j.start.entries, v.next, v.entries, 4 * Touched(j.u, j.offset, |j.data|));
    if r == Written {
      End(j.start.tables, v.tables, j.u, j.base, j.offset, |j.data|);
    }
  }
}
