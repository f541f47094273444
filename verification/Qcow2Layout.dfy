/** The layout of the host file that the invariant describes, in terms of the
    pointers that the image itself holds. */
module Qcow2Layout {
  import opened Bytes
  import opened Qcow2Image
  import opened Qcow2State
  import opened Qcow2Ops
  import opened Qcow2Count
  import opened Qcow2Correct

  datatype Extent = Extent(start: nat, len: nat)

  /** The bytes of the host file that a structure occupies, as the header, the L1
      table, the refcount table and the L2 tables say. */
  function ExtentOf(g: Geometry, s: State, r: Role): Option<Extent> {
    match r
    case HeaderCluster => Some(Extent(0, Cs(g.u)))
    case L1Table => Some(Extent(g.l1Offset, 8 * |s.l1|))
    case RefcountTable => Some(Extent(g.rcOffset, g.rcBytes))
    case RefcountBlock(k) => if k < |s.refcountTable| &&
      s.refcountTable[k] != 0 then Some(Extent(s.refcountTable[k], Cs(g.u))) else None
    case L2Table(i) => if i < |s.l1| && L1Target(s.l1[i]) != 0 then Some(Extent(L1Target(s.l1[i]), Cs(g.u))) else None
    case Data(i, j) => (
      match Host(s.tables, i, j)
      case Some(h) => if h >= 0 then Some(Extent(h, Cs(g.u))) else None
      case None => None)
    case Unlinked => None
  }

  predicate Disjoint(a: Extent, b: Extent) {
    a.len == 0 || b.len == 0 || a.start + a.len <= b.start || b.start + b.len <= a.start
  }

  predicate Table(r: Role) { r == L1Table || r == RefcountTable }

  /** Where a structure lies, the cluster there plays its role. */
  lemma ExtentRole(g: Geometry, s: State, r: Role, e: Extent)
    requires Sound(g, s) && ExtentOf(g, s, r) == Some(e) && e.len > 0
    ensures Aligned(s.own, g.u, |s.file|)
    ensures e.start in s.own && s.own[e.start] == r && e.start + e.len <= |s.file| <= s.next
    ensures Multiple(e.start, Cs(g.u))
    ensures !Table(r) ==> e.len == Cs(g.u)
    ensures Table(r) ==> Region(s.own, e.start, e.len, r)
  {
    Open(g, s);
    if Table(r) {
      TableRole(g, s, r, e);
    } else {
      ClusterRole(g, s, r, e);
    }
  }

  lemma TableRole(g: Geometry, s: State, r: Role, e: Extent)
    requires Fixed(g, s) && Table(r) && ExtentOf(g, s, r) == Some(e) && e.len > 0
    ensures Region(s.own, e.start, e.len, r) && e.start + e.len <= |s.file|
  {
  }

  lemma ClusterRole(g: Geometry, s: State, r: Role, e: Extent)
    requires Mapped(s.l1, s.tables, s.own, g.u) && Aligned(s.own, g.u, |s.file|) && Blocks(s.refcountTable, s.own)
    requires 0 in s.own && s.own[0] == HeaderCluster && |s.file| <= REACH && !Table(r) && ExtentOf(g, s, r) == Some(e)
    ensures e.start in s.own && s.own[e.start] == r && e.len == Cs(g.u)
  {
    if r.L2Table? {
      L1Entry(s.l1, s.tables, s.own, g.u, |s.file|, r.i);
    }
  }

  lemma StartsApart(own: Owners, u: Sectors, end: nat, r: Role, e: Extent, r': Role, e': Extent)
    requires Aligned(own, u, end) && e.start in own && own[e.start] == r && e'.start in own && own[e'.start] == r'
    requires r != r' && e.start < e'.start
    requires !Table(r) ==> e.len == Cs(u)
    requires Table(r) ==> Region(own, e.start, e.len, r)
    ensures e.start + e.len <= e'.start
  {
    if !Table(r) {
      Apart(e.start, e'.start, Cs(u));
    }
  }

  /** Header, L1 table, refcount table, refcount blocks, L2 tables and data clusters
      start on cluster boundaries, lie below the allocation cursor and never share
      a byte; in particular no two guest clusters share a host cluster. */
  lemma LayoutDisjoint(g: Geometry, s: State, r: Role, e: Extent, r': Role, e': Extent)
    requires Sound(g, s) && r != r' && ExtentOf(g, s, r) == Some(e) && ExtentOf(g, s, r') == Some(e')
    ensures Disjoint(e, e')
    ensures e.len > 0 ==> Multiple(e.start, Cs(g.u)) && e.start + e.len <= |s.file| <= s.next
  {
    if e.len > 0 {
      ExtentRole(g, s, r, e);
      if e'.len > 0 {
        ExtentRole(g, s, r', e');
        if e.start < e'.start {
          StartsApart(s.own, g.u, |s.file|, r, e, r', e');
        } else {
          StartsApart(s.own, g.u, |s.file|, r', e', r, e);
        }
      }
    }
  }

  /** Where byte p of the disk is, which is byte k of cluster j of table i: the L1 entry
      leads to the table and the L2 entry to the cluster in the host file, both with bit
      63 set; where there is no entry, the byte is the base's. */
  ghost predicate Lives(t: Tables, l1: seq<nat>, f: seq<byte>, base: Base, i: nat, j: nat, k: nat, p: nat,
                        b: Option<byte>) {
    if i !in t || j >= |t[i]| || t[i][j] == 0 then b == BaseByte(base, p) else
    i < |l1| && l1[i] == L1Target(l1[i]) + 0x8000_0000_0000_0000 && At(f, t[i][j], k, b)
  }

  /** b is byte k of the cluster that an entry leads to. */
  predicate At(f: seq<byte>, entry: nat, k: nat, b: Option<byte>) {
    && 0x8000_0000_0000_0000 < entry && entry - 0x8000_0000_0000_0000 + k < |f|
    && b == Some(f[entry - 0x8000_0000_0000_0000 + k])
  }

  lemma ByteLives(g: Geometry, s: State, base: Base, i: nat, j: nat, k: nat, p: nat)
    requires Sound(g, s) && j < 64 * g.u && k < 512 * g.u && p == 512 * g.u * (64 * g.u * i + j) + k < g.size
    ensures Lives(s.tables, s.l1, s.file, base, i, j, k, p, DiskOf(g, s, base)[p])
  {
    Digits(p, g.u, i, j, k);
    StateFollowed(g, s, base, i, j, k, p);
  }

  lemma StateFollowed(g: Geometry, s: State, base: Base, i: nat, j: nat, k: nat, p: nat)
    requires Sound(g, s) && k < Cs(g.u)
    ensures Lives(s.tables, s.l1, s.file, base, i, j, k, p, ByteIn(s.tables, s.file, base, p, i, j, k))
  {
    Open(g, s);
    ByteFollowed(s.l1, s.tables, s.own, g.u, s.file, base, i, j, k, p);
  }

  lemma ByteFollowed(l1: seq<nat>, t: Tables, own: Owners, u: Sectors, f: seq<byte>, base: Base, i: nat, j: nat, k: nat,
                     p: nat)
    requires Mapped(l1, t, own, u) && Aligned(own, u, |f|) && |f| <= REACH && 0 in own && own[0] == HeaderCluster
    requires k < Cs(u)
    ensures Lives(t, l1, f, base, i, j, k, p, ByteIn(t, f, base, p, i, j, k))
  {
    if Host(t, i, j).Some? {
      L1Entry(l1, t, own, u, |f|, i);
      L2Entry(l1, t, own, u, |f|, i, j);
    }
  }

  /** The refcount of cluster n: two bytes, the high one first, in the block of its range. */
  lemma RefcountPlace(rt: seq<nat>, f: seq<byte>, u: Sectors, k: nat, r: nat)
    requires r < 256 * u && HasBlock(rt, k) && rt[k] + 512 * u <= |f|
    ensures var high: nat, low: nat := f[rt[k] + 2 * r], f[rt[k] + 2 * r + 1];
      Refcount(rt, f, u, 256 * u * k + r) == 256 * high + low
  {
    QuotRem(256 * u * k + r, 256 * u, k, r);
    TwoBytes(f[rt[k] + 2 * r..rt[k] + 2 * r + 2]);
  }

  lemma TwoBytes(b: seq<byte>)
    requires |b| == 2
    ensures var high: nat, low: nat := b[0], b[1]; FromBE(b) == 256 * high + low
  {
    assert b[..1] == [b[0]] && b[..1][..0] == [];
    assert FromBE(b[..1]) == 256 * FromBE(b[..1][..0]) + b[0];
  }

  /** Every cluster of the file has refcount one, as long as another one has room, or
      growing the file has never failed.  The file ends at the allocation cursor
      unless that has passed the limit. */
  lemma RefcountsAreOne(g: Geometry, s: State, n: nat)
    requires Sound(g, s) && CountsKnown(g, s) && n < Quot(|s.file|, Cs(g.u))
    ensures Refcount(s.refcountTable, s.file, g.u, n) == 1 && Cs(g.u) * n + Cs(g.u) <= |s.file|
    ensures (s.next <= g.limit ==> |s.file| == s.next)
  {
    Open(g, s);
    CountedAt(s.refcountTable, s.file, g.u, Quot(|s.file|, Cs(g.u)), n);
    DivMod(|s.file|, Cs(g.u));
    MulLess(Cs(g.u), n, Quot(|s.file|, Cs(g.u)));
  }

  /** The host has room for one more cluster, but not for the refcount block that it
      needs. */
  predicate RoomForOne(g: Geometry, s: State) {
    && s.next + Cs(g.u) <= g.limit < s.next + 2 * Cs(g.u)
    && !HasBlock(s.refcountTable, Quot(Quot(s.next, Cs(g.u)), PerBlock(g.u)))
  }

  /** Allocation leaves a cluster of the file without refcount exactly when there is room
      for it but not for its refcount block: the file has then grown by the cluster,
      and the allocation has failed. */
  lemma RefcountLost(g: Geometry, s: State, s': State, ok: bool, n: nat)
    requires Sound(g, s) && CountsKnown(g, s) && |s.file| == s.next && n == Quot(s.next, Cs(g.u))
    requires (s', ok) == AllocCluster(g, s)
    ensures RoomForOne(g, s) <==> !Counted(s'.refcountTable, s'.file, g.u, Quot(|s'.file|, Cs(g.u)))
    ensures RoomForOne(g, s) ==>
      !ok && |s'.file| == |s.file| + Cs(g.u) && n < Quot(|s'.file|, Cs(g.u)) &&
        Refcount(s'.refcountTable, s'.file, g.u, n) == 0
  {
    Open(g, s);
    var (s1, ok1) := Grow(g, s);
    GrowIs(g, s, s1, ok1);
    if ok1 {
      GrownCounting(g, s, s1, n);
      SetEffect(g, s1, s', s.next, Quot(n, PerBlock(g.u)), ok);
      if ok {
        AllocCounts(g, s1, s', s.next, n, ok);
        CountedNow(g, s', n + 1);
      } else {
        SetRefcountCore(g, s1, s', s.next, Quot(n, PerBlock(g.u)), ok);
        NotCounted(s'.refcountTable, s'.file, g.u, n);
      }
    }
  }

  /** Two cached tables never have the same age, so that the least recently used
      one is unique. */
  lemma AgesDiffer(g: Geometry, s: State, i: nat, k: nat)
    requires Sound(g, s) && i in s.cache && k in s.cache && i != k
    ensures s.cache[i].lastAccess != s.cache[k].lastAccess
  {
    Open(g, s);
  }
}
