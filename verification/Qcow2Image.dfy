/** What the parts of a QCOW2 image mean together: the host file, the L1 table,
    the logical L2 tables, the write-back cache of L2 tables and the refcount
    table, and the flat guest disk they stand for (sections "Cluster mapping"
    and "Host cluster management" of the QCOW2 format).

    The layout invariant is carried by a map from host clusters to the one role
    each of them plays: two things that claim the same cluster would give it two
    roles. */
module Qcow2Image {
  import opened Bytes
  import opened Qcow2Header

  /** L1 and L2 entries carry bit 63 when the cluster is allocated. */
  const COPIED := 0x8000_0000_0000_0000
  /** Host offsets reachable through the L1 mask (bits 9 to 55). */
  const REACH := 0x100_0000_0000_0000

  // ----- entries and tables

  /** `entry & L1_OFFSET_MASK` */
  function L1Target(e: nat): nat { e % REACH / 512 * 512 }

  /** `entry & L2_OFFSET_MASK` */
  function L2Target(e: nat): nat { e % 0x4000_0000_0000_0000 / 512 * 512 }

  /** `entry & L2_FLAG_COMPRESSED != 0` */
  predicate Compressed(e: nat) { e / 0x4000_0000_0000_0000 % 2 == 1 }

  lemma Targets(o: nat)
    requires o % 512 == 0 && o < REACH
    ensures L1Target(o + COPIED) == o && L2Target(o + COPIED) == o && !Compressed(o + COPIED)
  {
  }

  /** The masks take bits 9 to 55 and bits 9 to 61 of an entry, and the flag is bit 62. */
  lemma Masks(low: nat, mid: nat, high: nat)
    requires low < 512
    ensures mid < 0x8000_0000_0000 ==> L1Target(0x100_0000_0000_0000 * high + 512 * mid + low) == 512 * mid
    ensures mid < 0x20_0000_0000_0000 ==> L2Target(0x4000_0000_0000_0000 * high + 512 * mid + low) == 512 * mid
    ensures mid < 0x20_0000_0000_0000 ==>
      (Compressed(0x4000_0000_0000_0000 * high + 512 * mid + low) <==> high % 2 == 1)
  {
    if mid < 0x20_0000_0000_0000 {
      QuotRem(0x4000_0000_0000_0000 * high + 512 * mid + low, 0x4000_0000_0000_0000, high, 512 * mid + low);
    }
    if mid < 0x8000_0000_0000 {
      QuotRem(0x100_0000_0000_0000 * high + 512 * mid + low, 0x100_0000_0000_0000, high, 512 * mid + low);
    }
  }

  /** A table of big-endian 64-bit entries. */
  function EncodeTable(t: seq<nat>): (b: seq<byte>)
    ensures |b| == 8 * |t|
  {
    seq(8 * |t|, k requires 0 <= k < 8 * |t| => ToBE(t[k / 8], 8)[k % 8])
  }

  function DecodeTable(b: seq<byte>): (t: seq<nat>)
    ensures |t| == |b| / 8
  {
    seq(|b| / 8, i requires 0 <= i < |b| / 8 => FromBE(b[8 * i..8 * i + 8]))
  }

  lemma EntryBytes(t: seq<nat>, i: nat)
    requires i < |t|
    ensures EncodeTable(t)[8 * i..8 * i + 8] == ToBE(t[i], 8)
  {
    var e := EncodeTable(t)[8 * i..8 * i + 8];
    forall k | 0 <= k < 8 ensures e[k] == ToBE(t[i], 8)[k] {
      assert (8 * i + k) / 8 == i && (8 * i + k) % 8 == k;
    }
  }

  lemma TableRoundTrip(t: seq<nat>)
    requires forall i :: 0 <= i < |t| ==> t[i] < 0x1_0000_0000_0000_0000
    ensures DecodeTable(EncodeTable(t)) == t
  {
    forall i | 0 <= i < |t| ensures DecodeTable(EncodeTable(t))[i] == t[i] {
      EntryRoundTrip(t, i);
    }
  }

  lemma EntryRoundTrip(t: seq<nat>, i: nat)
    requires i < |t| && t[i] < 0x1_0000_0000_0000_0000
    ensures FromBE(EncodeTable(t)[8 * i..8 * i + 8]) == t[i]
  {
    EntryBytes(t, i);
    RadixValues();
    FromToBE(t[i], 8);
  }

  lemma ZeroTable(b: seq<byte>)
    requires forall k :: 0 <= k < |b| ==> b[k] == 0
    ensures DecodeTable(b) == seq(|b| / 8, _ => 0)
  {
    forall i | 0 <= i < |b| / 8 ensures DecodeTable(b)[i] == 0 {
      ZeroNumber(b[8 * i..8 * i + 8]);
    }
  }

  lemma {:induction false} ZeroNumber(s: seq<byte>)
    requires forall k :: 0 <= k < |s| ==> s[k] == 0
    ensures FromBE(s) == 0
  {
    if s != [] {
      ZeroNumber(s[..|s| - 1]);
    }
  }

  // ----- the guest disk

  /** A cluster size as a number u of 512-byte sectors, which keeps the sizes
      derived from it linear. */
  type Sectors = u: int | u >= 1 witness 1

  /** Cluster size in bytes. */
  function Cs(u: Sectors): nat { 512 * u }

  /** L2 entries per table: cluster size / 8. */
  function PerTable(u: Sectors): nat { 64 * u }

  /** 16-bit refcounts per refcount block: cluster size / 2. */
  function PerBlock(u: Sectors): nat { 256 * u }

  /** An L2 table with no entry set. */
  function EmptyTable(u: Sectors): (t: seq<nat>)
    ensures |t| == PerTable(u) && forall j :: 0 <= j < |t| ==> t[j] == 0
  {
    seq(PerTable(u), _ => 0)
  }

  /** What lies below an image: nothing, a raw file, or another image's disk. */
  datatype Base = NoBase | RawBase(bytes: seq<byte>) | LayerBase(disk: seq<Option<byte>>)

  /** The byte that the base provides at p; None where reading it is an error,
      that is, past the virtual size of a QCOW2 base. */
  function BaseByte(b: Base, p: nat): Option<byte> {
    match b
    case NoBase => Some(0)
    case RawBase(s) => Some(if p < |s| then s[p] else 0)
    case LayerBase(d) => if p < |d| then d[p] else None
  }

  /** The logical L2 tables, by L1 index. */
  type Tables = map<nat, seq<nat>>

  /** Where guest cluster (i, j) lives in the host file, if it is allocated. */
  function Host(t: Tables, i: nat, j: nat): Option<int> {
    if i in t && j < |t[i]| && t[i][j] != 0 then Some(t[i][j] - COPIED) else None
  }

  /** Byte p of the guest disk, which is byte k of guest cluster (i, j). */
  function ByteIn(t: Tables, f: seq<byte>, base: Base, p: nat, i: nat, j: nat, k: nat): Option<byte> {
    match Host(t, i, j)
    case None => BaseByte(base, p)
    case Some(h) => if 0 <= h && h + k < |f| then Some(f[h + k]) else None
  }

  function L1Index(p: nat, u: Sectors): nat { Quot(Quot(p, Cs(u)), PerTable(u)) }

  function L2Index(p: nat, u: Sectors): (j: nat)
    ensures j < PerTable(u)
  {
    Rem(Quot(p, Cs(u)), PerTable(u))
  }

  /** Where the cluster that holds p starts. */
  function Start(p: nat, u: Sectors): (s: nat)
    ensures s + Rem(p, Cs(u)) == p
  {
    DivMod(p, Cs(u));
    p - Rem(p, Cs(u))
  }

  function ByteAt(t: Tables, f: seq<byte>, u: Sectors, base: Base, p: nat): Option<byte>
  {
    ByteIn(t, f, base, p, L1Index(p, u), L2Index(p, u), Rem(p, Cs(u)))
  }

  /** The flat guest disk: allocated cluster, else base byte, else zero. */
  function Disk(t: Tables, f: seq<byte>, u: Sectors, base: Base, size: nat): (d: seq<Option<byte>>)
    ensures |d| == size
  {
    seq(size, p requires 0 <= p => ByteAt(t, f, u, base, p))
  }

  // ----- the layout of the host file

  datatype Role =
    | HeaderCluster | RefcountTable | L1Table | RefcountBlock(k: nat)
    | L2Table(i: nat) | Data(i: nat, j: nat) | Unlinked

  type Owners = map<nat, Role>

  ghost predicate Multiple(o: nat, c: nat)
    requires c > 0
  {
    o == 0 || (c <= o && Multiple(o - c, c))
  }

  lemma {:induction false} Apart(a: nat, b: nat, c: nat)
    requires c > 0 && Multiple(a, c) && Multiple(b, c) && a < b
    ensures a + c <= b
  {
    if a > 0 {
      Apart(a - c, b - c, c);
    }
  }

  lemma {:induction false} MultipleSector(o: nat, u: Sectors)
    requires Multiple(o, Cs(u))
    ensures o % 512 == 0
  {
    if o > 0 {
      MultipleSector(o - Cs(u), u);
      assert o == (o - Cs(u)) + 512 * u;
    }
  }

  /** Host clusters with a role are aligned and lie in the file. */
  ghost predicate Aligned(own: Owners, u: Sectors, end: nat) {
    forall o :: o in own ==> o + Cs(u) <= end && Multiple(o, Cs(u))
  }

  /** The clusters from `at` on that hold the next `len` bytes play role r. */
  ghost predicate Region(own: Owners, at: nat, len: nat, r: Role) {
    && (len > 0 ==> at in own && own[at] == r)
    && forall o :: o in own && at <= o < at + len ==> own[o] == r
  }

  /** L1 entries point to L2 tables, and L2 entries to data clusters. */
  ghost predicate Mapped(l1: seq<nat>, t: Tables, own: Owners, u: Sectors)
  {
    && (forall i: nat :: i < |l1| && i !in t ==> l1[i] == 0)
    && (forall i :: i in t ==>
          && i < |l1| && |t[i]| == PerTable(u)
          && COPIED <= l1[i] && l1[i] - COPIED in own && own[l1[i] - COPIED] == L2Table(i))
    && (forall i: nat, j: nat :: Host(t, i, j).Some? ==>
          Host(t, i, j).value in own && own[Host(t, i, j).value] == Data(i, j))
  }

  /** The refcount table points to refcount blocks. */
  ghost predicate Blocks(rt: seq<nat>, own: Owners) {
    forall k :: 0 <= k < |rt| && rt[k] != 0 ==> rt[k] in own && own[rt[k]] == RefcountBlock(k)
  }

  // ----- the cache

  datatype CachedTable = CachedTable(entries: seq<nat>, dirty: bool, hostOffset: nat, lastAccess: nat)

  type Cache = map<nat, CachedTable>

  function DiskTable(f: seq<byte>, at: nat, u: Sectors): seq<nat>
    requires at + Cs(u) <= |f|
  {
    DecodeTable(f[at..at + Cs(u)])
  }

  /** The logical table is the cached copy; a table that is not cached, or cached
      clean, is on disk. */
  ghost predicate Coherent(t: Tables, l1: seq<nat>, cache: Cache, f: seq<byte>, u: Sectors) {
    && (forall i :: i in cache ==>
          i in t && i < |l1| && cache[i].entries == t[i] && l1[i] == cache[i].hostOffset + COPIED)
    && (forall i :: i in t && !(i in cache && cache[i].dirty) ==>
          i < |l1| && COPIED <= l1[i] && l1[i] - COPIED + Cs(u) <= |f| && t[i] == DiskTable(f, l1[i] - COPIED, u))
  }

  /** Access stamps are distinct (`stamps` maps each back to its table) and none is
      ahead of the counter. */
  ghost predicate Stamped(cache: Cache, stamps: map<nat, nat>, counter: nat) {
    forall i :: i in cache ==>
      cache[i].lastAccess <= counter && cache[i].lastAccess in stamps && stamps[cache[i].lastAccess] == i
  }

  // ----- refcounts

  /** Entry r of refcount block k. */
  function CountIn(rt: seq<nat>, f: seq<byte>, k: nat, r: nat): nat {
    if k < |rt| && rt[k] != 0 && rt[k] + 2 * r + 2 <= |f|
    then FromBE(f[rt[k] + 2 * r..rt[k] + 2 * r + 2]) else 0
  }

  /** The refcount recorded for host cluster number n. */
  function Refcount(rt: seq<nat>, f: seq<byte>, u: Sectors, n: nat): nat
  {
    CountIn(rt, f, Quot(n, PerBlock(u)), Rem(n, PerBlock(u)))
  }

  /** The refcount table has a block for range k. */
  predicate HasBlock(rt: seq<nat>, k: nat) { k < |rt| && rt[k] != 0 }

  /** The number of ranges that n clusters begin. */
  function Ranges(n: nat, u: Sectors): nat { Quot(n + PerBlock(u) - 1, PerBlock(u)) }

  /** Only ranges that the first n clusters begin have a block. */
  ghost predicate Begun(rt: seq<nat>, u: Sectors, n: nat) {
    forall k: nat :: HasBlock(rt, k) ==> k < Ranges(n, u)
  }

  lemma BegunMore(rt: seq<nat>, u: Sectors, n: nat, n': nat)
    requires Begun(rt, u, n) && n <= n'
    ensures Begun(rt, u, n')
  {
    QuotMono(n + PerBlock(u) - 1, n' + PerBlock(u) - 1, PerBlock(u));
  }

  /** A block for the range of cluster c may be added once there is a cluster c. */
  lemma BegunStep(rt: seq<nat>, rt': seq<nat>, u: Sectors, n: nat, n': nat, c: nat)
    requires Begun(rt, u, n) && n <= n' && c < n'
    requires forall k: nat :: HasBlock(rt', k) ==> HasBlock(rt, k) || k == Quot(c, PerBlock(u))
    ensures Begun(rt', u, n')
  {
    BegunMore(rt, u, n, n');
    QuotMono(c + PerBlock(u), n' + PerBlock(u) - 1, PerBlock(u));
    DivMod(c, PerBlock(u));
    QuotRem(c + PerBlock(u), PerBlock(u), Quot(c, PerBlock(u)) + 1, Rem(c, PerBlock(u)));
  }

  // ----- consequences and steps

  /** f' extends f and differs from it at most in the cluster at o. */
  ghost predicate OnlyAt(f: seq<byte>, f': seq<byte>, o: nat, u: Sectors) {
    |f| <= |f'| && forall x :: 0 <= x < |f| && !(o <= x < o + Cs(u)) ==> f'[x] == f[x]
  }

  lemma Elsewhere(f: seq<byte>, f': seq<byte>, o: nat, u: Sectors, b: nat, n: nat)
    requires OnlyAt(f, f', o, u) && b + n <= |f| && (b + n <= o || o + Cs(u) <= b)
    ensures f'[b..b + n] == f[b..b + n]
  {
  }

  /** Clusters that hold, or are about to hold, guest data are the same in f'. */
  ghost predicate Kept(own: Owners, f: seq<byte>, f': seq<byte>, u: Sectors) {
    && |f| <= |f'|
    && forall b :: b in own && (own[b].Data? || own[b].Unlinked?) && b + Cs(u) <= |f| ==>
      f'[b..b + Cs(u)] == f[b..b + Cs(u)]
  }

  lemma KeptStep(own: Owners, f0: seq<byte>, f: seq<byte>, f': seq<byte>, o: nat, u: Sectors)
    requires Kept(own, f0, f, u) && OnlyAt(f, f', o, u) && Clear(own, o, u)
    requires o in own ==> !own[o].Data? && !own[o].Unlinked?
    ensures Kept(own, f0, f', u)
  {
    forall b | b in own && (own[b].Data? || own[b].Unlinked?) && b + Cs(u) <= |f0|
      ensures f'[b..b + Cs(u)] == f0[b..b + Cs(u)]
    {
      Elsewhere(f, f', o, u, b, Cs(u));
    }
  }

  /** The cluster at o overlaps no other cluster with a role. */
  ghost predicate Clear(own: Owners, o: nat, u: Sectors) {
    forall b :: b in own && b != o ==> b + Cs(u) <= o || o + Cs(u) <= b
  }

  /** Bytes `used` up to `len` of a region at `at` are zero. */
  ghost predicate ZeroTail(f: seq<byte>, at: nat, used: nat, len: nat) {
    forall x :: at + used <= x < at + len && x < |f| ==> f[x] == 0
  }

  /** Writing to the cluster at o leaves a region alone of which it is no part. */
  lemma RegionKept(own: Owners, f: seq<byte>, f': seq<byte>, o: nat, u: Sectors, at: nat, len: nat, r: Role, x: nat)
    requires Region(own, at, len, r) && Clear(own, o, u) && OnlyAt(f, f', o, u) && at + len <= |f| && at <= x < at + len
    requires if o in own then own[o] != r else at + len <= o
    ensures f'[x] == f[x]
  {
  }

  lemma AlignedClear(own: Owners, u: Sectors, end: nat, o: nat)
    requires Aligned(own, u, end) && Multiple(o, Cs(u))
    ensures Clear(own, o, u)
  {
    forall b | b in own && b != o ensures b + Cs(u) <= o || o + Cs(u) <= b {
      if b < o { Apart(b, o, Cs(u)); } else { Apart(o, b, Cs(u)); }
    }
  }

  lemma ByteUnchanged(l1: seq<nat>, t: Tables, own: Owners, f: seq<byte>, f': seq<byte>, o: nat, u: Sectors, i: nat,
                      j: nat, k: nat)
    requires Mapped(l1, t, own, u) && Clear(own, o, u) && OnlyAt(f, f', o, u)
    requires k < Cs(u) && Host(t, i, j).Some? && 0 <= Host(t, i, j).value <= |f| - Cs(u)
    requires o in own ==> !own[o].Data?
    ensures f'[Host(t, i, j).value + k] == f[Host(t, i, j).value + k]
  {
  }

  /** Changing a cluster that holds no guest data does not change the disk. */
  lemma DiskUnchanged(l1: seq<nat>, t: Tables, own: Owners, f: seq<byte>, f': seq<byte>, o: nat, u: Sectors,
                      base: Base, size: nat)
    requires Mapped(l1, t, own, u) && Clear(own, o, u) && OnlyAt(f, f', o, u)
    requires forall b :: b in own ==> b + Cs(u) <= |f|
    requires o in own ==> !own[o].Data?
    ensures Disk(t, f', u, base, size) == Disk(t, f, u, base, size)
  {
    forall p: nat | p < size ensures ByteAt(t, f', u, base, p) == ByteAt(t, f, u, base, p) {
      var i, j, k := L1Index(p, u), L2Index(p, u), Rem(p, Cs(u));
      if Host(t, i, j).Some? {
        ByteUnchanged(l1, t, own, f, f', o, u, i, j, k);
      }
    }
  }

  lemma TableKept(f: seq<byte>, f': seq<byte>, o: nat, u: Sectors, b: nat, e: seq<nat>)
    requires OnlyAt(f, f', o, u) && b + Cs(u) <= |f| && (b + Cs(u) <= o || o + Cs(u) <= b) && e == DiskTable(f, b, u)
    ensures e == DiskTable(f', b, u)
  {
    Elsewhere(f, f', o, u, b, Cs(u));
  }

  lemma TableUnchanged(l1: seq<nat>, t: Tables, own: Owners, f: seq<byte>, f': seq<byte>, o: nat, u: Sectors, i: nat)
    requires Mapped(l1, t, own, u) && Clear(own, o, u) && OnlyAt(f, f', o, u) && (o in own ==> own[o] != L2Table(i))
    requires i in t && l1[i] - COPIED + Cs(u) <= |f| && t[i] == DiskTable(f, l1[i] - COPIED, u)
    ensures t[i] == DiskTable(f', l1[i] - COPIED, u)
  {
    TableKept(f, f', o, u, l1[i] - COPIED, t[i]);
  }

  /** Changing a cluster that holds no L2 table keeps the cache coherent. */
  lemma CoherentUnchanged(l1: seq<nat>, t: Tables, own: Owners, cache: Cache, f: seq<byte>, f': seq<byte>, o: nat,
                          u: Sectors)
    requires Mapped(l1, t, own, u) && Clear(own, o, u) && OnlyAt(f, f', o, u) && Coherent(t, l1, cache, f, u)
    requires o in own ==> !own[o].L2Table?
    ensures Coherent(t, l1, cache, f', u)
  {
    forall i | i in t && !(i in cache && cache[i].dirty) ensures t[i] == DiskTable(f', l1[i] - COPIED, u) {
      TableUnchanged(l1, t, own, f, f', o, u, i);
    }
  }

  /** Giving a role to a new or unlinked cluster disturbs no pointer. */
  lemma AssignRole(l1: seq<nat>, t: Tables, rt: seq<nat>, own: Owners, u: Sectors, o: nat, r: Role)
    requires Mapped(l1, t, own, u) && Blocks(rt, own) && (o in own ==> own[o] == Unlinked)
    ensures Mapped(l1, t, own[o := r], u) && Blocks(rt, own[o := r])
  {
  }

  /** An empty L2 table for an unused L1 entry. */
  lemma LinkTable(l1: seq<nat>, t: Tables, own: Owners, u: Sectors, i: nat, o: nat, z: seq<nat>)
    requires Mapped(l1, t, own, u) && i < |l1| && i !in t && o in own && own[o] == L2Table(i)
    requires z == EmptyTable(u)
    ensures Mapped(l1[i := o + COPIED], t[i := z], own, u)
    ensures forall x: nat, y: nat :: Host(t[i := z], x, y) == Host(t, x, y)
  {
    forall x: nat, y: nat ensures Host(t[i := z], x, y) == Host(t, x, y) {
      assert x == i ==> Host(t[i := z], x, y) == None;
    }
    var l1', t' := l1[i := o + COPIED], t[i := z];
    forall x | x in t'
      ensures x < |l1'| && |t'[x]| == PerTable(u)
      ensures COPIED <= l1'[x] && l1'[x] - COPIED in own && own[l1'[x] - COPIED] == L2Table(x)
    {
      assert x != i ==> x in t && l1'[x] == l1[x];
    }
    forall x: nat, y: nat | Host(t', x, y).Some?
      ensures Host(t', x, y).value in own && own[Host(t', x, y).value] == Data(x, y)
    {
      assert Host(t', x, y) == Host(t, x, y);
    }
  }

  function SetEntry(t: seq<nat>, j: nat, e: nat): seq<nat>
    requires j < |t|
  {
    t[j := e]
  }

  /** Entering a data cluster into an L2 table. */
  lemma LinkData(l1: seq<nat>, t: Tables, own: Owners, u: Sectors, i: nat, j: nat, o: nat)
    requires Mapped(l1, t, own, u) && i in t && j < |t[i]| && o in own && own[o] == Data(i, j)
    ensures Mapped(l1, t[i := SetEntry(t[i], j, o + COPIED)], own, u)
    ensures forall x: nat, y: nat :: Host(t[i := SetEntry(t[i], j, o + COPIED)], x, y)
                                     == if (x, y) == (i, j) then Some(o) else Host(t, x, y)
  {
    var t' := t[i := SetEntry(t[i], j, o + COPIED)];
    forall x: nat, y: nat ensures Host(t', x, y) == if (x, y) == (i, j) then Some(o) else Host(t, x, y) {
      assert x == i ==> t'[x] == t[i][j := o + COPIED];
    }
  }

  lemma SameHosts(t: Tables, t': Tables, f: seq<byte>, u: Sectors, base: Base, size: nat)
    requires forall x: nat, y: nat :: Host(t', x, y) == Host(t, x, y)
    ensures Disk(t', f, u, base, size) == Disk(t, f, u, base, size)
  {
    forall p: nat | p < size ensures ByteAt(t', f, u, base, p) == ByteAt(t, f, u, base, p) {
    }
  }

  /** Writing a cached table to its place on disk. */
  lemma FlushTable(l1: seq<nat>, t: Tables, own: Owners, cache: Cache, f: seq<byte>, f': seq<byte>, u: Sectors,
                   i: nat, h: nat, c: CachedTable)
    requires Mapped(l1, t, own, u) && Coherent(t, l1, cache, f, u) && i in cache && h == cache[i].hostOffset
    requires h in own && own[h] == L2Table(i) && h + Cs(u) <= |f| && |cache[i].entries| == PerTable(u)
    requires forall b :: b in own ==> b + Cs(u) <= |f| <= REACH
    requires Clear(own, h, u) && f' == Splice(f, h, EncodeTable(cache[i].entries)) && c == cache[i].(dirty := false)
    ensures OnlyAt(f, f', h, u) && Coherent(t, l1, cache[i := c], f', u)
  {
    EntriesFit(l1, t, own, u, |f|, i);
    TableWritten(f, h, u, cache[i].entries);
    OtherTables(l1, t, own, cache, f, f', h, u, i);
    FlushCoherent(l1, t, cache, f', u, i, c);
  }

  lemma FlushCoherent(l1: seq<nat>, t: Tables, cache: Cache, f: seq<byte>, u: Sectors, i: nat, c: CachedTable)
    requires i in cache && i in t && c == cache[i].(dirty := false)
    requires forall k :: k in cache ==>
      k in t && k < |l1| && cache[k].entries == t[k] && l1[k] == cache[k].hostOffset + COPIED
    requires forall k :: k in t && k != i && !(k in cache && cache[k].dirty) ==>
      k < |l1| && COPIED <= l1[k] && l1[k] - COPIED + Cs(u) <= |f| && t[k] == DiskTable(f, l1[k] - COPIED, u)
    requires c.hostOffset + Cs(u) <= |f| && DiskTable(f, c.hostOffset, u) == c.entries
    ensures Coherent(t, l1, cache[i := c], f, u)
  {
  }

  lemma EntriesFit(l1: seq<nat>, t: Tables, own: Owners, u: Sectors, end: nat, i: nat)
    requires Mapped(l1, t, own, u) && i in t && (forall b :: b in own ==> b + Cs(u) <= end <= REACH)
    ensures forall j :: 0 <= j < |t[i]| ==> t[i][j] < 0x1_0000_0000_0000_0000
  {
    forall j | 0 <= j < |t[i]| ensures t[i][j] < 0x1_0000_0000_0000_0000 {
      assert Host(t, i, j).Some? ==> Host(t, i, j).value in own;
    }
  }

  lemma TableWritten(f: seq<byte>, h: nat, u: Sectors, e: seq<nat>)
    requires |e| == PerTable(u) && h + Cs(u) <= |f|
    requires forall j :: 0 <= j < |e| ==> e[j] < 0x1_0000_0000_0000_0000
    ensures |EncodeTable(e)| == Cs(u)
    ensures OnlyAt(f, Splice(f, h, EncodeTable(e)), h, u)
    ensures DiskTable(Splice(f, h, EncodeTable(e)), h, u) == e
  {
    TableRoundTrip(e);
    var f' := Splice(f, h, EncodeTable(e));
    assert f'[h..h + Cs(u)] == EncodeTable(e);
  }

  lemma OtherTables(l1: seq<nat>, t: Tables, own: Owners, cache: Cache, f: seq<byte>, f': seq<byte>, h: nat,
                    u: Sectors, i: nat)
    requires Mapped(l1, t, own, u) && Coherent(t, l1, cache, f, u) && i in t && h == l1[i] - COPIED
    requires Clear(own, h, u) && OnlyAt(f, f', h, u)
    ensures forall k :: k in t && k != i && !(k in cache && cache[k].dirty) ==>
              k < |l1| && COPIED <= l1[k] && l1[k] - COPIED + Cs(u) <= |f'| && t[k] == DiskTable(f', l1[k] - COPIED, u)
  {
    forall k | k in t && k != i && !(k in cache && cache[k].dirty)
      ensures t[k] == DiskTable(f', l1[k] - COPIED, u)
    {
      TableUnchanged(l1, t, own, f, f', h, u, k);
    }
  }

  /** Putting table i into the cache, or renewing its stamp. */
  lemma StampTable(t: Tables, l1: seq<nat>, cache: Cache, stamps: map<nat, nat>, counter: nat, f: seq<byte>,
                   u: Sectors, i: nat, c: CachedTable)
    requires Coherent(t, l1, cache, f, u) && Stamped(cache, stamps, counter) && i in t && i < |l1|
    requires c.entries == t[i] && c.lastAccess == counter + 1 && l1[i] == c.hostOffset + COPIED
    requires i in cache ==> c.dirty == cache[i].dirty
    ensures Coherent(t, l1, cache[i := c], f, u) && Stamped(cache[i := c], stamps[counter + 1 := i], counter + 1)
  {
  }

  lemma DropTable(t: Tables, l1: seq<nat>, cache: Cache, stamps: map<nat, nat>, counter: nat, f: seq<byte>,
                  u: Sectors, i: nat)
    requires Coherent(t, l1, cache, f, u) && Stamped(cache, stamps, counter) && i in cache && !cache[i].dirty
    ensures Coherent(t, l1, cache - {i}, f, u) && Stamped(cache - {i}, stamps, counter)
  {
  }

  lemma UpdateThenDrop(cache: Cache, i: nat, c: CachedTable)
    ensures cache[i := c] - {i} == cache - {i}
  {
  }

  lemma AlreadyClean(cache: Cache, i: nat)
    requires i in cache && !cache[i].dirty
    ensures cache[i := cache[i].(dirty := false)] == cache
  {
  }

  /** A new, empty table enters the mapping and the cache. */
  lemma EnterTable(t: Tables, l1: seq<nat>, cache: Cache, stamps: map<nat, nat>, counter: nat, f: seq<byte>, u: Sectors,
                   i: nat, z: seq<nat>, o: nat, c: CachedTable)
    requires Coherent(t, l1, cache, f, u) && Stamped(cache, stamps, counter) && i !in t && i < |l1|
    requires c == CachedTable(z, true, o, counter + 1)
    ensures Coherent(t[i := z], l1[i := o + COPIED], cache[i := c], f, u)
    ensures Stamped(cache[i := c], stamps[counter + 1 := i], counter + 1)
  {
  }

  /** A cached table is edited in place. */
  lemma EditTable(t: Tables, l1: seq<nat>, cache: Cache, stamps: map<nat, nat>, counter: nat, f: seq<byte>, u: Sectors,
                  i: nat, e: seq<nat>, c: CachedTable)
    requires Coherent(t, l1, cache, f, u) && Stamped(cache, stamps, counter) && i in cache
    requires c == cache[i].(entries := e, dirty := true)
    ensures Coherent(t[i := e], l1, cache[i := c], f, u) && Stamped(cache[i := c], stamps, counter)
  {
  }

  // ----- guest data

  /** The guest cluster that holds p, and p's place in it, determine p. */
  lemma Position(p: nat, q: nat, u: Sectors)
    requires L1Index(p, u) == L1Index(q, u) && L2Index(p, u) == L2Index(q, u)
    ensures Quot(p, Cs(u)) == Quot(q, Cs(u)) && p - Rem(p, Cs(u)) == q - Rem(q, Cs(u))
  {
    DivMod(Quot(p, Cs(u)), PerTable(u));
    DivMod(Quot(q, Cs(u)), PerTable(u));
    DivMod(p, Cs(u));
    DivMod(q, Cs(u));
  }

  /** The indices are the digits of p: cluster j of table i, and byte k of it. */
  lemma Digits(p: nat, u: Sectors, i: nat, j: nat, k: nat)
    requires j < 64 * u && k < 512 * u
    ensures p == 512 * u * (64 * u * i + j) + k <==> L1Index(p, u) == i && L2Index(p, u) == j && Rem(p, 512 * u) == k
  {
    DivMod(p, 512 * u);
    DivMod(Quot(p, 512 * u), 64 * u);
    if p == 512 * u * (64 * u * i + j) + k {
      QuotRem(p, 512 * u, 64 * u * i + j, k);
      QuotRem(64 * u * i + j, 64 * u, i, j);
    }
  }

  lemma SameCluster(p: nat, q: nat, u: Sectors)
    requires q - Rem(q, Cs(u)) <= p < q - Rem(q, Cs(u)) + Cs(u)
    ensures Quot(p, Cs(u)) == Quot(q, Cs(u)) && Rem(p, Cs(u)) == p - (q - Rem(q, Cs(u)))
  {
    DivMod(q, Cs(u));
    QuotRem(p, Cs(u), Quot(q, Cs(u)), p - (q - Rem(q, Cs(u))));
  }

  /** The disk with the bytes from `at` on replaced by d. */
  function Patched(disk: seq<Option<byte>>, at: nat, d: seq<byte>): (r: seq<Option<byte>>)
    requires at + |d| <= |disk|
    ensures |r| == |disk|
  {
    seq(|disk|, p requires 0 <= p < |disk| => if at <= p < at + |d| then Some(d[p - at]) else disk[p])
  }

  /** Positions in one guest cluster keep their distance in the host cluster, and
      a range that fits the rest of pos's cluster stays in that cluster. */
  lemma Locate(p: nat, pos: nat, n: nat, u: Sectors)
    requires Rem(pos, Cs(u)) + n <= Cs(u)
    ensures L1Index(p, u) == L1Index(pos, u) && L2Index(p, u) == L2Index(pos, u)
            ==> Rem(p, Cs(u)) - Rem(pos, Cs(u)) == p - pos
    ensures pos <= p < pos + n ==> L1Index(p, u) == L1Index(pos, u) && L2Index(p, u) == L2Index(pos, u)
  {
    if L1Index(p, u) == L1Index(pos, u) && L2Index(p, u) == L2Index(pos, u) {
      Position(p, pos, u);
    }
    if pos <= p < pos + n {
      SameCluster(p, pos, u);
    }
  }

  /** Byte p after d was written at pos, given that the bytes of other clusters
      are as before and what the cluster of pos held outside d. */
  lemma PatchByte(t: Tables, f: seq<byte>, t': Tables, f': seq<byte>, u: Sectors, base: Base, pos: nat, d: seq<byte>,
                  h: nat, p: nat)
    requires Rem(pos, Cs(u)) + |d| <= Cs(u) && h + Cs(u) <= |f| && f' == Splice(f, h + Rem(pos, Cs(u)), d)
    requires Host(t', L1Index(pos, u), L2Index(pos, u)) == Some(h)
    requires (L1Index(p, u), L2Index(p, u)) != (L1Index(pos, u), L2Index(pos, u)) ==>
      ByteAt(t', f', u, base, p) == ByteAt(t, f, u, base, p)
    requires (L1Index(p, u), L2Index(p, u)) == (L1Index(pos, u), L2Index(pos, u)) && !(pos <= p < pos + |d|) ==>
      Some(f[h + Rem(p, Cs(u))]) == ByteAt(t, f, u, base, p)
    ensures ByteAt(t', f', u, base, p) == if pos <= p < pos + |d| then Some(d[p - pos]) else ByteAt(t, f, u, base, p)
  {
    Locate(p, pos, |d|, u);
  }

  lemma OtherByte(l1: seq<nat>, t: Tables, own: Owners, f: seq<byte>, f': seq<byte>, u: Sectors, base: Base, h: nat,
                  i0: nat, j0: nat,
                  p: nat, i: nat, j: nat, k: nat)
    requires Mapped(l1, t, own, u) && (forall b :: b in own ==> b + Cs(u) <= |f|) && Clear(own, h, u)
    requires OnlyAt(f, f', h, u)
    requires h in own && (own[h] == Data(i0, j0) || own[h] == Unlinked) && k < Cs(u) && (i, j) != (i0, j0)
    ensures ByteIn(t, f', base, p, i, j, k) == ByteIn(t, f, base, p, i, j, k)
  {
  }

  /** Writing into an allocated cluster. */
  lemma WriteData(l1: seq<nat>, t: Tables, own: Owners, f: seq<byte>, f': seq<byte>, u: Sectors, base: Base,
                  size: nat, pos: nat, d: seq<byte>, h: nat)
    requires Mapped(l1, t, own, u) && (forall b :: b in own ==> b + Cs(u) <= |f|) && Clear(own, h, u)
    requires Host(t, L1Index(pos, u), L2Index(pos, u)) == Some(h)
    requires pos + |d| <= size && Rem(pos, Cs(u)) + |d| <= Cs(u) && h in own
    requires own[h] == Data(L1Index(pos, u), L2Index(pos, u))
    requires f' == Splice(f, h + Rem(pos, Cs(u)), d)
    ensures OnlyAt(f, f', h, u) && Disk(t, f', u, base, size) == Patched(Disk(t, f, u, base, size), pos, d)
  {
    assert OnlyAt(f, f', h, u);
    forall p: nat | p < size
      ensures ByteAt(t, f', u, base, p) == if pos <= p < pos + |d| then Some(d[p - pos]) else ByteAt(t, f, u, base, p)
    {
      var i, j := L1Index(p, u), L2Index(p, u);
      if (i, j) != (L1Index(pos, u), L2Index(pos, u)) {
        OtherByte(l1, t, own, f, f', u, base, h, L1Index(pos, u), L2Index(pos, u), p, i, j, Rem(p, Cs(u)));
      }
      PatchByte(t, f, t, f', u, base, pos, d, h, p);
    }
  }

  /** The cluster at h holds what the base provides for the cluster of pos. */
  ghost predicate Prepared(f: seq<byte>, h: nat, u: Sectors, base: Base, pos: nat) {
    h + Cs(u) <= |f| && forall k :: h <= k < h + Cs(u) ==> Some(f[k]) == BaseByte(base, Start(pos, u) + (k - h))
  }

  lemma PreparedByte(f: seq<byte>, u: Sectors, base: Base, pos: nat, n: nat, h: nat, p: nat)
    requires Rem(pos, Cs(u)) + n <= Cs(u) && h + Cs(u) <= |f| && (n == Cs(u) || Prepared(f, h, u, base, pos))
    requires (L1Index(p, u), L2Index(p, u)) == (L1Index(pos, u), L2Index(pos, u))
    ensures pos <= p < pos + n || Some(f[h + Rem(p, Cs(u))]) == BaseByte(base, p)
  {
    Locate(p, pos, n, u);
    if n != Cs(u) {
      assert p == Start(pos, u) + (h + Rem(p, Cs(u)) - h);
    }
  }

  lemma WriteNewByte(l1: seq<nat>, t: Tables, t': Tables, own: Owners, f: seq<byte>, f': seq<byte>, u: Sectors,
                     base: Base,
                     pos: nat, d: seq<byte>, h: nat, p: nat)
    requires Mapped(l1, t, own, u) && (forall b :: b in own ==> b + Cs(u) <= |f|) && Clear(own, h, u)
    requires h in own && own[h] == Unlinked && Host(t, L1Index(pos, u), L2Index(pos, u)) == None
    requires Host(t', L1Index(p, u), L2Index(p, u))
      == if (L1Index(p, u), L2Index(p, u)) == (L1Index(pos, u), L2Index(pos, u)) then Some(h)
        else Host(t, L1Index(p, u), L2Index(p, u))
    requires Host(t', L1Index(pos, u), L2Index(pos, u)) == Some(h)
    requires Rem(pos, Cs(u)) + |d| <= Cs(u) && f' == Splice(f, h + Rem(pos, Cs(u)), d) && OnlyAt(f, f', h, u)
    requires |d| == Cs(u) || Prepared(f, h, u, base, pos)
    ensures ByteAt(t', f', u, base, p) == if pos <= p < pos + |d| then Some(d[p - pos]) else ByteAt(t, f, u, base, p)
  {
    var i, j := L1Index(p, u), L2Index(p, u);
    if (i, j) != (L1Index(pos, u), L2Index(pos, u)) {
      OtherByte(l1, t, own, f, f', u, base, h, L1Index(pos, u), L2Index(pos, u), p, i, j, Rem(p, Cs(u)));
    } else {
      PreparedByte(f, u, base, pos, |d|, h, p);
    }
    PatchByte(t, f, t', f', u, base, pos, d, h, p);
  }

  /** Linking a prepared cluster and writing into it. */
  lemma WriteNew(l1: seq<nat>, t: Tables, t': Tables, own: Owners, f: seq<byte>, f': seq<byte>, u: Sectors,
                 base: Base, size: nat,
                 pos: nat, d: seq<byte>, h: nat)
    requires Mapped(l1, t, own, u) && (forall b :: b in own ==> b + Cs(u) <= |f|) && Clear(own, h, u)
    requires h in own && own[h] == Unlinked && Host(t, L1Index(pos, u), L2Index(pos, u)) == None
    requires forall x: nat, y: nat ::
      Host(t', x, y) == if (x, y) == (L1Index(pos, u), L2Index(pos, u)) then Some(h) else Host(t, x, y)
    requires pos + |d| <= size && Rem(pos, Cs(u)) + |d| <= Cs(u) && f' == Splice(f, h + Rem(pos, Cs(u)), d)
    requires |d| == Cs(u) || Prepared(f, h, u, base, pos)
    ensures Disk(t', f', u, base, size) == Patched(Disk(t, f, u, base, size), pos, d)
  {
    assert OnlyAt(f, f', h, u);
    forall p: nat | p < size
      ensures ByteAt(t', f', u, base, p) == if pos <= p < pos + |d| then Some(d[p - pos]) else ByteAt(t, f, u, base, p)
    {
      WriteNewByte(l1, t, t', own, f, f', u, base, pos, d, h, p);
    }
  }

  /** What an L1 entry means. */
  lemma L1Entry(l1: seq<nat>, t: Tables, own: Owners, u: Sectors, end: nat, i: nat)
    requires Mapped(l1, t, own, u) && Aligned(own, u, end) && end <= REACH && i < |l1|
    requires 0 in own && own[0] == HeaderCluster
    ensures i !in t ==> L1Target(l1[i]) == 0
    ensures i in t ==> L1Target(l1[i]) != 0 && l1[i] == L1Target(l1[i]) + 0x8000_0000_0000_0000
  {
    if i in t {
      var o: nat := l1[i] - COPIED;
      assert own[o] == L2Table(i);
      MultipleSector(o, u);
      Targets(o);
    }
  }

  /** What an L2 entry means. */
  lemma L2Entry(l1: seq<nat>, t: Tables, own: Owners, u: Sectors, end: nat, i: nat, j: nat)
    requires Mapped(l1, t, own, u) && Aligned(own, u, end) && end <= REACH && i in t && j < |t[i]|
    requires 0 in own && own[0] == HeaderCluster
    ensures Host(t, i, j) == None ==> t[i][j] == 0
    ensures Host(t, i, j).Some? ==>
      && !Compressed(t[i][j]) && L2Target(t[i][j]) != 0 && Host(t, i, j) == Some(L2Target(t[i][j]))
      && t[i][j] == L2Target(t[i][j]) + 0x8000_0000_0000_0000
  {
    if Host(t, i, j).Some? {
      var o: nat := Host(t, i, j).value;
      assert own[o] == Data(i, j);
      MultipleSector(o, u);
      Targets(o);
    }
  }

  // ----- refcounts

  /** Host clusters 0 to n-1 have refcount one. */
  ghost predicate Counted(rt: seq<nat>, f: seq<byte>, u: Sectors, n: nat) {
    forall c: nat :: c < n ==> Refcount(rt, f, u, c) == 1
  }

  /** The entries of block k are the same in f and f'. */
  lemma BlockUnchanged(rt: seq<nat>, own: Owners, f: seq<byte>, f': seq<byte>, u: Sectors, o: nat, k: nat, r: nat)
    requires Blocks(rt, own) && Clear(own, o, u) && OnlyAt(f, f', o, u) && (forall b :: b in own ==> b + Cs(u) <= |f|)
    requires r < PerBlock(u) && (o in own ==> own[o] != RefcountBlock(k))
    ensures CountIn(rt, f', k, r) == CountIn(rt, f, k, r)
  {
    if k < |rt| && rt[k] != 0 {
      Elsewhere(f, f', o, u, rt[k] + 2 * r, 2);
    }
  }

  lemma CountedUnchanged(rt: seq<nat>, own: Owners, f: seq<byte>, f': seq<byte>, u: Sectors, o: nat, n: nat)
    requires Blocks(rt, own) && Clear(own, o, u) && OnlyAt(f, f', o, u) && (forall b :: b in own ==> b + Cs(u) <= |f|)
    requires (o in own ==> !own[o].RefcountBlock?) && Counted(rt, f, u, n)
    ensures Counted(rt, f', u, n)
  {
    forall c: nat | c < n ensures Refcount(rt, f', u, c) == 1 {
      var k, r := Quot(c, PerBlock(u)), Rem(c, PerBlock(u));
      assert Refcount(rt, f, u, c) == 1;
      BlockUnchanged(rt, own, f, f', u, o, k, r);
    }
  }

  /** Setting entry r of block k to one sets nothing else. */
  lemma SetCount(rt: seq<nat>, own: Owners, f: seq<byte>, f': seq<byte>, u: Sectors, k: nat, r: nat)
    requires Blocks(rt, own) && k < |rt| && rt[k] != 0 && Clear(own, rt[k], u)
    requires (forall b :: b in own ==> b + Cs(u) <= |f|)
    requires r < PerBlock(u) && rt[k] + Cs(u) <= |f| && f' == Splice(f, rt[k] + 2 * r, ToBE(1, 2))
    ensures OnlyAt(f, f', rt[k], u) && CountIn(rt, f', k, r) == 1
    ensures forall k': nat, r': nat :: r' < PerBlock(u) && (k', r') != (k, r) ==>
      CountIn(rt, f', k', r') == CountIn(rt, f, k', r')
  {
    var o := rt[k];
    assert f'[o + 2 * r..o + 2 * r + 2] == ToBE(1, 2);
    RadixValues();
    FromToBE(1, 2);
    forall k': nat, r': nat | r' < PerBlock(u) && (k', r') != (k, r)
      ensures CountIn(rt, f', k', r') == CountIn(rt, f, k', r') {
      if k' == k {
        assert f'[o + 2 * r'..o + 2 * r' + 2] == f[o + 2 * r'..o + 2 * r' + 2];
      } else {
        assert own[o] == RefcountBlock(k);
        BlockUnchanged(rt, own, f, f', u, o, k', r');
      }
    }
  }

  /** A fresh cluster n whose refcount block exists. */
  lemma CountNext(rt: seq<nat>, f: seq<byte>, f': seq<byte>, u: Sectors, n: nat)
    requires Counted(rt, f, u, n) && CountIn(rt, f', Quot(n, PerBlock(u)), Rem(n, PerBlock(u))) == 1
    requires forall k: nat, r: nat :: r < PerBlock(u) && (k, r) != (Quot(n, PerBlock(u)), Rem(n, PerBlock(u))) ==>
      CountIn(rt, f', k, r) == CountIn(rt, f, k, r)
    ensures Counted(rt, f', u, n + 1)
  {
    forall c: nat | c < n + 1 ensures Refcount(rt, f', u, c) == 1 {
      if c < n {
        assert Refcount(rt, f, u, c) == 1;
      }
    }
  }

  lemma CountedAt(rt: seq<nat>, f: seq<byte>, u: Sectors, n: nat, c: nat)
    requires Counted(rt, f, u, n) && c < n
    ensures Refcount(rt, f, u, c) == 1
  {
  }

  /** A refcount block is missing only at the first cluster of its range, so a new
      block, placed right after that cluster, lies in the range it covers. */
  lemma MissingBlock(rt: seq<nat>, f: seq<byte>, u: Sectors, n: nat)
    requires Counted(rt, f, u, n)
    requires Quot(n, PerBlock(u)) < |rt| ==> rt[Quot(n, PerBlock(u))] == 0
    ensures Rem(n, PerBlock(u)) == 0
    ensures Quot(n + 1, PerBlock(u)) == Quot(n, PerBlock(u)) && Rem(n + 1, PerBlock(u)) == 1
    ensures forall c: nat :: c < n ==> Quot(c, PerBlock(u)) != Quot(n, PerBlock(u))
  {
    var b := PerBlock(u);
    var k, r := Quot(n, b), Rem(n, b);
    DivMod(n, b);
    if r > 0 {
      CountedAt(rt, f, u, n, n - 1);
      QuotRem(n - 1, b, k, r - 1);
      assert false;
    }
    QuotRem(n + 1, b, k, 1);
    forall c: nat | c < n ensures Quot(c, b) != k {
      DivMod(c, b);
    }
  }

  lemma {:induction false} MultipleRem(o: nat, c: nat)
    requires c > 0 && Multiple(o, c)
    ensures Rem(o, c) == 0 && Quot(o + c, c) == Quot(o, c) + 1
  {
    if o == 0 {
      QuotRem(0, c, 0, 0);
      QuotRem(c, c, 1, 0);
    } else {
      MultipleRem(o - c, c);
      DivMod(o - c, c);
      QuotRem(o, c, Quot(o - c, c) + 1, 0);
      QuotRem(o + c, c, Quot(o, c) + 1, 0);
    }
  }

  /** Pointing the table to a new block for a range that has no counted cluster. */
  lemma CountedRepointed(rt: seq<nat>, rt': seq<nat>, f: seq<byte>, u: Sectors, n: nat, k: nat)
    requires Counted(rt, f, u, n) && |rt| <= |rt'|
    requires forall c: nat :: c < n ==> Quot(c, PerBlock(u)) != k
    requires forall x: nat :: x < |rt| && x != k ==> rt'[x] == rt[x]
    ensures Counted(rt', f, u, n)
  {
    forall c: nat | c < n ensures Refcount(rt', f, u, c) == 1 {
      CountedAt(rt, f, u, n, c);
    }
  }

  /** Counting cluster m does not disturb the clusters before it. */
  lemma CountLater(rt: seq<nat>, f: seq<byte>, f': seq<byte>, u: Sectors, n: nat, m: nat)
    requires Counted(rt, f, u, n) && n <= m
    requires forall k: nat, r: nat :: r < PerBlock(u) && (k, r) != (Quot(m, PerBlock(u)), Rem(m, PerBlock(u))) ==>
      CountIn(rt, f', k, r) == CountIn(rt, f, k, r)
    ensures Counted(rt, f', u, n)
  {
    forall c: nat | c < n ensures Refcount(rt, f', u, c) == 1 {
      CountedAt(rt, f, u, n, c);
      DivMod(c, PerBlock(u));
      DivMod(m, PerBlock(u));
    }
  }
}
