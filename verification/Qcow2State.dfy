/** The state of an open QCOW2 image, the invariant that every operation keeps,
    and each elementary step as a lemma about states. */
module Qcow2State {
  import opened Bytes
  import opened Qcow2Header
  import opened Qcow2Image

  /** What stays fixed while an image is open: the encoded header, the virtual
      size, the places of the L1 and refcount tables, the cluster size, the size
      beyond which the host refuses to grow the file, and what is known of the
      refcounts. */
  datatype Geometry = Geometry(
    head: seq<byte>, size: nat, l1Offset: nat, l1Size: nat, rcOffset: nat, rcBytes: nat, u: Sectors, limit: nat,
    counts: Counts)

  /** The refcounts of an image: complete when it was opened, complete but perhaps for
      the last cluster, or spoilt by a move of the refcount table. */
  datatype Counts = Complete | Unsure | Lost

  datatype State = State(
    file: seq<byte>, l1: seq<nat>, refcountTable: seq<nat>, cache: Cache, accessCounter: nat, next: nat,
    tables: Tables, own: Owners, stamps: map<nat, nat>)

  /** The fixed parts of the file are where the header says, and it says so. */
  ghost predicate Fixed(g: Geometry, s: State) {
    && 0 in s.own && s.own[0] == HeaderCluster
    && Region(s.own, g.l1Offset, 8 * |s.l1|, L1Table) && |s.l1| == g.l1Size
    && Region(s.own, g.rcOffset, g.rcBytes, RefcountTable)
    && g.l1Offset + 8 * |s.l1| <= |s.file| && g.rcOffset + g.rcBytes <= |s.file|
    && ZeroTail(s.file, g.rcOffset, 8 * |s.refcountTable|, g.rcBytes)
    && |g.head| <= Cs(g.u) <= |s.file| && s.file[..|g.head|] == g.head
  }

  /** The file ends at the allocation cursor, unless growing it has failed. */
  ghost predicate Space(g: Geometry, s: State) {
    && |s.file| <= s.next && |s.file| <= g.limit <= REACH && Multiple(|s.file|, Cs(g.u))
    && (|s.file| < s.next ==> g.limit < s.next)
  }

  ghost predicate Core(g: Geometry, s: State) {
    && Mapped(s.l1, s.tables, s.own, g.u) && Aligned(s.own, g.u, |s.file|)
    && Coherent(s.tables, s.l1, s.cache, s.file, g.u) && Stamped(s.cache, s.stamps, s.accessCounter)
    && Blocks(s.refcountTable, s.own) && Fixed(g, s) && Space(g, s)
  }

  function DiskOf(g: Geometry, s: State, base: Base): seq<Option<byte>> {
    Disk(s.tables, s.file, g.u, base, g.size)
  }

  /** Every cluster of the file has refcount one.  A failed growth may leave the last
      cluster without, and once the image has been opened again this cannot be
      told; but then there is no room for another cluster. */
  ghost predicate Refs(g: Geometry, s: State) {
    && Multiple(s.next, Cs(g.u)) && Begun(s.refcountTable, g.u, Quot(|s.file|, Cs(g.u)))
    && (CountsKnown(g, s) ==> Counted(s.refcountTable, s.file, g.u, Quot(|s.file|, Cs(g.u))))
  }

  predicate CountsKnown(g: Geometry, s: State) {
    g.counts != Lost && (|s.file| + Cs(g.u) <= g.limit || (g.counts == Complete && |s.file| == s.next))
  }

  ghost predicate Inv(g: Geometry, s: State) {
    Core(g, s) && Refs(g, s)
  }

  /** The invariant as one fact: a proof that needs what is inside it says so, by
      `Open`, and a caller that only passes it on does not. */
  ghost predicate Sound(g: Geometry, s: State) {
    forall k {:trigger Use(k)} :: Use(k) ==> Inv(g, s)
  }

  lemma Open(g: Geometry, s: State)
    requires Sound(g, s)
    ensures Inv(g, s)
  {
    assert Use(Key);
  }

  lemma Close(g: Geometry, s: State)
    requires Inv(g, s)
    ensures Sound(g, s)
  {
  }

  /** The L1 table covers the virtual disk. */
  ghost predicate Covers(g: Geometry) {
    forall p: nat :: p < g.size ==> L1Index(p, g.u) < g.l1Size
  }

  // ----- the cache

  /** A step that only moves L2 tables between cache and disk. */
  ghost predicate Transparent(g: Geometry, s: State, s': State) {
    && s' == s.(file := s'.file, cache := s'.cache, accessCounter := s'.accessCounter, stamps := s'.stamps)
    && |s'.file| == |s.file| && Kept(s.own, s.file, s'.file, g.u)
    && forall base :: DiskOf(g, s', base) == DiskOf(g, s, base)
  }

  lemma TransparentTrans(g: Geometry, s: State, s': State, s'': State)
    requires Transparent(g, s, s') && Transparent(g, s', s'')
    ensures Transparent(g, s, s'')
  {
  }

  lemma TransparentRefl(g: Geometry, s: State)
    ensures Transparent(g, s, s)
  {
  }

  lemma CacheStep(g: Geometry, s: State, s': State)
    requires Core(g, s) && s' == s.(cache := s'.cache, stamps := s'.stamps, accessCounter := s'.accessCounter)
    requires Coherent(s.tables, s.l1, s'.cache, s.file, g.u) && Stamped(s'.cache, s'.stamps, s'.accessCounter)
    ensures Core(g, s') && Transparent(g, s, s')
  {
  }

  /** Table i enters the cache as c, or its stamp is renewed. */
  function Stamp(s: State, i: nat, c: CachedTable): State {
    s.(cache := s.cache[i := c.(lastAccess := s.accessCounter + 1)],
       stamps := s.stamps[s.accessCounter + 1 := i],
       accessCounter := s.accessCounter + 1)
  }

  lemma StampCore(g: Geometry, s: State, s': State, i: nat, c: CachedTable)
    requires Core(g, s) && i in s.tables && i < |s.l1| && c.entries == s.tables[i] && s.l1[i] == c.hostOffset + COPIED
    requires (i in s.cache ==> c.dirty == s.cache[i].dirty) && c.lastAccess == s.accessCounter + 1
    requires s' == s.(cache := s.cache[i := c], stamps := s.stamps[s.accessCounter + 1 := i],
                      accessCounter := s.accessCounter + 1)
    ensures Core(g, s') && Transparent(g, s, s')
  {
    StampTable(s.tables, s.l1, s.cache, s.stamps, s.accessCounter, s.file, g.u, i, c);
    CacheStep(g, s, s');
  }

  lemma StampIs(s: State, s': State, i: nat, c: CachedTable, c': CachedTable)
    requires s' == Stamp(s, i, c) && c' == c.(lastAccess := s.accessCounter + 1)
    ensures s' == s.(cache := s.cache[i := c'], stamps := s.stamps[s.accessCounter + 1 := i],
                     accessCounter := s.accessCounter + 1)
  {
  }

  lemma StampKeeps(g: Geometry, s: State, s': State, i: nat, c: CachedTable)
    requires Inv(g, s) && i in s.tables && i < |s.l1| && c.entries == s.tables[i] && s.l1[i] == c.hostOffset + COPIED
    requires (i in s.cache ==> c.dirty == s.cache[i].dirty) && s' == Stamp(s, i, c)
    ensures Inv(g, s') && Transparent(g, s, s')
  {
    var c' := c.(lastAccess := s.accessCounter + 1);
    StampIs(s, s', i, c, c');
    StampCore(g, s, s', i, c');
  }

  /** A clean table leaves the cache. */
  lemma EvictKeeps(g: Geometry, s: State, s': State, i: nat)
    requires Inv(g, s) && i in s.cache && !s.cache[i].dirty && s' == s.(cache := s.cache - {i})
    ensures Inv(g, s') && Transparent(g, s, s')
  {
    DropTable(s.tables, s.l1, s.cache, s.stamps, s.accessCounter, s.file, g.u, i);
    CacheStep(g, s, s');
  }

  lemma FlushThenEvict(g: Geometry, s: State, s': State, s'': State, i: nat)
    requires i in s.cache && Inv(g, s') && Transparent(g, s, s')
    requires s'.cache == s.cache[i := s.cache[i].(dirty := false)]
    requires s'' == s'.(cache := s'.cache - {i})
    ensures Inv(g, s'') && Transparent(g, s, s'') && s''.cache == s.cache - {i}
  {
    EvictKeeps(g, s', s'', i);
    TransparentTrans(g, s, s', s'');
    UpdateThenDrop(s.cache, i, s.cache[i].(dirty := false));
  }

  /** A table that is not cached is on disk. */
  lemma OnDisk(g: Geometry, s: State, i: nat)
    requires Inv(g, s) && i in s.tables && i !in s.cache && i < |s.l1| && COPIED <= s.l1[i]
    ensures s.l1[i] - COPIED + Cs(g.u) <= |s.file| && DiskTable(s.file, s.l1[i] - COPIED, g.u) == s.tables[i]
  {
  }

  lemma TableFits(g: Geometry, s: State, i: nat)
    requires Core(g, s) && i in s.cache
    ensures |s.cache[i].entries| == PerTable(g.u) && s.cache[i].hostOffset + Cs(g.u) <= |s.file|
    ensures s.cache[i].hostOffset in s.own && s.own[s.cache[i].hostOffset] == L2Table(i)
  {
  }

  lemma FlushKeeps(g: Geometry, s: State, s': State, i: nat)
    requires Core(g, s) && i in s.cache && s.cache[i].hostOffset + 8 * |s.cache[i].entries| <= |s.file|
    requires s' == s.(file := Splice(s.file, s.cache[i].hostOffset, EncodeTable(s.cache[i].entries)),
                      cache := s.cache[i := s.cache[i].(dirty := false)])
    ensures Core(g, s') && OnlyAt(s.file, s'.file, s.cache[i].hostOffset, g.u)
    ensures forall base :: DiskOf(g, s', base) == DiskOf(g, s, base)
  {
    var h, c := s.cache[i].hostOffset, s.cache[i].(dirty := false);
    TableFits(g, s, i);
    AlignedClear(s.own, g.u, |s.file|, h);
    FlushTable(s.l1, s.tables, s.own, s.cache, s.file, s'.file, g.u, i, h, c);
    FlushStamped(s.cache, s.stamps, s.accessCounter, i, c);
    FileStep(g, s, s', h);
  }

  lemma FlushStamped(cache: Cache, stamps: map<nat, nat>, counter: nat, i: nat, c: CachedTable)
    requires Stamped(cache, stamps, counter) && i in cache && c == cache[i].(dirty := false)
    ensures Stamped(cache[i := c], stamps, counter)
  {
  }

  // ----- the host file

  lemma SameDisk(g: Geometry, s: State, s': State, o: nat)
    requires Core(g, s) && s'.tables == s.tables && OnlyAt(s.file, s'.file, o, g.u) && Clear(s.own, o, g.u)
    requires o in s.own ==> !s.own[o].Data?
    ensures forall base :: DiskOf(g, s', base) == DiskOf(g, s, base)
  {
    forall base ensures DiskOf(g, s', base) == DiskOf(g, s, base) {
      DiskUnchanged(s.l1, s.tables, s.own, s.file, s'.file, o, g.u, base, g.size);
    }
  }

  lemma HeadKept(own: Owners, f: seq<byte>, f': seq<byte>, o: nat, u: Sectors, n: nat)
    requires 0 in own && own[0] == HeaderCluster && Clear(own, o, u) && OnlyAt(f, f', o, u) && n <= Cs(u) <= |f|
    requires o in own ==> own[o] != HeaderCluster
    ensures f'[..n] == f[..n]
  {
    assert o != 0;
  }

  lemma TailKept(g: Geometry, s: State, s': State, o: nat)
    requires Fixed(g, s) && Clear(s.own, o, g.u) && OnlyAt(s.file, s'.file, o, g.u)
    requires s'.refcountTable == s.refcountTable
    requires if o in s.own then s.own[o] != RefcountTable else |s.file| <= o
    ensures ZeroTail(s'.file, g.rcOffset, 8 * |s'.refcountTable|, g.rcBytes)
  {
    var at, len := g.rcOffset, g.rcBytes;
    forall x | at + 8 * |s.refcountTable| <= x < at + len && x < |s'.file| ensures s'.file[x] == 0 {
      RegionKept(s.own, s.file, s'.file, o, g.u, at, len, RefcountTable, x);
    }
  }

  lemma FileStep(g: Geometry, s: State, s': State, o: nat)
    requires Core(g, s) && o in s.own
    requires s.own[o].RefcountBlock? || s.own[o].Data? || s.own[o].Unlinked? || s.own[o].L2Table?
    requires s' == s.(file := s'.file, cache := s'.cache) && |s'.file| == |s.file| && OnlyAt(s.file, s'.file, o, g.u)
    requires Coherent(s.tables, s.l1, s'.cache, s'.file, g.u) && Stamped(s'.cache, s.stamps, s.accessCounter)
    ensures Core(g, s')
    ensures !s.own[o].Data? ==> forall base :: DiskOf(g, s', base) == DiskOf(g, s, base)
  {
    AlignedClear(s.own, g.u, |s.file|, o);
    HeadKept(s.own, s.file, s'.file, o, g.u, |g.head|);
    TailKept(g, s, s', o);
    if !s.own[o].Data? {
      SameDisk(g, s, s', o);
    }
  }

  /** Overwriting a refcount block, a data cluster or an unlinked cluster. */
  lemma OverwriteKeeps(g: Geometry, s: State, s': State, o: nat)
    requires Core(g, s) && o in s.own && (s.own[o].RefcountBlock? || s.own[o].Data? || s.own[o].Unlinked?)
    requires s' == s.(file := s'.file) && |s'.file| == |s.file| && OnlyAt(s.file, s'.file, o, g.u)
    ensures Core(g, s')
    ensures !s.own[o].Data? ==> forall base :: DiskOf(g, s', base) == DiskOf(g, s, base)
  {
    AlignedClear(s.own, g.u, |s.file|, o);
    CoherentUnchanged(s.l1, s.tables, s.own, s.cache, s.file, s'.file, o, g.u);
    FileStep(g, s, s', o);
  }

  /** The file grows by one cluster of zeros that nothing refers to yet. */
  lemma GrowKeeps(g: Geometry, s: State, s': State)
    requires Core(g, s) && |s.file| == s.next && Multiple(s.next, Cs(g.u)) && s.next + Cs(g.u) <= g.limit
    requires s' == s.(file := s.file + Zeros(Cs(g.u)), next := s.next + Cs(g.u), own := s.own[s.next := Unlinked])
    ensures Core(g, s') && forall base :: DiskOf(g, s', base) == DiskOf(g, s, base)
  {
    var o := s.next;
    assert o !in s.own;
    assert OnlyAt(s.file, s'.file, o, g.u);
    AlignedClear(s.own, g.u, |s.file|, o);
    CoherentUnchanged(s.l1, s.tables, s.own, s.cache, s.file, s'.file, o, g.u);
    AssignRole(s.l1, s.tables, s.refcountTable, s.own, g.u, o, Unlinked);
    HeadKept(s.own, s.file, s'.file, o, g.u, |g.head|);
    TailKept(g, s, s', o);
    SameDisk(g, s, s', o);
  }

  // ----- allocation

  lemma RefsKept(g: Geometry, s: State, s': State, o: nat)
    requires Inv(g, s) && s'.refcountTable == s.refcountTable && s'.next == s.next && |s'.file| == |s.file|
    requires o in s.own && !s.own[o].RefcountBlock? && OnlyAt(s.file, s'.file, o, g.u)
    ensures Refs(g, s')
  {
    if CountsKnown(g, s) {
      AlignedClear(s.own, g.u, |s.file|, o);
      CountedUnchanged(s.refcountTable, s.own, s.file, s'.file, g.u, o, Quot(|s.file|, Cs(g.u)));
    }
  }

  /** A cached table is written to its place on disk and is clean. */
  lemma FlushRefs(g: Geometry, s: State, s': State, i: nat)
    requires Inv(g, s) && i in s.cache && s.cache[i].hostOffset + 8 * |s.cache[i].entries| <= |s.file|
    requires s' == s.(file := Splice(s.file, s.cache[i].hostOffset, EncodeTable(s.cache[i].entries)),
                      cache := s.cache[i := s.cache[i].(dirty := false)])
    ensures Inv(g, s') && Transparent(g, s, s')
  {
    var h := s.cache[i].hostOffset;
    TableFits(g, s, i);
    FlushKeeps(g, s, s', i);
    RefsKept(g, s, s', h);
    AlignedClear(s.own, g.u, |s.file|, h);
    KeptStep(s.own, s.file, s.file, s'.file, h, g.u);
  }

  /** From s to s' the file may have grown and refcounts may have changed; the
      mapping, the cache, the guest data and the disk have not. */
  ghost predicate Extends(g: Geometry, s: State, s': State) {
    && s'.tables == s.tables && s'.l1 == s.l1 && s'.cache == s.cache && s.next <= s'.next
    && s'.accessCounter == s.accessCounter && s'.stamps == s.stamps
    && (forall b :: b in s.own ==> b in s'.own && s'.own[b] == s.own[b])
    && Kept(s.own, s.file, s'.file, g.u) && SameL1(g, s, s'.file)
    && forall base :: DiskOf(g, s', base) == DiskOf(g, s, base)
  }

  /** The place of the L1 table holds the same bytes in f. */
  ghost predicate SameL1(g: Geometry, s: State, f: seq<byte>) {
    |s.file| <= |f| && forall x :: g.l1Offset <= x < g.l1Offset + 8 * |s.l1| && x < |s.file| ==> f[x] == s.file[x]
  }

  lemma SameL1Step(g: Geometry, s: State, f: seq<byte>, f': seq<byte>, o: nat)
    requires Fixed(g, s) && SameL1(g, s, f) && Clear(s.own, o, g.u) && OnlyAt(f, f', o, g.u)
    requires if o in s.own then s.own[o] != L1Table else |s.file| <= o
    ensures SameL1(g, s, f')
  {
    forall x | g.l1Offset <= x < g.l1Offset + 8 * |s.l1| && x < |s.file| ensures f'[x] == s.file[x] {
      RegionKept(s.own, f, f', o, g.u, g.l1Offset, 8 * |s.l1|, L1Table, x);
    }
  }

  lemma PadKeeps(g: Geometry, s: State, s': State, z: nat)
    requires Core(g, s) && s' == s.(refcountTable := s.refcountTable + seq(z, _ => 0))
    ensures Core(g, s')
    ensures forall k: nat, r: nat :: CountIn(s'.refcountTable, s.file, k, r) == CountIn(s.refcountTable, s.file, k, r)
  {
  }

  /** An unlinked cluster becomes refcount block k. */
  lemma AdoptBlock(g: Geometry, s: State, s': State, k: nat, o: nat)
    requires Core(g, s) && o in s.own && s.own[o] == Unlinked && k < |s.refcountTable| && s.refcountTable[k] == 0
    requires s' == s.(refcountTable := s.refcountTable[k := o], own := s.own[o := RefcountBlock(k)])
    ensures Core(g, s')
  {
    AssignRole(s.l1, s.tables, s.refcountTable, s.own, g.u, o, RefcountBlock(k));
  }

  // ----- linking

  /** A step that changes the mapping but not the file. */
  lemma MappingStep(g: Geometry, s: State, s': State, o: nat, r: Role)
    requires Core(g, s) && o in s.own && s.own[o] == Unlinked && s'.own == s.own[o := r]
    requires s'.file == s.file && s'.next == s.next && s'.refcountTable == s.refcountTable && |s'.l1| == |s.l1|
    requires Mapped(s'.l1, s'.tables, s'.own, g.u) && Blocks(s.refcountTable, s'.own)
    requires Coherent(s'.tables, s'.l1, s'.cache, s.file, g.u) && Stamped(s'.cache, s'.stamps, s'.accessCounter)
    ensures Core(g, s')
  {
  }

  /** An unlinked cluster becomes the empty L2 table of L1 entry i. */
  lemma LinkTableKeeps(g: Geometry, s: State, s': State, i: nat, o: nat, c: CachedTable, z: seq<nat>)
    requires Core(g, s) && i < |s.l1| && i !in s.tables && o in s.own && s.own[o] == Unlinked
    requires z == EmptyTable(g.u) && c == CachedTable(z, true, o, s.accessCounter + 1)
    requires s' == s.(l1 := s.l1[i := o + COPIED], tables := s.tables[i := z],
                      own := s.own[o := L2Table(i)], cache := s.cache[i := c],
                      stamps := s.stamps[s.accessCounter + 1 := i], accessCounter := s.accessCounter + 1)
    ensures Core(g, s')
    ensures forall x: nat, y: nat :: Host(s'.tables, x, y) == Host(s.tables, x, y)
  {
    AssignRole(s.l1, s.tables, s.refcountTable, s.own, g.u, o, L2Table(i));
    LinkTable(s.l1, s.tables, s.own[o := L2Table(i)], g.u, i, o, z);
    EnterTable(s.tables, s.l1, s.cache, s.stamps, s.accessCounter, s.file, g.u, i, z, o, c);
    MappingStep(g, s, s', o, L2Table(i));
  }

  /** An unlinked cluster becomes the data of guest cluster (i, j). */
  lemma LinkDataKeeps(g: Geometry, s: State, s': State, i: nat, j: nat, o: nat, e: seq<nat>, c: CachedTable)
    requires Core(g, s) && i in s.cache && i in s.tables && o in s.own && s.own[o] == Unlinked
    requires j < |s.tables[i]| && e == SetEntry(s.tables[i], j, o + COPIED)
    requires c == s.cache[i].(entries := e, dirty := true)
    requires s' == s.(tables := s.tables[i := e], own := s.own[o := Data(i, j)], cache := s.cache[i := c])
    ensures Core(g, s')
    ensures forall x: nat, y: nat :: Host(s'.tables, x, y) == if (x, y) == (i, j) then Some(o) else Host(s.tables, x, y)
  {
    AssignRole(s.l1, s.tables, s.refcountTable, s.own, g.u, o, Data(i, j));
    LinkData(s.l1, s.tables, s.own[o := Data(i, j)], g.u, i, j, o);
    EditTable(s.tables, s.l1, s.cache, s.stamps, s.accessCounter, s.file, g.u, i, e, c);
    MappingStep(g, s, s', o, Data(i, j));
  }
}
