/** The header points to the clusters that were reserved for the refcount table, and
    the table is written there. */
module Qcow2Relocate {
  import opened Bytes
  import opened Qcow2Header
  import opened Qcow2Image
  import opened Qcow2State
  import opened Qcow2Count
  import opened Qcow2Persist
  import opened Qcow2Create
  import opened Qcow2Move

  // ----- roles

  /** The m clusters at `at` become part of the refcount table. */
  ghost function Retag(own: Owners, at: nat, m: nat, u: Sectors): Owners {
    if m == 0 then own else Retag(own, at, m - 1, u)[at + Times(m - 1, Cs(u)) := RefcountTable]
  }

  /** Retagging gives RefcountTable to clusters of the region, which had no use, and
      leaves the rest. */
  lemma {:induction false} RetagOnly(own: Owners, at: nat, m: nat, u: Sectors, o: nat)
    requires Fresh(own, at, m, u)
    ensures o in Retag(own, at, m, u) <==> o in own
    ensures o in own && own[o] != Unlinked ==> Retag(own, at, m, u)[o] == own[o]
    ensures o in own && own[o] == Unlinked ==>
      Retag(own, at, m, u)[o] == Unlinked || Retag(own, at, m, u)[o] == RefcountTable
    ensures o in own && (o < at || at + Times(m, Cs(u)) <= o) ==> Retag(own, at, m, u)[o] == own[o]
  {
    if m > 0 {
      RetagOnly(own, at, m - 1, u, o);
      assert Times(m - 1, Cs(u)) + at in own;
    }
  }

  lemma RetagMapped(l1: seq<nat>, t: Tables, rt: seq<nat>, own: Owners, u: Sectors, at: nat, m: nat, end: nat)
    requires Mapped(l1, t, own, u) && Blocks(rt, own) && Aligned(own, u, end) && Fresh(own, at, m, u)
    ensures Mapped(l1, t, Retag(own, at, m, u), u) && Blocks(rt, Retag(own, at, m, u))
    ensures Aligned(Retag(own, at, m, u), u, end)
  {
    forall o: nat
      ensures o in Retag(own, at, m, u) <==> o in own
      ensures o in own && own[o] != Unlinked ==> Retag(own, at, m, u)[o] == own[o]
    {
      RetagOnly(own, at, m, u, o);
    }
  }

  /** A region of another table is as before. */
  lemma RetagOther(own: Owners, at: nat, m: nat, u: Sectors, b: nat, len: nat, r: Role)
    requires Fresh(own, at, m, u) && Region(own, b, len, r) && r != Unlinked
    ensures Region(Retag(own, at, m, u), b, len, r)
  {
    forall o: nat
      ensures o in Retag(own, at, m, u) <==> o in own
      ensures o in own && own[o] != Unlinked ==> Retag(own, at, m, u)[o] == own[o]
    {
      RetagOnly(own, at, m, u, o);
    }
  }

  /** The clusters of the region are the table's. */
  lemma {:induction false} RetagHere(own: Owners, at: nat, m: nat, u: Sectors, o: nat, end: nat)
    requires Aligned(own, u, end) && Multiple(at, Cs(u)) && Fresh(own, at, m, u) && o in own
    requires at <= o < at + Times(m, Cs(u))
    ensures o in Retag(own, at, m, u) && Retag(own, at, m, u)[o] == RefcountTable
  {
    RetagOnly(own, at, m, u, o);
    if m > 0 && o < at + Times(m - 1, Cs(u)) {
      RetagHere(own, at, m - 1, u, o, end);
    } else if m > 0 {
      MultipleMore(at, m - 1, Cs(u));
      if at + Times(m - 1, Cs(u)) < o {
        Apart(at + Times(m - 1, Cs(u)), o, Cs(u));
      }
    }
  }

  lemma RetagRegion(own: Owners, at: nat, m: nat, u: Sectors, end: nat)
    requires Aligned(own, u, end) && Multiple(at, Cs(u)) && Fresh(own, at, m, u) && m > 0
    ensures Region(Retag(own, at, m, u), at, Times(m, Cs(u)), RefcountTable)
  {
    assert Times(0, Cs(u)) + at in own;
    TimesLess(0, m, Cs(u));
    RetagHere(own, at, m, u, at, end);
    forall o | o in Retag(own, at, m, u) && at <= o < at + Times(m, Cs(u))
      ensures Retag(own, at, m, u)[o] == RefcountTable {
      RetagOnly(own, at, m, u, o);
      RetagHere(own, at, m, u, o, end);
    }
  }

  /** The reserved clusters are adopted as the place of the table. */
  lemma AdoptRegion(g: Geometry, s: State, g': Geometry, s': State, at: nat, m: nat)
    requires Inv(g, s) && m > 0 && Multiple(at, Cs(g.u)) && Fresh(s.own, at, m, g.u)
    requires at + Times(m, Cs(g.u)) <= |s.file|
    requires forall x :: at <= x < at + Times(m, Cs(g.u)) ==> s.file[x] == 0
    requires g' == g.(rcOffset := at, rcBytes := Times(m, Cs(g.u))) && s' == s.(own := Retag(s.own, at, m, g.u))
    ensures Inv(g', s')
  {
    RetagMapped(s.l1, s.tables, s.refcountTable, s.own, g.u, at, m, |s.file|);
    RetagOther(s.own, at, m, g.u, g.l1Offset, 8 * |s.l1|, L1Table);
    RetagRegion(s.own, at, m, g.u, |s.file|);
    RetagOnly(s.own, at, m, g.u, 0);
  }

  // ----- the header

  lemma HeaderRegion(own: Owners, u: Sectors, end: nat)
    requires 0 in own && own[0] == HeaderCluster && Aligned(own, u, end)
    ensures Region(own, 0, Cs(u), HeaderCluster)
  {
    forall o | o in own && 0 <= o < Cs(u) ensures own[o] == HeaderCluster {
    }
  }

  /** A region with another role lies behind the header's cluster. */
  lemma BehindHeader(own: Owners, u: Sectors, end: nat, at: nat, len: nat, r: Role)
    requires 0 in own && own[0] == HeaderCluster && Aligned(own, u, end) && Region(own, at, len, r)
    requires r != HeaderCluster
    ensures len > 0 ==> Cs(u) <= at
  {
    if len > 0 {
      Apart(0, at, Cs(u));
    }
  }

  lemma NewHeadBytes(f: seq<byte>, f': seq<byte>, d0: seq<byte>, d: seq<byte>, path: seq<byte>)
    requires |d0| == |d| && |d| + |path| <= |f| && f[..|d| + |path|] == d0 + path && f' == Splice(f, 0, d)
    ensures f'[..|d| + |path|] == d + path
  {
    forall x | 0 <= x < |d| + |path| ensures f'[x] == (d + path)[x] {
      if x >= |d| {
        assert f[..|d| + |path|][x] == path[x - |d|];
      }
    }
  }

  /** Rewriting the header, without the path that follows it. */
  lemma RewriteHeader(g: Geometry, s: State, g': Geometry, s': State, d0: seq<byte>, d: seq<byte>, path: seq<byte>)
    requires Inv(g, s) && g.head == d0 + path && |d| == |d0| && g' == g.(head := d + path)
    requires s' == s.(file := Splice(s.file, 0, d))
    ensures Inv(g', s') && SameL1(g, s, s'.file) && forall base :: DiskOf(g', s', base) == DiskOf(g, s, base)
  {
    HeaderRegion(s.own, g.u, |s.file|);
    RegionWrite(s.own, g.u, s.file, s'.file, 0, d, Cs(g.u), HeaderCluster);
    CoherentOutside(s.l1, s.tables, s.own, s.cache, s.file, s'.file, HeaderCluster, g.u);
    BehindHeader(s.own, g.u, |s.file|, g.rcOffset, g.rcBytes, RefcountTable);
    BehindHeader(s.own, g.u, |s.file|, g.l1Offset, 8 * |s.l1|, L1Table);
    NewHeadBytes(s.file, s'.file, d0, d, path);
    if CountsKnown(g, s) {
      CountedOutside(s.refcountTable, s.own, s.file, s'.file, HeaderCluster, g.u, Quot(|s.file|, Cs(g.u)));
    }
    forall base ensures DiskOf(g', s', base) == DiskOf(g, s, base) {
      DiskOutside(s.l1, s.tables, s.own, s.file, s'.file, HeaderCluster, g.u, base, g.size);
    }
  }

  // ----- all of it

  function MovedHeader(h: Header, at: nat, m: nat): Header { h.(refcountTableOffset := at, refcountTableClusters := m) }

  /** The geometry that the moved header says. */
  function Relocated(g: Geometry, h: Header, path: seq<byte>, at: nat, m: nat): Geometry {
    g.(head := WriteHeader(MovedHeader(h, at, m)) + path, rcOffset := at, rcBytes := Times(m, Cs(g.u)))
  }

  lemma RelocatedHeaded(g: Geometry, h: Header, path: seq<byte>, at: nat, m: nat)
    requires Headed(g, h, path)
    ensures Headed(Relocated(g, h, path, at, m), MovedHeader(h, at, m), path) && g.head == WriteHeader(h) + path
  {
    assert Note(Key);
    TimesIs(m, Cs(g.u));
  }

  /** The image after the reserved clusters have been adopted and the header has been
      rewritten. */
  ghost function Adopted(g: Geometry, s: State, h: Header, at: nat, m: nat): State {
    s.(own := Retag(s.own, at, m, g.u), file := WriteFile(s.file, 0, WriteHeader(MovedHeader(h, at, m))))
  }

  lemma AdoptedInv(g: Geometry, s: State, h: Header, path: seq<byte>, at: nat, m: nat, g': Geometry, s': State)
    requires Inv(g, s) && m > 0 && Multiple(at, Cs(g.u)) && Fresh(s.own, at, m, g.u)
    requires at + Times(m, Cs(g.u)) <= |s.file|
    requires forall x :: at <= x < at + Times(m, Cs(g.u)) ==> s.file[x] == 0
    requires g.head == WriteHeader(h) + path && g' == Relocated(g, h, path, at, m) && s' == Adopted(g, s, h, at, m)
    ensures Inv(g', s') && SameL1(g, s, s'.file) && forall base :: DiskOf(g', s', base) == DiskOf(g, s, base)
  {
    var gm, sm := g.(rcOffset := at, rcBytes := Times(m, Cs(g.u))), s.(own := Retag(s.own, at, m, g.u));
    AdoptRegion(g, s, gm, sm, at, m);
    RewriteHeader(gm, sm, g', s', WriteHeader(h), WriteHeader(MovedHeader(h, at, m)), path);
    forall base ensures DiskOf(g', s', base) == DiskOf(g, s, base) {
      assert DiskOf(gm, sm, base) == DiskOf(g, s, base);
    }
  }

  lemma L1Still(g: Geometry, s: State, g': Geometry, s': State)
    requires L1OnDisk(g, s) && SameL1(g, s, s'.file) && s'.l1 == s.l1 && g'.l1Offset == g.l1Offset
    ensures L1OnDisk(g', s')
  {
    var a, n := g.l1Offset, 8 * |s.l1|;
    assert s'.file[a..a + n] == s.file[a..a + n];
  }

  /** The length of a table that has an entry for each of the m clusters at `next`. */
  function Reaching(u: Sectors, next: nat, m: nat): nat
    requires m > 0
  {
    Upto(Quot(next, Cs(u)), m, PerBlock(u))
  }

  /** The blocks that are added for m clusters at `next` cover themselves. */
  predicate Tidy(u: Sectors, next: nat, m: nat) {
    Covering(Quot(next, Cs(u)), Quot(next, Cs(u)) + m, PerBlock(u))
  }

  /** The clusters hold the table, also if counting them has made it longer. */
  predicate Roomy(u: Sectors, next: nat, m: nat) {
    m > 0 && 8 * Reaching(u, next, m) <= Times(m, Cs(u))
  }

  /** A table of 128 entries and 512-byte clusters, 32767 of them in use: the two
      clusters for the table begin a new range, which makes the table longer than
      the two clusters. */
  lemma TightMove(u: Sectors, next: nat, m: nat)
    requires u == 1 && next == 512 * 32767 && m == DivUp(8 * 128, Cs(u))
    ensures m == 2 && Tidy(u, next, m) && !Roomy(u, next, m)
  {
    DivUpIs(1024, 512, 2, 511);
    QuotRem(next, 512, 32767, 0);
    QuotRem(32768, 256, 128, 0);
    QuotRem(32767 + 255, 256, 128, 254);
    TimesIs(2, 512);
  }

  /** A table of 19190 entries and 512-byte clusters, 4912630 of them in use: among the
      300 clusters for the table a range begins that ends before they do. */
  lemma LongMove(u: Sectors, next: nat, m: nat)
    requires u == 1 && next == 512 * 4912630 && m == DivUp(8 * 19190, Cs(u))
    ensures m == 300 && !Tidy(u, next, m) && Roomy(u, next, m)
  {
    DivUpIs(153520, 512, 300, 431);
    QuotRem(next, 512, 4912630, 0);
    QuotRem(4912630 + 255, 256, 19190, 245);
    QuotRem(4912929, 256, 19191, 33);
    TimesIs(300, 512);
  }

  /** After its clusters have been counted, the block at cluster 4912930 has refcount
      zero. */
  lemma LongMoveMisses(g: Geometry, r: State, s: State, next: nat, n0: nat, m: nat)
    requires g.u == 1 && next == 512 * 4912630 && m == DivUp(8 * 19190, Cs(g.u)) && n0 == Quot(next, Cs(g.u))
    requires g.counts != Lost && Pending(g, r, s, next, n0, m, m)
    ensures Missed(g, s, 4912930) && !AllCounted(g, s)
  {
    LongMove(g.u, next, m);
    QuotRem(next, 512, 4912630, 0);
    LoopCounts(g, r, s, next, n0, m);
  }

  /** The number of clusters that a table needs, and that its move adds to the file. */
  function TableClusters(u: Sectors, rt: seq<nat>): nat { DivUp(8 * |rt|, Cs(u)) }

  function MoveCost(u: Sectors, next: nat, rt: seq<nat>): nat {
    var m := TableClusters(u, rt);
    m + Extra(rt, Quot(next, Cs(u)), m, PerBlock(u))
  }

  /** A move of the table can be followed: the number of clusters fits the header's
      field, and the table ends within the blocks that are added behind them. */
  predicate Relocatable(u: Sectors, next: nat, rt: seq<nat>) {
    var m := TableClusters(u, rt);
    0 < m < 0x1_0000_0000 && 8 * Max(|rt|, Reaching(u, next, m)) <= Times(MoveCost(u, next, rt), Cs(u))
  }

  lemma {:induction false} LackingBehind(rt: seq<nat>, from: nat, end: nat)
    requires from <= |rt| <= end
    ensures end - |rt| <= Lacking(rt, from, end)
    decreases end
  {
    if |rt| < end {
      LackingBehind(rt, from, end - 1);
    }
  }

  /** A table that reaches the range of the cursor, and whose clusters can be numbered, can
      always be followed: for each entry by which counting makes it longer, a block
      is added. */
  lemma ReachingMoves(u: Sectors, next: nat, rt: seq<nat>)
    requires 0 < TableClusters(u, rt) < 0x1_0000_0000 && Quot(Quot(next, Cs(u)), PerBlock(u)) <= |rt|
    ensures Relocatable(u, next, rt)
  {
    var m, n0 := TableClusters(u, rt), Quot(next, Cs(u));
    DivUpCovers(8 * |rt|, Cs(u));
    var x := Extra(rt, n0, m, PerBlock(u));
    TimesAdd(m, x, Cs(u));
    if |rt| < Reaching(u, next, m) {
      LackingBehind(rt, Quot(n0, PerBlock(u)), Reaching(u, next, m));
      TimesAtLeast(x, Cs(u), 8);
    }
  }

  /** Nothing but the place of the refcount table has changed in the header. */
  ghost predicate Moved(g: Geometry, h: Header, g': Geometry, h': Header) {
    && g' == g.(head := g'.head, rcOffset := g'.rcOffset, rcBytes := g'.rcBytes, counts := g'.counts)
    && (h' == h || (h' == MovedHeader(h, h'.refcountTableOffset, h'.refcountTableClusters)
                    && h'.refcountTableOffset < 0x1_0000_0000_0000_0000 && h'.refcountTableClusters < 0x1_0000_0000))
  }

  lemma MovedCreated(g: Geometry, h: Header, g': Geometry, h': Header, path: seq<byte>)
    requires Created(h, path) && Moved(g, h, g', h')
    ensures Created(h', path)
  {
  }

  /** Only the contents of the file and the state of the cache have changed. */
  ghost predicate Steady(g: Geometry, s: State, g': Geometry, s': State) {
    g' == g && |s'.file| == |s.file| && s' == s.(file := s'.file, cache := s'.cache)
  }

  /** Where the file ends after a move. */
  function MoveEnd(g: Geometry, s: State): nat { s.next + Times(MoveCost(g.u, s.next, s.refcountTable), Cs(g.u)) }

  /** The refcounts survive a move to m clusters at `next`. */
  predicate Sparing(u: Sectors, next: nat, m: nat) { Tidy(u, next, m) && Roomy(u, next, m) }

  /** What writing the refcount table does to the rest of the image: nothing, unless the
      table moves.  Then the file grows by what the move costs, the header has the
      new place, and the refcounts are kept if and only if the move spares them. */
  ghost predicate Relocates(g: Geometry, s: State, g': Geometry, s': State, done: bool) {
    if TableFitsHeader(g, s) || !Relocatable(g.u, s.next, s.refcountTable) then Steady(g, s, g', s')
    else
      var m := TableClusters(g.u, s.refcountTable);
      && s.next <= s'.next <= MoveEnd(g, s) && |s'.refcountTable| <= Max(|s.refcountTable|, Reaching(g.u, s.next, m))
      && (!done ==> g' == g && s'.next > g.limit)
      && (done ==> |s'.file| == s'.next == MoveEnd(g, s) && g'.rcOffset == s.next && g'.rcBytes == Times(m, Cs(g.u)))
      && (done ==> g'.counts == if Sparing(g.u, s.next, m) then g.counts else Lost)
      && (done && g.counts != Lost && !Sparing(g.u, s.next, m) ==> Spoilt(g', s'))
  }

  /** The table that opening reads leaves a cluster of the file without refcount. */
  ghost predicate Spoilt(g: Geometry, s: State) {
    exists c: nat :: c < Quot(|s.file|, Cs(g.u)) && Refcount(Whole(g, s.refcountTable), s.file, g.u, c) == 0
  }

  /** From s, m clusters have been reserved and counted, with x blocks behind them, which
      led to s1. */
  ghost predicate Provided(g: Geometry, s: State, s1: State, m: nat, x: nat) {
    forall k {:trigger Note(k)} :: Note(k) ==> Providing(g, s, s1, m, x)
  }

  ghost predicate Providing(g: Geometry, s: State, s1: State, m: nat, x: nat) {
    && m > 0 && Grew(g, s, s1) && Sound(g, s1) && Unused(s, s1, m, g.u)
    && |s1.refcountTable| == Max(|s.refcountTable|, Reaching(g.u, s.next, m))
    && |s1.file| == s1.next == s.next + Times(m, Cs(g.u)) + Times(x, Cs(g.u))
    && Fenced(s1.own, s.next + Times(m, Cs(g.u)), x, g.u)
  }

  /** Moving the refcount table, from the state s1 in which clusters are reserved for it:
      they become its place, the header says so, the L1 table and the guest disk stay,
      and the image satisfies the invariant.  The table fits its new place exactly
      when that is roomy, which can be told beforehand. */
  lemma MoveMeans(g: Geometry, s: State, s1: State, h: Header, path: seq<byte>, m: nat, x: nat, g': Geometry, s': State)
    requires Multiple(s.next, Cs(g.u)) && L1OnDisk(g, s) && Headed(g, h, path)
    requires Provided(g, s, s1, m, x) && 8 * |s.refcountTable| <= Times(m, Cs(g.u))
    requires g' == Relocated(g, h, path, s.next, m) && s' == Adopted(g, s1, h, s.next, m)
    ensures Headed(g', MovedHeader(h, s.next, m), path) && Sound(g', s') && L1OnDisk(g', s')
    ensures forall base :: DiskOf(g', s', base) == DiskOf(g, s, base)
    ensures TableFitsHeader(g', s') <==> Roomy(g.u, s.next, m)
    ensures Fenced(s'.own, g'.rcOffset + g'.rcBytes, x, g.u)
  {
    ProvidedFits(g, s, s1, m, x);
    RelocatedHeaded(g, h, path, s.next, m);
    MoveFence(g, s, s1, m, x, s'.own, g'.rcOffset + g'.rcBytes);
    MoveFollows(g, s, s1, h, path, m, x, g', s');
  }

  /** What the facts about the reserved clusters say about the file. */
  lemma ProvidedEnd(g: Geometry, s: State, s1: State, m: nat, x: nat)
    requires Provided(g, s, s1, m, x)
    ensures m > 0 && Grew(g, s, s1) && Sound(g, s1)
    ensures |s1.refcountTable| == Max(|s.refcountTable|, Reaching(g.u, s.next, m))
    ensures |s1.file| == s1.next == s.next + Times(m, Cs(g.u)) + Times(x, Cs(g.u))
  {
    assert Note(Key);
  }

  lemma MoveFence(g: Geometry, s: State, s1: State, m: nat, x: nat, own: Owners, from: nat)
    requires Provided(g, s, s1, m, x) && own == Retag(s1.own, s.next, m, g.u) && from == s.next + Times(m, Cs(g.u))
    ensures Fenced(own, from, x, g.u)
  {
    assert Note(Key);
    RetagFenced(s1.own, own, s.next, m, g.u, from, x);
  }

  lemma ProvidedFits(g: Geometry, s: State, s1: State, m: nat, x: nat)
    requires Provided(g, s, s1, m, x) && 8 * |s.refcountTable| <= Times(m, Cs(g.u))
    ensures 8 * |s1.refcountTable| <= Times(m, Cs(g.u)) <==> Roomy(g.u, s.next, m)
  {
    assert Note(Key);
    FitsRoomy(g.u, s.next, m, |s.refcountTable|, |s1.refcountTable|);
  }

  lemma FitsRoomy(u: Sectors, next: nat, m: nat, n: nat, n': nat)
    requires m > 0 && 8 * n <= Times(m, Cs(u)) && n' == Max(n, Reaching(u, next, m))
    ensures 8 * n' <= Times(m, Cs(u)) <==> Roomy(u, next, m)
  {
  }

  lemma MoveFollows(g: Geometry, s: State, s1: State, h: Header, path: seq<byte>, m: nat, x: nat,
                    g': Geometry, s': State)
    requires Multiple(s.next, Cs(g.u)) && L1OnDisk(g, s) && g.head == WriteHeader(h) + path
    requires Provided(g, s, s1, m, x)
    requires g' == Relocated(g, h, path, s.next, m) && s' == Adopted(g, s1, h, s.next, m)
    ensures Sound(g', s') && L1OnDisk(g', s') && forall base :: DiskOf(g', s', base) == DiskOf(g, s, base)
  {
    assert Look(Key);
    assert Note(Key);
    L1Still(g, s, g, s1);
    Open(g, s1);
    AdoptedInv(g, s1, h, path, s.next, m, g', s');
    Close(g', s');
    L1Still(g, s1, g', s');
  }

  lemma RetagFenced(own: Owners, own': Owners, at: nat, m: nat, u: Sectors, from: nat, n: nat)
    requires Fresh(own, at, m, u) && Fenced(own, from, n, u) && own' == Retag(own, at, m, u)
    ensures Fenced(own', from, n, u)
  {
    forall i: nat | i < n ensures Times(i, Cs(u)) + from in own' && own'[Times(i, Cs(u)) + from].RefcountBlock? {
      RetagOnly(own, at, m, u, Times(i, Cs(u)) + from);
    }
  }

  // ----- a table that does not fit its place

  lemma BlockSpliced(g: Geometry, s: State, s': State, o: nat, d: seq<byte>)
    requires Core(g, s) && o in s.own && s.own[o].RefcountBlock? && |d| <= Cs(g.u) && o + |d| <= |s.file|
    requires s' == s.(file := Splice(s.file, o, d))
    ensures Core(g, s') && Extends(g, s, s')
  {
    assert OnlyAt(s.file, s'.file, o, g.u);
    AlignedClear(s.own, g.u, |s.file|, o);
    OverwriteKeeps(g, s, s', o);
    KeptStep(s.own, s.file, s.file, s'.file, o, g.u);
    SameL1Step(g, s, s.file, s'.file, o);
  }

  lemma SpliceTwice(f: seq<byte>, f1: seq<byte>, f2: seq<byte>, at: nat, d: seq<byte>, c: nat)
    requires c <= |d| && at + |d| <= |f| && f1 == Splice(f, at, d[..c]) && f2 == Splice(f, at, d)
    ensures f2 == Splice(f1, at + c, d[c..])
  {
  }

  lemma SplitState(s: State, m: State, s': State, at: nat, d: seq<byte>, c: nat)
    requires c <= |d| && at + |d| <= |s.file|
    requires m == s.(file := Splice(s.file, at, d[..c])) && s' == s.(file := Splice(s.file, at, d))
    ensures |m.file| == |s.file| && m.own == s.own && s' == m.(file := Splice(m.file, at + c, d[c..]))
  {
    SpliceTwice(s.file, m.file, s'.file, at, d, c);
  }

  lemma FencedRest(own: Owners, at: nat, n: nat, u: Sectors)
    requires n > 0 && Fenced(own, at, n, u)
    ensures at in own && own[at].RefcountBlock? && Fenced(own, at + Cs(u), n - 1, u)
  {
    assert Times(0, Cs(u)) + at in own;
    forall i: nat | i < n - 1
      ensures Times(i, Cs(u)) + (at + Cs(u)) in own && own[Times(i, Cs(u)) + (at + Cs(u))].RefcountBlock?
    {
      assert Times(i + 1, Cs(u)) + at in own;
    }
  }

  /** `Core` as one fact. */
  ghost predicate Firm(g: Geometry, s: State) {
    forall k {:trigger Look(k)} :: Look(k) ==> Core(g, s)
  }

  lemma FirmStep(g: Geometry, s: State, s': State, o: nat, d: seq<byte>)
    requires Firm(g, s) && o in s.own && s.own[o].RefcountBlock? && |d| <= Cs(g.u) && o + |d| <= |s.file|
    requires s' == s.(file := Splice(s.file, o, d))
    ensures Firm(g, s') && Grew(g, s, s')
  {
    assert Look(Key);
    BlockSpliced(g, s, s', o, d);
  }

  /** Writing d over n refcount blocks in a row spoils only them. */
  lemma {:induction false} BlocksSpliced(g: Geometry, s: State, s': State, at: nat, n: nat, d: seq<byte>)
    requires Firm(g, s) && Fenced(s.own, at, n, g.u) && |d| <= Times(n, Cs(g.u)) && at + |d| <= |s.file|
    requires s' == s.(file := Splice(s.file, at, d))
    ensures Firm(g, s') && Grew(g, s, s')
    decreases n
  {
    if d == [] {
      assert s'.file == s.file;
      GrewNot(g, s);
    } else {
      FencedRest(s.own, at, n, g.u);
      if |d| <= Cs(g.u) {
        FirmStep(g, s, s', at, d);
      } else {
        var m := s.(file := Splice(s.file, at, d[..Cs(g.u)]));
        SplitState(s, m, s', at, d, Cs(g.u));
        FirmStep(g, s, m, at, d[..Cs(g.u)]);
        BlocksSpliced(g, m, s', at + Cs(g.u), n - 1, d[Cs(g.u)..]);
        GrewTwice(g, s, m, s');
      }
    }
  }

  /** The table does not fit its place, but ends within the x refcount blocks behind it. */
  ghost predicate Spilling(g: Geometry, s: State, x: nat) {
    && g.counts == Lost && g.rcBytes < 8 * |s.refcountTable| <= g.rcBytes + Times(x, Cs(g.u))
    && g.rcOffset + 8 * |s.refcountTable| <= |s.file| && Fenced(s.own, g.rcOffset + g.rcBytes, x, g.u)
  }

  /** Writing such a table spoils refcounts and nothing else. */
  lemma SpillInv(g: Geometry, s: State, s': State, x: nat)
    requires Inv(g, s) && L1OnDisk(g, s) && Spilling(g, s, x)
    requires s' == s.(file := Splice(s.file, g.rcOffset, EncodeTable(s.refcountTable)))
    ensures Inv(g, s') && L1OnDisk(g, s') && forall base :: DiskOf(g, s', base) == DiskOf(g, s, base)
  {
    var d := EncodeTable(s.refcountTable);
    var sm := s.(file := Splice(s.file, g.rcOffset, d[..g.rcBytes]));
    TableWriteInv(g, s, sm, g.rcOffset, d[..g.rcBytes], g.rcBytes, RefcountTable);
    L1Kept(g, s, sm, d[..g.rcBytes]);
    SplitState(s, sm, s', g.rcOffset, d, g.rcBytes);
    SpillRest(g, sm, s', x, d[g.rcBytes..]);
    forall base ensures DiskOf(g, s', base) == DiskOf(g, s, base) {
      assert DiskOf(g, s', base) == DiskOf(g, sm, base) == DiskOf(g, s, base);
    }
  }

  lemma SpillRest(g: Geometry, s: State, s': State, x: nat, d: seq<byte>)
    requires Inv(g, s) && L1OnDisk(g, s) && g.counts == Lost && Fenced(s.own, g.rcOffset + g.rcBytes, x, g.u)
    requires |d| <= Times(x, Cs(g.u)) && g.rcOffset + g.rcBytes + |d| <= |s.file|
    requires s' == s.(file := Splice(s.file, g.rcOffset + g.rcBytes, d))
    ensures Inv(g, s') && L1OnDisk(g, s') && forall base :: DiskOf(g, s', base) == DiskOf(g, s, base)
  {
    BlocksSpliced(g, s, s', g.rcOffset + g.rcBytes, x, d);
    assert Look(Key);
    L1Still(g, s, g, s');
  }

  // ----- what a move does to the refcounts

  lemma OutsideCount(g: Geometry, s: State, f: seq<byte>, r: Role, c: nat)
    requires Core(g, s) && OnlyRole(s.own, s.file, f, r, g.u) && !r.RefcountBlock?
    ensures Refcount(s.refcountTable, f, g.u, c) == Refcount(s.refcountTable, s.file, g.u, c)
  {
    CountOutside(s.refcountTable, s.own, s.file, f, r, g.u, Quot(c, PerBlock(g.u)), Rem(c, PerBlock(g.u)));
  }

  /** Rewriting the header leaves the refcounts. */
  lemma AdoptedCount(g: Geometry, s: State, h: Header, path: seq<byte>, at: nat, m: nat, s': State, c: nat)
    requires Sound(g, s) && g.head == WriteHeader(h) + path && s' == Adopted(g, s, h, at, m)
    ensures Refcount(s'.refcountTable, s'.file, g.u, c) == Refcount(s.refcountTable, s.file, g.u, c)
  {
    Open(g, s);
    HeaderRegion(s.own, g.u, |s.file|);
    RegionWrite(s.own, g.u, s.file, s'.file, 0, WriteHeader(MovedHeader(h, at, m)), Cs(g.u), HeaderCluster);
    OutsideCount(g, s, s'.file, HeaderCluster, c);
  }

  /** Writing a table that fits leaves the refcounts. */
  lemma WrittenCount(g: Geometry, s: State, s': State, c: nat)
    requires Sound(g, s) && TableFitsHeader(g, s)
    requires s' == s.(file := WriteFile(s.file, g.rcOffset, EncodeTable(s.refcountTable)))
    ensures Refcount(s'.refcountTable, s'.file, g.u, c) == Refcount(s.refcountTable, s.file, g.u, c)
  {
    Open(g, s);
    RegionWrite(s.own, g.u, s.file, s'.file, g.rcOffset, EncodeTable(s.refcountTable), g.rcBytes, RefcountTable);
    OutsideCount(g, s, s'.file, RefcountTable, c);
  }

  /** A cluster that is missed is missed by the table that opening reads. */
  lemma MissedSpoilt(g: Geometry, s: State, c: nat)
    requires Missed(g, s, c) && |s.file| == s.next
    ensures Spoilt(g, s)
  {
    assert Refcount(Whole(g, s.refcountTable), s.file, g.u, c) == 0;
  }

  /** So is one whose entry lies behind the end of the table's place. */
  lemma CutSpoilt(g: Geometry, s: State, c: nat)
    requires c < Quot(|s.file|, Cs(g.u)) && g.rcBytes < 8 * (Quot(c, PerBlock(g.u)) + 1) && g.rcBytes % 8 == 0
    ensures Spoilt(g, s)
  {
    assert Refcount(Whole(g, s.refcountTable), s.file, g.u, c) == 0;
  }

  lemma PlacedCounts(g: Geometry, s: State, h: Header, path: seq<byte>, at: nat, m: nat, s': State)
    requires Sound(g, s) && Headed(g, h, path) && s' == Adopted(g, s, h, at, m)
    ensures forall c: nat :: Refcount(s'.refcountTable, s'.file, g.u, c) == Refcount(s.refcountTable, s.file, g.u, c)
  {
    RelocatedHeaded(g, h, path, at, m);
    forall c: nat ensures Refcount(s'.refcountTable, s'.file, g.u, c) == Refcount(s.refcountTable, s.file, g.u, c) {
      AdoptedCount(g, s, h, path, at, m, s', c);
    }
  }

  /** Placing the table, as a whole. */
  lemma PlaceMeans(g: Geometry, s: State, s1: State, h: Header, path: seq<byte>, m: nat, x: nat, g': Geometry,
                   s': State)
    requires Multiple(s.next, Cs(g.u)) && L1OnDisk(g, s) && Headed(g, h, path) && s.next < 0x1_0000_0000_0000_0000
    requires Provided(g, s, s1, m, x) && 8 * |s.refcountTable| <= Times(m, Cs(g.u)) && m < 0x1_0000_0000
    requires g' == Relocated(g, h, path, s.next, m) && s' == Adopted(g, s1, h, s.next, m)
    ensures Headed(g', MovedHeader(h, s.next, m), path) && Sound(g', s') && L1OnDisk(g', s')
    ensures Moved(g, h, g', MovedHeader(h, s.next, m)) && |s'.file| == |s1.file|
    ensures forall base :: DiskOf(g', s', base) == DiskOf(g, s, base)
    ensures TableFitsHeader(g', s') <==> Roomy(g.u, s.next, m)
    ensures Fenced(s'.own, g'.rcOffset + g'.rcBytes, x, g.u)
    ensures forall c: nat :: Refcount(s'.refcountTable, s'.file, g.u, c) == Refcount(s1.refcountTable, s1.file, g.u, c)
  {
    ProvidedEnd(g, s, s1, m, x);
    MoveMeans(g, s, s1, h, path, m, x, g', s');
    PlacedCounts(g, s1, h, path, s.next, m, s');
    HeaderFits(g, s1, h, path);
  }

  lemma HeaderFits(g: Geometry, s: State, h: Header, path: seq<byte>)
    requires Sound(g, s) && Headed(g, h, path)
    ensures |WriteHeader(h)| <= |s.file|
  {
    Open(g, s);
    HeadedIs(g, h, path);
  }

  lemma WrittenCounts(g: Geometry, s: State, s': State)
    requires Sound(g, s) && TableFitsHeader(g, s)
    requires s' == s.(file := WriteFile(s.file, g.rcOffset, EncodeTable(s.refcountTable)))
    ensures forall c: nat :: Refcount(s'.refcountTable, s'.file, g.u, c) == Refcount(s.refcountTable, s.file, g.u, c)
  {
    forall c: nat ensures Refcount(s'.refcountTable, s'.file, g.u, c) == Refcount(s.refcountTable, s.file, g.u, c) {
      WrittenCount(g, s, s', c);
    }
  }

  lemma LastRange(u: Sectors, next: nat, m: nat, c: nat)
    requires m > 0 && c == Quot(next, Cs(u)) + m - 1
    ensures Reaching(u, next, m) == Quot(c, PerBlock(u)) + 1 && Times(m, Cs(u)) % 8 == 0
  {
    TimesScale(m, u);
    Eighths(Times(m, Cs(u)), Times(m, PerTable(u)));
  }

  lemma Eighths(a: nat, n: nat)
    requires a == 8 * n
    ensures a % 8 == 0
  {
  }

  /** A table that is cut off where its place ends forgets the last reserved cluster. */
  lemma TightSpoils(u: Sectors, next: nat, m: nat, g': Geometry, s': State)
    requires m > 0 && !Roomy(u, next, m) && g'.u == u && g'.rcBytes == Times(m, Cs(u))
    requires Multiple(next, Cs(u)) && next + Times(m, Cs(u)) <= |s'.file|
    ensures Spoilt(g', s')
  {
    var c := Quot(next, Cs(u)) + m - 1;
    LastReserved(next, m, Cs(u), |s'.file|);
    LastRange(u, next, m, c);
    CutSpoilt(g', s', c);
  }

  /** A move that does not spare the refcounts has left a cluster without: the one behind
      the reserved clusters, or the last of these. */
  lemma MoveSpoils(u: Sectors, next: nat, m: nat, g': Geometry, s': State)
    requires m > 0 && g'.u == u && g'.rcBytes == Times(m, Cs(u)) && |s'.file| == s'.next
    requires Multiple(next, Cs(u)) && next + Times(m, Cs(u)) <= |s'.file|
    requires !Tidy(u, next, m) && Roomy(u, next, m) ==> Missed(g', s', Quot(next, Cs(u)) + m)
    ensures !Sparing(u, next, m) ==> Spoilt(g', s')
  {
    if !Roomy(u, next, m) {
      TightSpoils(u, next, m, g', s');
    } else if !Tidy(u, next, m) {
      MissedSpoilt(g', s', Quot(next, Cs(u)) + m);
    }
  }

  lemma MoveDone(g: Geometry, s: State, g1: Geometry, s1: State, g': Geometry, s': State, m: nat, x: nat)
    requires !TableFitsHeader(g, s) && Relocatable(g.u, s.next, s.refcountTable)
    requires m == TableClusters(g.u, s.refcountTable)
    requires x == Extra(s.refcountTable, Quot(s.next, Cs(g.u)), m, PerBlock(g.u)) && Multiple(s.next, Cs(g.u))
    requires Provided(g1, s, s1, m, x) && g1 == Afterwards(g, Tidy(g.u, s.next, m)) && g'.u == g.u
    requires s' == s1.(file := s'.file, own := s'.own) && |s'.file| == |s1.file|
    requires g'.rcOffset == s.next && g'.rcBytes == Times(m, Cs(g.u))
    requires g'.counts == if Roomy(g.u, s.next, m) then g1.counts else Lost
    requires g.counts != Lost && !Tidy(g.u, s.next, m) && Roomy(g.u, s.next, m) ==>
      Missed(g', s', Quot(s.next, Cs(g.u)) + m)
    ensures Relocates(g, s, g', s', true)
  {
    ProvidedEnd(g1, s, s1, m, x);
    CostIs(g, s, m, x);
    if g.counts != Lost {
      MoveSpoils(g.u, s.next, m, g', s');
    }
  }

  lemma MoveRefused(g: Geometry, s: State, s': State, m: nat, x: nat)
    requires m == TableClusters(g.u, s.refcountTable) && m > 0
    requires x == Extra(s.refcountTable, Quot(s.next, Cs(g.u)), m, PerBlock(g.u))
    requires !TableFitsHeader(g, s) && Relocatable(g.u, s.next, s.refcountTable)
    requires s.next <= s'.next <= s.next + Times(m, Cs(g.u)) + Times(x, Cs(g.u)) && s'.next > g.limit
    requires |s'.refcountTable| <= Max(|s.refcountTable|, Reaching(g.u, s.next, m))
    ensures Relocates(g, s, g, s', false)
  {
    CostIs(g, s, m, x);
  }

  lemma LastReserved(at: nat, m: nat, c: nat, len: nat)
    requires c > 0 && Multiple(at, c) && at + Times(m, c) <= len
    ensures Quot(at, c) + m <= Quot(len, c)
  {
    MultipleIsTimes(at, c);
    NumberOf(Quot(at, c), m, c);
    QuotMono(at + Times(m, c), len, c);
  }

  lemma CostIs(g: Geometry, s: State, m: nat, x: nat)
    requires m == TableClusters(g.u, s.refcountTable)
    requires x == Extra(s.refcountTable, Quot(s.next, Cs(g.u)), m, PerBlock(g.u))
    ensures MoveEnd(g, s) == s.next + Times(m, Cs(g.u)) + Times(x, Cs(g.u))
    ensures 8 * |s.refcountTable| <= Times(m, Cs(g.u))
    ensures Times(MoveCost(g.u, s.next, s.refcountTable), Cs(g.u)) == Times(m, Cs(g.u)) + Times(x, Cs(g.u))
  {
    CostSum(g.u, s.next, s.refcountTable, m, x);
    TableCovered(g.u, |s.refcountTable|, m);
  }

  lemma CostSum(u: Sectors, next: nat, rt: seq<nat>, m: nat, x: nat)
    requires m == TableClusters(u, rt) && x == Extra(rt, Quot(next, Cs(u)), m, PerBlock(u))
    ensures Times(MoveCost(u, next, rt), Cs(u)) == Times(m, Cs(u)) + Times(x, Cs(u))
  {
    assert MoveCost(u, next, rt) == m + x;
    TimesAdd(m, x, Cs(u));
  }

  lemma TableCovered(u: Sectors, n: nat, m: nat)
    requires m == DivUp(8 * n, Cs(u))
    ensures 8 * n <= Times(m, Cs(u))
  {
    DivUpCovers(8 * n, Cs(u));
  }

  /** Counts that are given up leave everything else. */
  lemma LostSound(g: Geometry, s: State, g': Geometry)
    requires Sound(g, s) && g' == g.(counts := Lost)
    ensures Sound(g', s)
  {
    Open(g, s);
    Close(g', s);
  }

  lemma StillHeaded(g: Geometry, h: Header, path: seq<byte>, g': Geometry)
    requires Headed(g, h, path) && g' == g.(counts := g'.counts)
    ensures Headed(g', h, path)
  {
    assert Note(Key);
  }

  lemma SpillSound(g: Geometry, s: State, s': State, x: nat)
    requires Sound(g, s) && L1OnDisk(g, s) && Spilling(g, s, x)
    requires s' == s.(file := WriteFile(s.file, g.rcOffset, EncodeTable(s.refcountTable)))
    ensures Sound(g, s') && L1OnDisk(g, s') && RefcountTableOnDisk(g, s') && |s'.file| == |s.file|
    ensures forall base :: DiskOf(g, s', base) == DiskOf(g, s, base)
  {
    Open(g, s);
    SpillInv(g, s, s', x);
    Close(g, s');
  }

  // ----- the outcome as one fact

  /** The outcome of writing the refcount table. */
  ghost predicate Settling(g: Geometry, h: Header, s: State, g': Geometry, h': Header, s': State, path: seq<byte>,
                           done: bool) {
    && Sound(g', s') && L1OnDisk(g', s') && Headed(g', h', path) && Moved(g, h, g', h')
    && (forall base :: DiskOf(g', s', base) == DiskOf(g, s, base))
    && (done ==> RefcountTableOnDisk(g', s')) && Relocates(g, s, g', s', done)
    && (done <==> TableFitsHeader(g, s) || (Relocatable(g.u, s.next, s.refcountTable) && MoveEnd(g, s) <= g.limit))
  }

  /** The same as one fact. */
  ghost predicate Settled(g: Geometry, h: Header, s: State, g': Geometry, h': Header, s': State, path: seq<byte>,
                          done: bool) {
    forall k {:trigger Look(k)} :: Look(k) ==> Settling(g, h, s, g', h', s', path, done)
  }

  lemma WrittenSettled(g: Geometry, h: Header, s: State, s': State, path: seq<byte>)
    requires Sound(g, s') && L1OnDisk(g, s') && Headed(g, h, path) && TableFitsHeader(g, s)
    requires RefcountTableOnDisk(g, s')
    requires s' == s.(file := s'.file) && |s'.file| == |s.file|
    requires forall base :: DiskOf(g, s', base) == DiskOf(g, s, base)
    ensures Settled(g, h, s, g, h, s', path, true)
  {
  }

  lemma UnmovedSettled(g: Geometry, h: Header, s: State, path: seq<byte>)
    requires Sound(g, s) && L1OnDisk(g, s) && Headed(g, h, path)
    requires !TableFitsHeader(g, s) && !Relocatable(g.u, s.next, s.refcountTable)
    ensures Settled(g, h, s, g, h, s, path, false)
  {
  }

  lemma RefusedSettled(g: Geometry, h: Header, s: State, s': State, path: seq<byte>, m: nat, x: nat)
    requires Grew(g, s, s') && Sound(g, s') && L1OnDisk(g, s) && Headed(g, h, path)
    requires m == TableClusters(g.u, s.refcountTable) && m > 0
    requires x == Extra(s.refcountTable, Quot(s.next, Cs(g.u)), m, PerBlock(g.u))
    requires !TableFitsHeader(g, s) && Relocatable(g.u, s.next, s.refcountTable)
    requires s.next <= s'.next <= s.next + Times(m, Cs(g.u)) + Times(x, Cs(g.u)) && s'.next > g.limit
    requires |s'.refcountTable| <= Max(|s.refcountTable|, Reaching(g.u, s.next, m))
    ensures Settled(g, h, s, g, h, s', path, false)
  {
    GrewL1(g, s, s');
    MoveRefused(g, s, s', m, x);
    CostIs(g, s, m, x);
  }

  lemma MoveSettled(g: Geometry, h: Header, s: State, g1: Geometry, s1: State, g': Geometry, h': Header, s': State,
                    path: seq<byte>, m: nat, x: nat)
    requires Sound(g', s') && L1OnDisk(g', s') && Headed(g', h', path) && Moved(g1, h, g', h')
    requires RefcountTableOnDisk(g', s')
    requires forall base :: DiskOf(g', s', base) == DiskOf(g1, s, base)
    requires !TableFitsHeader(g, s) && Relocatable(g.u, s.next, s.refcountTable)
    requires m == TableClusters(g.u, s.refcountTable)
    requires x == Extra(s.refcountTable, Quot(s.next, Cs(g.u)), m, PerBlock(g.u)) && Multiple(s.next, Cs(g.u))
    requires s.next + Times(m, Cs(g.u)) + Times(x, Cs(g.u)) <= g.limit
    requires Provided(g1, s, s1, m, x) && g1 == Afterwards(g, Tidy(g.u, s.next, m))
    requires s' == s1.(file := s'.file, own := s'.own) && |s'.file| == |s1.file|
    requires g'.rcOffset == s.next && g'.rcBytes == Times(m, Cs(g.u))
    requires g'.counts == if Roomy(g.u, s.next, m) then g1.counts else Lost
    requires g.counts != Lost && !Tidy(g.u, s.next, m) && Roomy(g.u, s.next, m) ==>
      Missed(g', s', Quot(s.next, Cs(g.u)) + m)
    ensures Settled(g, h, s, g', h', s', path, true)
  {
    ProvidedEnd(g1, s, s1, m, x);
    CostIs(g, s, m, x);
    MoveDone(g, s, g1, s1, g', s', m, x);
  }

  lemma GrewL1(g: Geometry, s: State, s': State)
    requires Grew(g, s, s') && L1OnDisk(g, s)
    ensures L1OnDisk(g, s') && s.next <= s'.next && s'.l1 == s.l1 && s'.tables == s.tables && s'.cache == s.cache
    ensures forall base :: DiskOf(g, s', base) == DiskOf(g, s, base)
  {
    assert Look(Key);
    L1Still(g, s, g, s');
  }

  lemma WithinLimit(g: Geometry, s: State)
    requires Sound(g, s) && |s.file| == s.next
    ensures s.next <= g.limit
  {
    Open(g, s);
  }

  lemma NextAligned(g: Geometry, s: State)
    requires Sound(g, s)
    ensures Multiple(s.next, Cs(g.u)) && |s.file| <= g.limit <= REACH && (s.next <= g.limit ==> |s.file| == s.next)
  {
    Open(g, s);
  }
}
