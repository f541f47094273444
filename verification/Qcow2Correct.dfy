/** Every operation keeps the invariant of the image, and what it does to the
    guest disk. */
module Qcow2Correct {
  import opened Bytes
  import opened Qcow2Image
  import opened Qcow2State
  import opened Qcow2Ops
  import opened Qcow2Count

  // ----- the L2 cache

  lemma FlushInv(g: Geometry, s: State, s': State, i: nat)
    requires Inv(g, s) && i in s.cache && s' == FlushL2Table(s, i)
    ensures Inv(g, s') && Transparent(g, s, s') && s'.cache == s.cache[i := s.cache[i].(dirty := false)]
  {
    if s.cache[i].dirty {
      TableFits(g, s, i);
      FlushRefs(g, s, s', i);
    } else {
      AlreadyClean(s.cache, i);
      TransparentRefl(g, s);
    }
  }

  lemma EvictInv(g: Geometry, s: State, s': State, v: nat)
    requires Inv(g, s) && v in s.cache && s' == EvictL2Entry(s, v)
    ensures Inv(g, s') && Transparent(g, s, s') && s'.cache == s.cache - {v}
  {
    var s1 := FlushL2Table(s, v);
    FlushInv(g, s, s1, v);
    FlushThenEvict(g, s, s1, s', v);
  }

  lemma LoadInv(g: Geometry, s: State, s': State, i: nat, at: nat, ok: bool)
    requires Inv(g, s) && i in s.tables && i !in s.cache && i < |s.l1| && s.l1[i] == at + COPIED
    requires (s', ok) == LoadL2Table(g, s, i, at)
    ensures Inv(g, s') && Transparent(g, s, s') && ok && i in s'.cache
  {
    OnDisk(g, s, i);
    StampKeeps(g, s, s', i, CachedTable(DiskTable(s.file, at, g.u), false, at, 0));
  }

  lemma TouchInv(g: Geometry, s: State, s': State, i: nat)
    requires Inv(g, s) && i in s.cache && s' == Stamp(s, i, s.cache[i])
    ensures Inv(g, s') && Transparent(g, s, s') && i in s'.cache
  {
    Cached(g, s, i);
    StampKeeps(g, s, s', i, s.cache[i]);
  }

  lemma EvictLoadInv(g: Geometry, s: State, s': State, i: nat, at: nat, victim: nat, ok: bool)
    requires Inv(g, s) && i in s.tables && i !in s.cache && i < |s.l1| && s.l1[i] == at + COPIED && victim in s.cache
    requires (s', ok) == LoadL2Table(g, EvictL2Entry(s, victim), i, at)
    ensures Inv(g, s') && Transparent(g, s, s') && ok && i in s'.cache
  {
    var s1 := EvictL2Entry(s, victim);
    EvictInv(g, s, s1, victim);
    LoadInv(g, s1, s', i, at, ok);
    TransparentTrans(g, s, s1, s');
  }

  lemma EnsureInv(g: Geometry, s: State, s': State, i: nat, at: nat, victim: nat, ok: bool)
    requires Inv(g, s) && i in s.tables && i < |s.l1| && s.l1[i] == at + COPIED
    requires MustEvict(s, i) ==> victim in s.cache
    requires (s', ok) == EnsureL2Cached(g, s, i, at, victim)
    ensures Inv(g, s') && Transparent(g, s, s') && ok && i in s'.cache
  {
    if i in s.cache {
      TouchInv(g, s, s', i);
    } else if MustEvict(s, i) {
      EvictLoadInv(g, s, s', i, at, victim, ok);
    } else {
      LoadInv(g, s, s', i, at, ok);
    }
  }

  lemma Cached(g: Geometry, s: State, i: nat)
    requires Inv(g, s) && i in s.cache
    ensures i in s.tables && s.cache[i].entries == s.tables[i] && |s.tables[i]| == PerTable(g.u)
    ensures i < |s.l1| && s.l1[i] == s.cache[i].hostOffset + COPIED
  {
  }

  // ----- address translation

  lemma TranslateMapped(g: Geometry, s: State, s': State, i: nat, j: nat, victim: nat, ok: bool)
    requires Inv(g, s) && i in s.tables && i < |s.l1| && j < PerTable(g.u)
    requires MustEvict(s, i) ==> victim in s.cache
    requires s.l1[i] == L1Target(s.l1[i]) + COPIED
    requires (s', ok) == EnsureL2Cached(g, s, i, L1Target(s.l1[i]), victim)
    ensures Inv(g, s') && Transparent(g, s, s') && ok && i in s'.cache && j < |s'.cache[i].entries|
    ensures Host(s.tables, i, j) == None ==> Decode(s'.cache[i].entries[j]) == Unallocated
    ensures Host(s.tables, i, j).Some? ==>
      var r := Decode(s'.cache[i].entries[j]); r.At? && Host(s.tables, i, j) == Some(r.host)
  {
    EnsureInv(g, s, s', i, L1Target(s.l1[i]), victim, ok);
    Cached(g, s', i);
    L2Entry(s'.l1, s'.tables, s'.own, g.u, |s'.file|, i, j);
  }

  /** Translation finds the cluster's place, rejects nothing, and only moves L2
      tables between cache and disk. */
  lemma TranslateInv(g: Geometry, s: State, s': State, pos: nat, victim: nat, r: Translation)
    requires Inv(g, s) && L1Index(pos, g.u) < |s.l1|
    requires TranslationEvicts(g, s, pos) ==> victim in s.cache
    requires (s', r) == TranslateCluster(g, s, pos, victim)
    ensures Inv(g, s') && Transparent(g, s, s')
    ensures Host(s.tables, L1Index(pos, g.u), L2Index(pos, g.u)) == None ==> r == Unallocated
    ensures Host(s.tables, L1Index(pos, g.u), L2Index(pos, g.u)).Some? ==>
      r.At? && Host(s.tables, L1Index(pos, g.u), L2Index(pos, g.u)) == Some(r.host)
  {
    var i, j := L1Index(pos, g.u), L2Index(pos, g.u);
    L1Entry(s.l1, s.tables, s.own, g.u, |s.file|, i);
    if i !in s.tables {
      TransparentRefl(g, s);
      TranslateNone(g, s, pos, victim);
    } else {
      var (s1, ok) := EnsureL2Cached(g, s, i, L1Target(s.l1[i]), victim);
      TranslateMapped(g, s, s1, i, j, victim, ok);
      TranslateFound(g, s, s1, pos, victim);
    }
  }

  lemma TranslateNone(g: Geometry, s: State, pos: nat, victim: nat)
    requires L1Index(pos, g.u) < |s.l1| && L1Target(s.l1[L1Index(pos, g.u)]) == 0
    ensures TranslateCluster(g, s, pos, victim) == (s, Unallocated)
  {
  }

  lemma TranslateFound(g: Geometry, s: State, s1: State, pos: nat, victim: nat)
    requires L1Index(pos, g.u) < |s.l1| && L1Target(s.l1[L1Index(pos, g.u)]) != 0
    requires MustEvict(s, L1Index(pos, g.u)) ==> victim in s.cache
    requires EnsureL2Cached(g, s, L1Index(pos, g.u), L1Target(s.l1[L1Index(pos, g.u)]), victim) == (s1, true)
    requires L1Index(pos, g.u) in s1.cache && L2Index(pos, g.u) < |s1.cache[L1Index(pos, g.u)].entries|
    ensures TranslateCluster(g, s, pos, victim) == (s1, Decode(s1.cache[L1Index(pos, g.u)].entries[L2Index(pos, g.u)]))
  {
  }

  // ----- allocation

  /** Allocation keeps the invariant, refcounts included, and the disk.  It yields
      a cluster that nothing used before, or fails because the host refuses to grow
      the file. */
  lemma AllocInv(g: Geometry, s: State, s': State, ok: bool)
    requires Inv(g, s) && (s', ok) == AllocCluster(g, s)
    ensures Inv(g, s') && Extends(g, s, s') && (ok || s'.next > g.limit)
    ensures ok ==> s.next !in s.own && s.next in s'.own && s'.own[s.next] == Unlinked
  {
    var (s1, ok1) := Grow(g, s);
    GrowIs(g, s, s1, ok1);
    if ok1 {
      AllocGrown(g, s, s1, s', ok);
    } else {
      GrowFails(g, s, s1);
    }
  }

  lemma AllocGrown(g: Geometry, s: State, s1: State, s': State, ok: bool)
    requires Inv(g, s) && s.next + Cs(g.u) <= g.limit && (s', ok) == SetRefcount(g, s1, s.next)
    requires |s.file| == s.next ==>
      s1 == s.(file := s.file + Zeros(Cs(g.u)), next := s.next + Cs(g.u), own := s.own[s.next := Unlinked])
    ensures Inv(g, s') && Extends(g, s, s') && (ok || s'.next > g.limit)
    ensures s.next !in s.own && s.next in s'.own && s'.own[s.next] == Unlinked
  {
    var n := Quot(s.next, Cs(g.u));
    GrownCounting(g, s, s1, n);
    SetRefcountCore(g, s1, s', s.next, Quot(n, PerBlock(g.u)), ok);
    AllocRefs(g, s1, s', n, s.next, ok);
    ExtendsTrans(g, s, s1, s');
  }

  lemma AllocRefs(g: Geometry, s1: State, s': State, n: nat, offset: nat, ok: bool)
    requires Even(g, s1) && Quot(s1.next, Cs(g.u)) == n + 1 && Begun(s1.refcountTable, g.u, n + 1)
    requires g.counts != Lost ==> Counting(g, s1, n, n + 1)
    requires n == Quot(offset, Cs(g.u)) && (s', ok) == SetRefcount(g, s1, offset) && Multiple(s'.next, Cs(g.u))
    requires if ok then Even(g, s') else s'.file == s1.file && s'.next > g.limit
    ensures Refs(g, s')
  {
    SetEffect(g, s1, s', offset, Quot(n, PerBlock(g.u)), ok);
    SetBegun(g, s1, s', offset, n, ok);
    if ok && g.counts != Lost {
      AllocCounts(g, s1, s', offset, n, ok);
      CountedNow(g, s', n + 1);
    }
  }

  lemma AllocCounts(g: Geometry, s1: State, s': State, offset: nat, n: nat, ok: bool)
    requires Counting(g, s1, n, n + 1) && Quot(s1.next, Cs(g.u)) == n + 1
    requires n == Quot(offset, Cs(g.u)) && (s', ok) == SetRefcount(g, s1, offset)
    ensures ok ==> Counting(g, s', n + 1, n + 1)
  {
    NextInRange(n, PerBlock(g.u));
    SetRefcountCounts(g, s1, s', offset, n, n + 1, ok);
  }

  lemma GrownCounting(g: Geometry, s: State, s1: State, n: nat)
    requires Inv(g, s) && |s.file| == s.next && s.next + Cs(g.u) <= g.limit && n == Quot(s.next, Cs(g.u))
    requires s1 == s.(file := s.file + Zeros(Cs(g.u)), next := s.next + Cs(g.u), own := s.own[s.next := Unlinked])
    ensures Even(g, s1) && Quot(s1.next, Cs(g.u)) == n + 1 && Extends(g, s, s1) && s.next !in s.own
    ensures Begun(s1.refcountTable, g.u, n + 1) && (g.counts != Lost ==> Counting(g, s1, n, n + 1))
  {
    GrowOk(g, s, s1, if g.counts == Lost then 0 else n);
    MultipleRem(s.next, Cs(g.u));
    BegunMore(s.refcountTable, g.u, n, n + 1);
  }

  /** The cluster after the first one of a range lies in that range. */
  lemma NextInRange(n: nat, b: nat)
    requires b > 1
    ensures Rem(n, b) == 0 ==> Quot(n + 1, b) == Quot(n, b)
  {
    if Rem(n, b) == 0 {
      DivMod(n, b);
      QuotRem(n + 1, b, Quot(n, b), 1);
    }
  }

  // ----- linking

  /** From s to s' L2 tables may have been added, loaded or evicted; every guest
      cluster lives where it did, with the same contents. */
  ghost predicate Ready(g: Geometry, s: State, s': State) {
    && |s'.l1| == |s.l1| && s.next <= s'.next
    && (forall b :: b in s.own ==> b in s'.own && s'.own[b] == s.own[b])
    && Kept(s.own, s.file, s'.file, g.u)
    && (forall x: nat, y: nat :: Host(s'.tables, x, y) == Host(s.tables, x, y))
    && (forall base :: DiskOf(g, s', base) == DiskOf(g, s, base))
  }

  lemma EnterTableIs(g: Geometry, s: State, s': State, i: nat, at: nat, c: CachedTable)
    requires i < |s.l1| && c == CachedTable(EmptyTable(g.u), true, at, s.accessCounter + 1)
    requires s' == EnterL2Table(g, s, i, at)
    ensures s' == s.(l1 := s.l1[i := at + COPIED], tables := s.tables[i := EmptyTable(g.u)],
                     own := s.own[at := L2Table(i)], cache := s.cache[i := c],
                     stamps := s.stamps[s.accessCounter + 1 := i], accessCounter := s.accessCounter + 1)
  {
  }

  lemma SameHostsDisk(g: Geometry, s: State, s': State)
    requires s'.file == s.file && forall x: nat, y: nat :: Host(s'.tables, x, y) == Host(s.tables, x, y)
    ensures forall base :: DiskOf(g, s', base) == DiskOf(g, s, base)
  {
    forall base ensures DiskOf(g, s', base) == DiskOf(g, s, base) {
      SameHosts(s.tables, s'.tables, s.file, g.u, base, g.size);
    }
  }

  lemma EmptyTableInv(g: Geometry, s: State, s': State, i: nat, at: nat)
    requires Inv(g, s) && i < |s.l1| && i !in s.tables && at in s.own && s.own[at] == Unlinked
    requires s' == EnterL2Table(g, s, i, at)
    ensures Inv(g, s') && i in s'.cache && s'.file == s.file && s'.own == s.own[at := L2Table(i)] && |s'.l1| == |s.l1|
    ensures s'.next == s.next
    ensures forall x: nat, y: nat :: Host(s'.tables, x, y) == Host(s.tables, x, y)
  {
    var c := CachedTable(EmptyTable(g.u), true, at, s.accessCounter + 1);
    EnterTableIs(g, s, s', i, at, c);
    LinkTableKeeps(g, s, s', i, at, c, EmptyTable(g.u));
  }

  lemma ReadyAfter(g: Geometry, s: State, s1: State, s': State, at: nat, r: Role)
    requires Extends(g, s, s1) && at !in s.own && s'.own == s1.own[at := r] && s'.file == s1.file
    requires |s'.l1| == |s1.l1| && s'.next == s1.next
    requires forall x: nat, y: nat :: Host(s'.tables, x, y) == Host(s1.tables, x, y)
    ensures Ready(g, s, s')
  {
    SameHostsDisk(g, s1, s');
  }

  lemma ExtendsReady(g: Geometry, s: State, s': State)
    requires Extends(g, s, s')
    ensures Ready(g, s, s')
  {
  }

  /** An allocated cluster becomes the empty L2 table of L1 index i. */
  lemma AddTableAt(g: Geometry, s: State, s1: State, s': State, i: nat, at: nat)
    requires Inv(g, s1) && Extends(g, s, s1) && i < |s1.l1| && i !in s.tables
    requires at !in s.own && at in s1.own && s1.own[at] == Unlinked && s' == EnterL2Table(g, s1, i, at)
    ensures Inv(g, s') && Ready(g, s, s') && i in s'.cache
  {
    EmptyTableInv(g, s1, s', i, at);
    ReadyAfter(g, s, s1, s', at, L2Table(i));
  }

  lemma TransparentReady(g: Geometry, s: State, s': State)
    requires Transparent(g, s, s')
    ensures Ready(g, s, s')
  {
  }

  lemma PutEntryIs(g: Geometry, s: State, s': State, i: nat, j: nat, h: nat, e: seq<nat>, c: CachedTable)
    requires i in s.cache && i in s.tables && s.cache[i].entries == s.tables[i] && j < |s.cache[i].entries|
    requires s' == PutEntry(g, s, i, j, h)
    requires e == SetEntry(s.tables[i], j, h + COPIED) && c == s.cache[i].(entries := e, dirty := true)
    ensures s' == s.(tables := s.tables[i := e], own := s.own[h := Data(i, j)], cache := s.cache[i := c])
  {
  }

  /** A prepared cluster is entered into a cached L2 table. */
  lemma PutEntryInv(g: Geometry, s: State, s': State, i: nat, j: nat, h: nat)
    requires Inv(g, s) && i in s.cache && h in s.own && s.own[h] == Unlinked && j < |s.cache[i].entries|
    requires s' == PutEntry(g, s, i, j, h)
    ensures Inv(g, s') && Linked(s, s', i, j, h)
  {
    Cached(g, s, i);
    var e := SetEntry(s.tables[i], j, h + COPIED);
    var c := s.cache[i].(entries := e, dirty := true);
    PutEntryIs(g, s, s', i, j, h, e, c);
    LinkDataKeeps(g, s, s', i, j, h, e, c);
  }

  // ----- guest data

  /** Overwriting part of a cluster that is not metadata. */
  lemma OverwriteInv(g: Geometry, s: State, s': State, h: nat, k: nat, d: seq<byte>)
    requires Inv(g, s) && h in s.own && (s.own[h].Data? || s.own[h].Unlinked?) && k + |d| <= Cs(g.u)
    requires h + Cs(g.u) <= |s.file|
    requires s' == s.(file := Splice(s.file, h + k, d))
    ensures Inv(g, s') && OnlyAt(s.file, s'.file, h, g.u)
    ensures s.own[h].Unlinked? ==> forall base :: DiskOf(g, s', base) == DiskOf(g, s, base)
  {
    assert OnlyAt(s.file, s'.file, h, g.u);
    OverwriteKeeps(g, s, s', h);
    RefsKept(g, s, s', h);
  }

  lemma HostFits(g: Geometry, s: State, i: nat, j: nat)
    requires Inv(g, s) && Host(s.tables, i, j).Some?
    ensures 0 <= Host(s.tables, i, j).value && Host(s.tables, i, j).value + Cs(g.u) <= |s.file|
    ensures Host(s.tables, i, j).value in s.own && s.own[Host(s.tables, i, j).value] == Data(i, j)
  {
  }

  /** A write into an allocated cluster changes the disk exactly there. */
  lemma WriteAllocated(g: Geometry, s: State, s': State, base: Base, pos: nat, d: seq<byte>, h: nat)
    requires Inv(g, s) && Host(s.tables, L1Index(pos, g.u), L2Index(pos, g.u)) == Some(h)
    requires pos + |d| <= g.size && Rem(pos, Cs(g.u)) + |d| <= Cs(g.u) && h + Cs(g.u) <= |s.file|
    requires s' == s.(file := Splice(s.file, h + Rem(pos, Cs(g.u)), d))
    ensures Inv(g, s') && DiskOf(g, s', base) == Patched(DiskOf(g, s, base), pos, d)
  {
    HostFits(g, s, L1Index(pos, g.u), L2Index(pos, g.u));
    OverwriteInv(g, s, s', h, Rem(pos, Cs(g.u)), d);
    AllocatedDisk(g, s, s'.file, base, pos, d, h);
  }

  lemma AllocatedDisk(g: Geometry, s: State, f: seq<byte>, base: Base, pos: nat, d: seq<byte>, h: nat)
    requires Mapped(s.l1, s.tables, s.own, g.u) && Aligned(s.own, g.u, |s.file|)
    requires Host(s.tables, L1Index(pos, g.u), L2Index(pos, g.u)) == Some(h)
    requires h in s.own && s.own[h] == Data(L1Index(pos, g.u), L2Index(pos, g.u))
    requires pos + |d| <= g.size && Rem(pos, Cs(g.u)) + |d| <= Cs(g.u) && h + Cs(g.u) <= |s.file|
    requires f == Splice(s.file, h + Rem(pos, Cs(g.u)), d)
    ensures Disk(s.tables, f, g.u, base, g.size) == Patched(DiskOf(g, s, base), pos, d)
  {
    AlignedClear(s.own, g.u, |s.file|, h);
    WriteData(s.l1, s.tables, s.own, s.file, f, g.u, base, g.size, pos, d, h);
  }

  lemma PreparedKept(own: Owners, f: seq<byte>, f': seq<byte>, h: nat, u: Sectors, base: Base, pos: nat)
    requires Kept(own, f, f', u) && h in own && own[h] == Unlinked && Prepared(f, h, u, base, pos)
    ensures Prepared(f', h, u, base, pos)
  {
    assert f'[h..h + Cs(u)] == f[h..h + Cs(u)];
    forall k | h <= k < h + Cs(u) ensures f'[k] == f[k] {
      assert f'[h..h + Cs(u)][k - h] == f[h..h + Cs(u)][k - h];
    }
  }

  /** Linking a prepared cluster, from m to m', and writing into it changes the
      disk exactly where it is written. */
  lemma WriteLinked(g: Geometry, s: State, m: State, m': State, s': State, base: Base, pos: nat, d: seq<byte>, h: nat)
    requires Ready(g, s, m) && Inv(g, m) && Inv(g, m') && h in s.own && s.own[h] == Unlinked && h + Cs(g.u) <= |s.file|
    requires Host(s.tables, L1Index(pos, g.u), L2Index(pos, g.u)) == None
    requires m'.file == m.file && m'.own == m.own[h := Data(L1Index(pos, g.u), L2Index(pos, g.u))]
    requires forall x: nat, y: nat ::
      Host(m'.tables, x, y) == if (x, y) == (L1Index(pos, g.u), L2Index(pos, g.u)) then Some(h)
        else Host(m.tables, x, y)
    requires |d| == Cs(g.u) || Prepared(s.file, h, g.u, base, pos)
    requires pos + |d| <= g.size && Rem(pos, Cs(g.u)) + |d| <= Cs(g.u) && h + Cs(g.u) <= |m'.file|
    requires s' == m'.(file := Splice(m'.file, h + Rem(pos, Cs(g.u)), d))
    ensures Inv(g, s') && DiskOf(g, s', base) == Patched(DiskOf(g, s, base), pos, d)
  {
    OverwriteInv(g, m', s', h, Rem(pos, Cs(g.u)), d);
    LinkedDisk(g, s, m, m', s'.file, base, pos, d, h);
  }

  lemma LinkedDisk(g: Geometry, s: State, m: State, m': State, f: seq<byte>, base: Base, pos: nat, d: seq<byte>, h: nat)
    requires Ready(g, s, m) && Core(g, m) && h in s.own && s.own[h] == Unlinked && h + Cs(g.u) <= |s.file|
    requires Host(s.tables, L1Index(pos, g.u), L2Index(pos, g.u)) == None
    requires forall x: nat, y: nat ::
      Host(m'.tables, x, y) == if (x, y) == (L1Index(pos, g.u), L2Index(pos, g.u)) then Some(h)
        else Host(m.tables, x, y)
    requires |d| == Cs(g.u) || Prepared(s.file, h, g.u, base, pos)
    requires pos + |d| <= g.size && Rem(pos, Cs(g.u)) + |d| <= Cs(g.u) && h + Cs(g.u) <= |m.file|
    requires f == Splice(m.file, h + Rem(pos, Cs(g.u)), d)
    ensures Disk(m'.tables, f, g.u, base, g.size) == Patched(DiskOf(g, s, base), pos, d)
  {
    if |d| != Cs(g.u) {
      PreparedKept(s.own, s.file, m.file, h, g.u, base, pos);
    }
    AlignedClear(m.own, g.u, |m.file|, h);
    WriteNew(m.l1, m.tables, m'.tables, m.own, m.file, f, g.u, base, g.size, pos, d, h);
    assert DiskOf(g, m, base) == DiskOf(g, s, base);
  }

  /** From m to m' host cluster h was entered for guest cluster (i, j). */
  ghost predicate Linked(m: State, m': State, i: nat, j: nat, h: nat) {
    && m'.file == m.file && m'.own == m.own[h := Data(i, j)] && |m'.l1| == |m.l1| && m'.next == m.next
    && forall x: nat, y: nat :: Host(m'.tables, x, y) == if (x, y) == (i, j) then Some(h) else Host(m.tables, x, y)
  }

  lemma WriteLinkedSound(g: Geometry, s: State, m: State, m': State, s': State, base: Base, pos: nat, d: seq<byte>,
                         h: nat)
    requires Ready(g, s, m) && Sound(g, m) && Sound(g, m') && h in s.own && s.own[h] == Unlinked
    requires h + Cs(g.u) <= |s.file|
    requires Host(s.tables, L1Index(pos, g.u), L2Index(pos, g.u)) == None
    requires Linked(m, m', L1Index(pos, g.u), L2Index(pos, g.u), h)
    requires |d| == Cs(g.u) || Prepared(s.file, h, g.u, base, pos)
    requires pos + |d| <= g.size && Rem(pos, Cs(g.u)) + |d| <= Cs(g.u)
    requires s' == m'.(file := WriteFile(m'.file, h + Rem(pos, Cs(g.u)), d))
    ensures Sound(g, s') && DiskOf(g, s', base) == Patched(DiskOf(g, s, base), pos, d)
  {
    Open(g, m);
    Open(g, m');
    WriteLinked(g, s, m, m', s', base, pos, d, h);
    Close(g, s');
  }

  lemma WriteAllocatedSound(g: Geometry, s: State, s': State, pos: nat, d: seq<byte>, h: nat)
    requires Sound(g, s) && Host(s.tables, L1Index(pos, g.u), L2Index(pos, g.u)) == Some(h)
    requires pos + |d| <= g.size && Rem(pos, Cs(g.u)) + |d| <= Cs(g.u) && h + Cs(g.u) <= |s.file|
    requires s' == s.(file := WriteFile(s.file, h + Rem(pos, Cs(g.u)), d))
    ensures Sound(g, s') && forall base :: DiskOf(g, s', base) == Patched(DiskOf(g, s, base), pos, d)
  {
    forall base ensures Inv(g, s') && DiskOf(g, s', base) == Patched(DiskOf(g, s, base), pos, d) {
      Open(g, s);
      WriteAllocated(g, s, s', base, pos, d, h);
    }
    assert DiskOf(g, s', NoBase) == DiskOf(g, s', NoBase);
    Close(g, s');
  }

  /** Patches of consecutive ranges make up one patch. */
  lemma PatchAppend(disk: seq<Option<byte>>, at: nat, data: seq<byte>, n: nat, m: nat)
    requires n + m <= |data| && at + |data| <= |disk|
    ensures Patched(Patched(disk, at, data[..n]), at + n, data[n..n + m]) == Patched(disk, at, data[..n + m])
  {
  }

  lemma PatchNothing(disk: seq<Option<byte>>, at: nat, data: seq<byte>)
    requires at + |data| <= |disk|
    ensures Patched(disk, at, data[..0]) == disk
  {
  }

  lemma EntryOf(g: Geometry, s: State, i: nat)
    requires Sound(g, s) && i < |s.l1|
    ensures i !in s.tables ==> L1Target(s.l1[i]) == 0
    ensures i in s.tables ==> L1Target(s.l1[i]) != 0 && s.l1[i] == L1Target(s.l1[i]) + COPIED
  {
    Open(g, s);
    L1Entry(s.l1, s.tables, s.own, g.u, |s.file|, i);
  }

  // ----- reading

  /** n bytes can be read from `at` on. */
  ghost predicate Readable(disk: seq<Option<byte>>, at: nat, n: nat) {
    at + n <= |disk| && forall p :: at <= p < at + n ==> disk[p].Some?
  }

  /** The disk holds buf from `at` on. */
  ghost predicate Holds(disk: seq<Option<byte>>, at: nat, buf: seq<byte>) {
    at + |buf| <= |disk| && forall x :: 0 <= x < |buf| ==> disk[at + x] == Some(buf[x])
  }

  ghost predicate BaseReadable(base: Base, at: nat, n: nat) {
    forall p :: at <= p < at + n ==> BaseByte(base, p).Some?
  }

  ghost predicate BaseHolds(base: Base, at: nat, buf: seq<byte>) {
    forall x :: 0 <= x < |buf| ==> BaseByte(base, at + x) == Some(buf[x])
  }

  lemma HoldsAppend(disk: seq<Option<byte>>, at: nat, buf: seq<byte>, chunk: seq<byte>)
    requires Holds(disk, at, buf) && Holds(disk, at + |buf|, chunk)
    ensures Holds(disk, at, buf + chunk)
  {
    forall x | 0 <= x < |buf + chunk| ensures disk[at + x] == Some((buf + chunk)[x]) {
      if x >= |buf| {
        assert disk[at + |buf| + (x - |buf|)] == Some(chunk[x - |buf|]);
      }
    }
  }

  lemma HoldsReadable(disk: seq<Option<byte>>, at: nat, buf: seq<byte>)
    requires Holds(disk, at, buf)
    ensures Readable(disk, at, |buf|)
  {
    forall p | at <= p < at + |buf| ensures disk[p].Some? {
      assert disk[at + (p - at)] == Some(buf[p - at]);
    }
  }

  lemma ReadablePart(disk: seq<Option<byte>>, at: nat, n: nat, pos: nat, m: nat)
    requires at <= pos && pos + m <= at + n && Readable(disk, at, n)
    ensures Readable(disk, pos, m)
  {
  }

  lemma LayerReads(disk: seq<Option<byte>>, at: nat, n: nat)
    requires n > 0
    ensures Readable(disk, at, n) <==> BaseReadable(LayerBase(disk), at, n)
  {
    var base := LayerBase(disk);
    if BaseReadable(base, at, n) {
      assert BaseByte(base, at + n - 1).Some?;
      forall p | at <= p < at + n ensures disk[p].Some? {
        assert BaseByte(base, p).Some?;
      }
    }
  }

  lemma LayerHolds(disk: seq<Option<byte>>, at: nat, buf: seq<byte>)
    requires Holds(disk, at, buf)
    ensures BaseHolds(LayerBase(disk), at, buf)
  {
  }

  /** Where a byte of a chunk that lies in one cluster comes from. */
  lemma ChunkByte(g: Geometry, s: State, base: Base, pos: nat, n: nat, x: nat)
    requires Rem(pos, Cs(g.u)) + n <= Cs(g.u) && pos + n <= g.size && x < n
    ensures DiskOf(g, s, base)[pos + x]
         == ByteIn(s.tables, s.file, base, pos + x, L1Index(pos, g.u), L2Index(pos, g.u), Rem(pos, Cs(g.u)) + x)
  {
    Locate(pos + x, pos, n, g.u);
  }

  lemma ChunkFromFile(g: Geometry, s: State, base: Base, pos: nat, n: nat, h: nat)
    requires Rem(pos, Cs(g.u)) + n <= Cs(g.u) && pos + n <= g.size && h + Cs(g.u) <= |s.file|
    requires Host(s.tables, L1Index(pos, g.u), L2Index(pos, g.u)) == Some(h)
    ensures Holds(DiskOf(g, s, base), pos, s.file[h + Rem(pos, Cs(g.u))..h + Rem(pos, Cs(g.u)) + n])
  {
    var k := Rem(pos, Cs(g.u));
    var chunk, disk := s.file[h + k..h + k + n], DiskOf(g, s, base);
    forall x | 0 <= x < |chunk| ensures disk[pos + x] == Some(chunk[x]) {
      ChunkByte(g, s, base, pos, n, x);
    }
  }

  lemma ChunkFromBase(g: Geometry, s: State, base: Base, pos: nat, n: nat)
    requires Rem(pos, Cs(g.u)) + n <= Cs(g.u) && pos + n <= g.size
    requires Host(s.tables, L1Index(pos, g.u), L2Index(pos, g.u)) == None
    ensures Readable(DiskOf(g, s, base), pos, n) <==> BaseReadable(base, pos, n)
    ensures forall buf :: |buf| == n && BaseHolds(base, pos, buf) ==> Holds(DiskOf(g, s, base), pos, buf)
  {
    forall p | pos <= p < pos + n ensures DiskOf(g, s, base)[p] == BaseByte(base, p) {
      ChunkByte(g, s, base, pos, n, p - pos);
    }
  }

  lemma FilledPrepared(f: seq<byte>, h: nat, u: Sectors, base: Base, pos: nat, buf: seq<byte>)
    requires |buf| == Cs(u) && h + Cs(u) <= |f| && f[h..h + Cs(u)] == buf && BaseHolds(base, Start(pos, u), buf)
    ensures Prepared(f, h, u, base, pos)
  {
    forall k | h <= k < h + Cs(u) ensures Some(f[k]) == BaseByte(base, Start(pos, u) + (k - h)) {
      assert f[k] == f[h..h + Cs(u)][k - h];
    }
  }
}
