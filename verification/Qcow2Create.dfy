/** Creating an empty QCOW2 image. */
module Qcow2Create {
  import opened Bytes
  import opened Qcow2Header
  import opened Qcow2Image
  import opened Qcow2State
  import opened Qcow2Persist

  /** How many clusters each part of a new image takes. */
  datatype Plan = Plan(u: Sectors, l1Size: nat, l1Clusters: nat, blocks: nat, rcClusters: nat) {
    /** Header, refcount table, refcount blocks and L1 table. */
    function Total(): nat { 1 + rcClusters + blocks + l1Clusters }
    function RcOffset(): nat { Cs(u) }
    function BlockOffset(): nat { Times(1 + rcClusters, Cs(u)) }
    function L1Offset(): nat { Times(1 + rcClusters + blocks, Cs(u)) }
    function End(): nat { Times(Total(), Cs(u)) }
  }

  /** The sizes that `create` computes; the number of refcount blocks is not
      revised after the refcount table has been sized. */
  function PlanFor(size: nat, u: Sectors): Plan {
    var l1Size := Needed(size, u) % 0x1_0000_0000;
    var l1Clusters := DivUp(8 * l1Size, Cs(u));
    var blocks := DivUp(3 + l1Clusters, PerBlock(u));
    var rc := DivUp(8 * blocks, Cs(u));
    Plan(u, l1Size, l1Clusters, blocks, if rc > 1 then rc else 1)
  }

  /** What the computation of the plan guarantees. */
  predicate Sized(p: Plan) {
    && p.blocks <= Ranges(p.Total(), p.u)
    && p.blocks > 0 && 0 < p.rcClusters <= p.blocks && p.l1Size < 0x1_0000_0000
    && 8 * p.l1Size <= Times(p.l1Clusters, Cs(p.u)) && 8 * p.blocks <= Times(p.rcClusters, Cs(p.u))
  }

  lemma PlanSized(size: nat, u: Sectors)
    ensures Sized(PlanFor(size, u))
  {
    var p := PlanFor(size, u);
    DivUpCovers(8 * p.l1Size, Cs(u));
    DivUpCovers(3 + p.l1Clusters, PerBlock(u));
    DivUpCovers(8 * p.blocks, Cs(u));
    DivUpSmall(p.blocks, u);
    BlocksBegun(p);
    TimesMono(DivUp(8 * p.blocks, Cs(u)), p.rcClusters, Cs(u));
  }

  lemma BlocksBegun(p: Plan)
    requires p.blocks == DivUp(3 + p.l1Clusters, PerBlock(p.u)) && p.blocks > 0 && p.rcClusters > 0
    ensures p.blocks <= Ranges(p.Total(), p.u)
  {
    QuotMono(3 + p.l1Clusters + PerBlock(p.u) - 1, p.Total() + PerBlock(p.u) - 1, PerBlock(p.u));
  }

  lemma DivUpSmall(n: nat, u: Sectors)
    requires n > 0
    ensures DivUp(8 * n, Cs(u)) <= n
  {
    DivUpBound(8 * n, Cs(u), 8);
  }

  /** The refcount blocks that were planned cover all metadata clusters. */
  predicate BlocksSuffice(p: Plan) { 2 * p.Total() <= Times(p.blocks, Cs(p.u)) }

  /** Where refcount block i goes. */
  function BlockAt(p: Plan, i: nat): nat { Times(1 + p.rcClusters + i, Cs(p.u)) }

  /** Byte x of the file after n refcount table entries and c refcounts were written. */
  function ImageByte(p: Plan, head: seq<byte>, n: nat, c: nat, x: nat): byte {
    if x < |head| then head[x]
    else if p.RcOffset() <= x < p.RcOffset() + 8 * n then
      ToBE(BlockAt(p, (x - p.RcOffset()) / 8), 8)[(x - p.RcOffset()) % 8]
    else if p.BlockOffset() <= x < p.BlockOffset() + 2 * c then (x - p.BlockOffset()) % 2
    else 0
  }

  ghost predicate Written(f: seq<byte>, p: Plan, head: seq<byte>, n: nat, c: nat) {
    |f| == p.End() && forall x :: 0 <= x < |f| ==> f[x] == ImageByte(p, head, n, c, x)
  }

  lemma Word(n: nat, r: nat, y: nat)
    requires r < 8 && y == 8 * n + r
    ensures y / 8 == n && y % 8 == r
  {
  }

  lemma EntryByte(p: Plan, head: seq<byte>, n: nat, x: nat)
    requires |head| <= p.RcOffset() + 8 * n <= x < p.RcOffset() + 8 * n + 8
    ensures ImageByte(p, head, n + 1, 0, x) == ToBE(BlockAt(p, n), 8)[x - (p.RcOffset() + 8 * n)]
  {
    Word(n, x - (p.RcOffset() + 8 * n), x - p.RcOffset());
  }

  lemma WriteEntry(f: seq<byte>, f': seq<byte>, p: Plan, head: seq<byte>, n: nat, at: nat)
    requires Written(f, p, head, n, 0) && |head| <= at && at == p.RcOffset() + 8 * n && at + 8 <= |f|
    requires f' == Splice(f, at, ToBE(BlockAt(p, n), 8))
    ensures Written(f', p, head, n + 1, 0)
  {
    forall x | 0 <= x < |f'| ensures f'[x] == ImageByte(p, head, n + 1, 0, x) {
      if at <= x < at + 8 {
        EntryByte(p, head, n, x);
      } else {
        OtherEntry(p, head, n, x);
      }
    }
  }

  lemma OtherEntry(p: Plan, head: seq<byte>, n: nat, x: nat)
    requires !(p.RcOffset() + 8 * n <= x < p.RcOffset() + 8 * n + 8)
    ensures ImageByte(p, head, n + 1, 0, x) == ImageByte(p, head, n, 0, x)
  {
  }

  lemma WriteCount(f: seq<byte>, f': seq<byte>, p: Plan, head: seq<byte>, n: nat, c: nat, at: nat)
    requires Written(f, p, head, n, c) && |head| <= Cs(p.u) && p.RcOffset() + 8 * n <= p.BlockOffset()
    requires at == p.BlockOffset() + 2 * c && at + 2 <= |f| && f' == Splice(f, at, ToBE(1, 2))
    ensures Written(f', p, head, n, c + 1)
  {
    assert ToBE(1, 2) == [0, 1];
    forall x | 0 <= x < |f'| ensures f'[x] == ImageByte(p, head, n, c + 1, x) {
    }
  }

  /** Where the refcount of cluster c goes. */
  lemma CountOffset(c: nat, u: Sectors)
    ensures Times(Quot(c, PerBlock(u)), Cs(u)) + 2 * Rem(c, PerBlock(u)) == 2 * c
  {
    DivMod(c, PerBlock(u));
    TimesIs(Quot(c, PerBlock(u)), Cs(u));
    var q := Quot(c, PerBlock(u));
    assert q * Cs(u) == 2 * (PerBlock(u) * q);
  }

  lemma PlanParts(p: Plan)
    ensures p.L1Offset() == p.BlockOffset() + Times(p.blocks, Cs(p.u))
    ensures p.End() == p.L1Offset() + Times(p.l1Clusters, Cs(p.u))
    ensures p.BlockOffset() == p.RcOffset() + Times(p.rcClusters, Cs(p.u))
  {
    var cs := Cs(p.u);
    assert Times(1, cs) == cs;
    TimesAdd(1, p.rcClusters, cs);
    TimesAdd(1 + p.rcClusters, p.blocks, cs);
    TimesAdd(1 + p.rcClusters + p.blocks, p.l1Clusters, cs);
  }

  /** The parts of the plan follow one another, and the refcounts that `create`
      writes stay inside the file. */
  lemma PlanFits(p: Plan)
    requires Sized(p)
    ensures p.RcOffset() + 8 * p.blocks <= p.BlockOffset() <= p.L1Offset() <= p.End()
    ensures p.BlockOffset() + 2 * p.Total() <= p.End()
    ensures p.L1Offset() == p.BlockOffset() + Times(p.blocks, Cs(p.u))
    ensures p.End() == p.L1Offset() + Times(p.l1Clusters, Cs(p.u))
    ensures p.BlockOffset() == p.RcOffset() + Times(p.rcClusters, Cs(p.u))
  {
    PlanParts(p);
    TimesAtLeast(p.blocks, Cs(p.u), 8);
    TimesAtLeast(p.l1Clusters, Cs(p.u), 8);
  }

  function HeaderFor(p: Plan, size: nat, bits: nat, path: seq<byte>): Header {
    Header(MAGIC, 3, if |path| > 0 then V3_HEADER_SIZE else 0, |path|, bits, size, 0,
           p.l1Size, p.L1Offset(), p.RcOffset(), p.rcClusters, 0, 0, 0, 0, 0, DEFAULT_REFCOUNT_ORDER, V3_HEADER_SIZE)
  }

  /** Write the refcount table: one entry per refcount block. */
  method WriteRefcountTable(p: Plan, head: seq<byte>, f0: seq<byte>) returns (f: seq<byte>)
    requires Written(f0, p, head, 0, 0) && |head| <= Cs(p.u) && p.RcOffset() + 8 * p.blocks <= p.End()
    ensures Written(f, p, head, p.blocks, 0)
  {
    f := f0;
    var n := 0;
    while n < p.blocks
      invariant n <= p.blocks && Written(f, p, head, n, 0)
    {
      var f' := WriteFile(f, p.RcOffset() + 8 * n, ToBE(BlockAt(p, n), 8));
      WriteEntry(f, f', p, head, n, p.RcOffset() + 8 * n);
      f, n := f', n + 1;
    }
  }

  /** Write refcount one for each metadata cluster. */
  method WriteCounts(p: Plan, head: seq<byte>, f0: seq<byte>) returns (f: seq<byte>)
    requires Written(f0, p, head, p.blocks, 0) && |head| <= Cs(p.u) && p.RcOffset() + 8 * p.blocks <= p.BlockOffset()
    requires p.BlockOffset() + 2 * p.Total() <= p.End()
    ensures Written(f, p, head, p.blocks, p.Total())
  {
    f := f0;
    var c := 0;
    while c < p.Total()
      invariant c <= p.Total() && Written(f, p, head, p.blocks, c)
    {
      var at := p.BlockOffset() + Times(Quot(c, PerBlock(p.u)), Cs(p.u)) + 2 * Rem(c, PerBlock(p.u));
      CountOffset(c, p.u);
      var f' := WriteFile(f, at, ToBE(1, 2));
      WriteCount(f, f', p, head, p.blocks, c, at);
      f, c := f', c + 1;
    }
  }

  /** `create`: the bytes of a new image with the planned layout. */
  method WriteImage(p: Plan, head: seq<byte>) returns (f: seq<byte>)
    requires Sized(p) && |head| <= Cs(p.u)
    ensures Written(f, p, head, p.blocks, p.Total())
  {
    PlanFits(p);
    f := head + Zeros(p.End() - |head|);
    f := WriteRefcountTable(p, head, f);
    f := WriteCounts(p, head, f);
  }

  // ----- the new image satisfies the invariant

  function RoleOf(p: Plan, n: nat): Role {
    if n == 0 then HeaderCluster
    else if n < 1 + p.rcClusters then RefcountTable
    else if n < 1 + p.rcClusters + p.blocks then RefcountBlock(n - 1 - p.rcClusters)
    else L1Table
  }

  /** The roles of the first n clusters. */
  ghost function InitialOwners(p: Plan, n: nat): Owners {
    if n == 0 then map[] else InitialOwners(p, n - 1)[Times(n - 1, Cs(p.u)) := RoleOf(p, n - 1)]
  }

  lemma {:induction false} TimesMultiple(n: nat, c: nat)
    requires c > 0
    ensures Multiple(Times(n, c), c)
  {
    if n > 0 {
      TimesMultiple(n - 1, c);
    }
  }

  lemma {:induction false} OwnersAt(p: Plan, n: nat, m: nat)
    requires m < n
    ensures Times(m, Cs(p.u)) in InitialOwners(p, n) && InitialOwners(p, n)[Times(m, Cs(p.u))] == RoleOf(p, m)
    decreases n
  {
    if m < n - 1 {
      OwnersAt(p, n - 1, m);
      TimesLess(m, n - 1, Cs(p.u));
    }
  }

  lemma {:induction false} OwnersAre(p: Plan, n: nat, o: nat) returns (m: nat)
    requires o in InitialOwners(p, n)
    ensures m < n && o == Times(m, Cs(p.u)) && InitialOwners(p, n)[o] == RoleOf(p, m)
    decreases n
  {
    if o == Times(n - 1, Cs(p.u)) {
      m := n - 1;
    } else {
      m := OwnersAre(p, n - 1, o);
    }
  }

  lemma InitialAligned(p: Plan)
    ensures Aligned(InitialOwners(p, p.Total()), p.u, p.End())
  {
    var own := InitialOwners(p, p.Total());
    forall o | o in own ensures o + Cs(p.u) <= p.End() && Multiple(o, Cs(p.u)) {
      var m := OwnersAre(p, p.Total(), o);
      TimesLess(m, p.Total(), Cs(p.u));
      TimesMultiple(m, Cs(p.u));
    }
  }

  /** Clusters from number a up to number b play role r. */
  lemma InitialRegion(p: Plan, a: nat, b: nat, len: nat, r: Role)
    requires a < b <= p.Total() && len <= Times(b, Cs(p.u)) - Times(a, Cs(p.u))
    requires forall m :: a <= m < b ==> RoleOf(p, m) == r
    ensures Region(InitialOwners(p, p.Total()), Times(a, Cs(p.u)), len, r)
  {
    var own, at := InitialOwners(p, p.Total()), Times(a, Cs(p.u));
    OwnersAt(p, p.Total(), a);
    forall o | o in own && at <= o < at + len ensures own[o] == r {
      var m := OwnersAre(p, p.Total(), o);
      if m < a {
        TimesLess(m, a, Cs(p.u));
      }
      if b <= m {
        TimesMono(b, m, Cs(p.u));
      }
    }
  }

  /** The refcount table of a new image. */
  function InitialTable(p: Plan): (t: seq<nat>)
    ensures |t| == Times(p.rcClusters, PerTable(p.u))
  {
    seq(Times(p.rcClusters, PerTable(p.u)), i requires 0 <= i => if i < p.blocks then BlockAt(p, i) else 0)
  }

  function Blank(n: nat): seq<nat> { seq(n, _ => 0) }

  ghost function InitialState(p: Plan, f: seq<byte>): State {
    State(f, Blank(p.l1Size), InitialTable(p), map[], 0, p.End(), map[], InitialOwners(p, p.Total()), map[])
  }

  lemma {:induction false} TimesScale(n: nat, u: Sectors)
    ensures 8 * Times(n, PerTable(u)) == Times(n, Cs(u)) == 2 * Times(n, PerBlock(u))
  {
    if n > 0 {
      TimesScale(n - 1, u);
    }
  }

  lemma InitialBlocks(p: Plan)
    requires Sized(p)
    ensures Blocks(InitialTable(p), InitialOwners(p, p.Total()))
  {
    var rt, own := InitialTable(p), InitialOwners(p, p.Total());
    forall k | 0 <= k < |rt| && rt[k] != 0 ensures rt[k] in own && own[rt[k]] == RefcountBlock(k) {
      OwnersAt(p, p.Total(), 1 + p.rcClusters + k);
    }
  }

  /** The two bytes that hold the refcount of cluster c. */
  lemma CountBytes(f: seq<byte>, p: Plan, head: seq<byte>, c: nat, at: nat)
    requires Written(f, p, head, p.blocks, p.Total()) && |head| <= p.BlockOffset()
    requires p.RcOffset() + 8 * p.blocks <= p.BlockOffset()
    requires c < p.Total() && at == p.BlockOffset() + 2 * c && at + 2 <= |f|
    ensures FromBE(f[at..at + 2]) == 1
  {
    assert f[at] == 0 && f[at + 1] == 1;
    assert f[at..at + 2] == [0, 1];
    One();
  }

  lemma One()
    ensures ToBE(1, 2) == [0, 1] && FromBE([0, 1]) == 1
  {
    RadixValues();
    FromToBE(1, 2);
  }

  lemma InitialCounted(p: Plan, f: seq<byte>, head: seq<byte>)
    requires Sized(p) && BlocksSuffice(p) && Written(f, p, head, p.blocks, p.Total()) && |head| <= Cs(p.u)
    ensures Counted(InitialTable(p), f, p.u, p.Total())
  {
    PlanFits(p);
    forall c: nat | c < p.Total() ensures Refcount(InitialTable(p), f, p.u, c) == 1 {
      CountPlace(p, c);
      CountBytes(f, p, head, c, p.BlockOffset() + 2 * c);
    }
  }

  /** Cluster c is counted in block k, which the table knows. */
  lemma CountPlace(p: Plan, c: nat)
    requires Sized(p) && BlocksSuffice(p) && c < p.Total()
    ensures var k := Quot(c, PerBlock(p.u));
      && k < p.blocks && k < |InitialTable(p)| && InitialTable(p)[k] == BlockAt(p, k) != 0
      && BlockAt(p, k) + 2 * Rem(c, PerBlock(p.u)) == p.BlockOffset() + 2 * c
  {
    var k := Quot(c, PerBlock(p.u));
    CountOffset(c, p.u);
    if k >= p.blocks {
      TimesMono(p.blocks, k, Cs(p.u));
    }
    TimesScale(p.rcClusters, p.u);
    TimesAdd(1 + p.rcClusters, k, Cs(p.u));
    TimesLess(0, 1 + p.rcClusters + k, Cs(p.u));
  }

  lemma ByteAfterCounts(f: seq<byte>, p: Plan, head: seq<byte>, x: nat)
    requires Written(f, p, head, p.blocks, p.Total()) && |head| <= p.RcOffset()
    requires p.RcOffset() + 8 * p.blocks <= p.BlockOffset()
    requires p.BlockOffset() + 2 * p.Total() <= x < |f|
    ensures f[x] == 0
  {
  }

  lemma ByteInCounts(f: seq<byte>, p: Plan, head: seq<byte>, k: nat)
    requires Written(f, p, head, p.blocks, p.Total()) && |head| <= p.RcOffset()
    requires p.RcOffset() + 8 * p.blocks <= p.BlockOffset()
    requires k < p.Total() && p.BlockOffset() + 2 * k + 1 < |f|
    ensures f[p.BlockOffset() + 2 * k + 1] == 1
  {
  }

  /** The L1 table of a new image is empty exactly when the refcount blocks suffice;
      otherwise the refcounts run over into it. */
  lemma InitialL1(p: Plan, f: seq<byte>, head: seq<byte>)
    requires Sized(p) && Written(f, p, head, p.blocks, p.Total()) && |head| <= Cs(p.u) && p.l1Size > 0
    ensures p.L1Offset() + 8 * p.l1Size <= |f|
    ensures (forall x :: p.L1Offset() <= x < p.L1Offset() + 8 * p.l1Size ==> f[x] == 0) <==> BlocksSuffice(p)
  {
    PlanFits(p);
    if BlocksSuffice(p) {
      forall x | p.L1Offset() <= x < p.L1Offset() + 8 * p.l1Size ensures f[x] == 0 {
        ByteAfterCounts(f, p, head, x);
      }
    } else {
      var k := Times(p.blocks, PerBlock(p.u));
      TimesScale(p.blocks, p.u);
      ByteInCounts(f, p, head, k);
      assert f[p.L1Offset() + 1] == 1;
    }
  }

  /** Such an image exists: 512-byte clusters and a disk of 1067450368 bytes. */
  lemma CreateOverruns()
    ensures !BlocksSuffice(PlanFor(1067450368, 1)) && PlanFor(1067450368, 1).l1Size > 0
  {
    assert DivUp(1067450368, 512) == 2084864;
    assert DivUp(2084864, 64) == 32576;
    assert DivUp(260608, 512) == 509;
    assert DivUp(512, 256) == 2;
    assert DivUp(16, 512) == 1;
    var p := PlanFor(1067450368, 1);
    assert p == Plan(1, 32576, 509, 2, 1);
    assert p.Total() == 513;
    TimesIs(2, 512);
  }

  lemma L1OnNewDisk(p: Plan, f: seq<byte>, head: seq<byte>)
    requires Sized(p) && BlocksSuffice(p) && Written(f, p, head, p.blocks, p.Total()) && |head| <= Cs(p.u)
    ensures ReadEntries(f, p.L1Offset(), p.l1Size) == Some(Blank(p.l1Size))
  {
    if p.l1Size == 0 {
      assert Blank(p.l1Size) == [];
    } else {
      InitialL1(p, f, head);
      var b := f[p.L1Offset()..p.L1Offset() + 8 * p.l1Size];
      ZeroTable(b);
      assert DecodeTable(b) == Blank(p.l1Size);
    }
  }

  lemma EntryOnNewDisk(p: Plan, f: seq<byte>, head: seq<byte>, i: nat, at: nat)
    requires Written(f, p, head, p.blocks, p.Total()) && |head| <= p.RcOffset() && at == p.RcOffset() + 8 * i
    requires i < p.blocks && at + 8 <= |f| && BlockAt(p, i) < 0x1_0000_0000_0000_0000
    ensures FromBE(f[at..at + 8]) == BlockAt(p, i)
  {
    var e := f[at..at + 8];
    forall r | 0 <= r < 8 ensures e[r] == ToBE(BlockAt(p, i), 8)[r] {
      Word(i, r, at + r - p.RcOffset());
    }
    assert e == ToBE(BlockAt(p, i), 8);
    RadixValues();
    FromToBE(BlockAt(p, i), 8);
  }

  lemma NoEntryOnNewDisk(p: Plan, f: seq<byte>, head: seq<byte>, at: nat)
    requires Written(f, p, head, p.blocks, p.Total()) && |head| <= p.RcOffset() && p.RcOffset() + 8 * p.blocks <= at
    requires at + 8 <= p.BlockOffset() <= |f|
    ensures FromBE(f[at..at + 8]) == 0
  {
    var e := f[at..at + 8];
    forall r | 0 <= r < 8 ensures e[r] == 0 {
      assert e[r] == f[at + r];
    }
    ZeroNumber(e);
  }

  lemma TableEntry(p: Plan, f: seq<byte>, head: seq<byte>, i: nat, at: nat)
    requires Written(f, p, head, p.blocks, p.Total()) && |head| <= p.RcOffset() && at == p.RcOffset() + 8 * i
    requires at + 8 <= p.BlockOffset() <= |f| < 0x1_0000_0000_0000_0000 && i < |InitialTable(p)|
    ensures FromBE(f[at..at + 8]) == InitialTable(p)[i]
  {
    if i < p.blocks {
      TimesMono(1 + p.rcClusters + i, p.Total(), Cs(p.u));
      EntryOnNewDisk(p, f, head, i, at);
    } else {
      NoEntryOnNewDisk(p, f, head, at);
    }
  }

  lemma TableOnNewDisk(p: Plan, f: seq<byte>, head: seq<byte>)
    requires Sized(p) && Written(f, p, head, p.blocks, p.Total()) && |head| <= Cs(p.u)
    requires p.End() < 0x1_0000_0000_0000_0000
    ensures ReadEntries(f, p.RcOffset(), |InitialTable(p)|) == Some(InitialTable(p))
  {
    PlanFits(p);
    TimesScale(p.rcClusters, p.u);
    TimesLess(0, p.rcClusters, PerTable(p.u));
    TableRead(p, f, head, |InitialTable(p)|);
  }

  lemma TableRead(p: Plan, f: seq<byte>, head: seq<byte>, n: nat)
    requires Written(f, p, head, p.blocks, p.Total()) && |head| <= p.RcOffset() && n == |InitialTable(p)|
    requires p.RcOffset() + 8 * n <= p.BlockOffset() <= |f| < 0x1_0000_0000_0000_0000
    ensures DecodeTable(f[p.RcOffset()..p.RcOffset() + 8 * n]) == InitialTable(p)
  {
    var b := f[p.RcOffset()..p.RcOffset() + 8 * n];
    forall i | 0 <= i < n ensures DecodeTable(b)[i] == InitialTable(p)[i] {
      SubSlice(f, p.RcOffset(), 8 * n, 8 * i, 8);
      TableEntry(p, f, head, i, p.RcOffset() + 8 * i);
    }
  }

  lemma NewL1Region(p: Plan)
    requires Sized(p)
    ensures Region(InitialOwners(p, p.Total()), p.L1Offset(), 8 * p.l1Size, L1Table)
  {
    PlanParts(p);
    if p.l1Clusters > 0 {
      InitialRegion(p, 1 + p.rcClusters + p.blocks, p.Total(), 8 * p.l1Size, L1Table);
    }
  }

  lemma NewTableRegion(p: Plan)
    requires Sized(p)
    ensures Region(InitialOwners(p, p.Total()), p.RcOffset(), Times(p.rcClusters, Cs(p.u)), RefcountTable)
  {
    PlanParts(p);
    assert Times(1, Cs(p.u)) == Cs(p.u);
    InitialRegion(p, 1, 1 + p.rcClusters, Times(p.rcClusters, Cs(p.u)), RefcountTable);
  }

  lemma NewHead(p: Plan, f: seq<byte>, head: seq<byte>)
    requires Written(f, p, head, p.blocks, p.Total()) && |head| <= |f|
    ensures f[..|head|] == head
  {
    forall x | 0 <= x < |head| ensures f[..|head|][x] == head[x] {
      assert f[x] == ImageByte(p, head, p.blocks, p.Total(), x);
    }
  }

  /** The geometry g describes the plan p. */
  ghost predicate Describes(g: Geometry, p: Plan) {
    && g.u == p.u && g.l1Offset == p.L1Offset() && g.l1Size == p.l1Size && g.rcOffset == p.RcOffset()
    && g.rcBytes == Times(p.rcClusters, Cs(p.u)) && |g.head| <= Cs(p.u)
  }

  lemma NewFixed(g: Geometry, p: Plan, f: seq<byte>)
    requires Sized(p) && Written(f, p, g.head, p.blocks, p.Total()) && Describes(g, p)
    ensures Fixed(g, InitialState(p, f))
  {
    PlanFits(p);
    NewL1Region(p);
    NewTableRegion(p);
    OwnersAt(p, p.Total(), 0);
    TimesLess(0, p.Total(), Cs(p.u));
    NewHead(p, f, g.head);
    TimesScale(p.rcClusters, p.u);
  }

  lemma NewRefs(g: Geometry, p: Plan, f: seq<byte>)
    requires Sized(p) && BlocksSuffice(p) && Written(f, p, g.head, p.blocks, p.Total()) && Describes(g, p)
    ensures Refs(g, InitialState(p, f))
  {
    InitialCounted(p, f, g.head);
    TimesMultiple(p.Total(), Cs(p.u));
    TimesIs(p.Total(), Cs(p.u));
    QuotRem(p.End(), Cs(p.u), p.Total(), 0);
  }

  /** A new image whose refcount blocks suffice satisfies the invariant. */
  lemma NewImageInv(g: Geometry, p: Plan, f: seq<byte>)
    requires Sized(p) && BlocksSuffice(p) && Written(f, p, g.head, p.blocks, p.Total()) && Describes(g, p)
    requires p.End() <= g.limit <= REACH
    ensures Inv(g, InitialState(p, f))
  {
    InitialAligned(p);
    InitialBlocks(p);
    NewFixed(g, p, f);
    NewRefs(g, p, f);
  }

  // ----- what the L1 table covers

  /** The number of L1 entries that a disk needs. */
  function Needed(size: nat, u: Sectors): nat { DivUp(DivUp(size, Cs(u)), PerTable(u)) }

  lemma QuotBelow(a: nat, n: nat, b: nat)
    requires b > 0 && a < n
    ensures Quot(a, b) < DivUp(n, b)
  {
    DivMod(a, b);
    DivMod(n + b - 1, b);
    if DivUp(n, b) <= Quot(a, b) {
      MulLess(b, DivUp(n, b), Quot(a, b) + 1);
    }
  }

  lemma LastQuot(n: nat, b: nat)
    requires b > 0 && n > 0
    ensures Quot(n - 1, b) + 1 == DivUp(n, b)
  {
    DivMod(n - 1, b);
    QuotRem(n + b - 1, b, Quot(n - 1, b) + 1, Rem(n - 1, b));
  }

  lemma Reaches(size: nat, u: Sectors, p: nat)
    requires p < size
    ensures L1Index(p, u) < Needed(size, u)
  {
    QuotBelow(p, size, Cs(u));
    QuotBelow(Quot(p, Cs(u)), DivUp(size, Cs(u)), PerTable(u));
  }

  /** The L1 table of a new image covers the disk exactly when the number of entries
      fits the 32 bits that the header has for it. */
  lemma NewCovers(g: Geometry, size: nat, u: Sectors)
    requires g.size == size && g.u == u && g.l1Size == PlanFor(size, u).l1Size
    ensures Covers(g) <==> Needed(size, u) < 0x1_0000_0000
  {
    if Needed(size, u) < 0x1_0000_0000 {
      forall p: nat | p < size ensures L1Index(p, u) < g.l1Size {
        Reaches(size, u, p);
      }
    } else {
      Truncated(size, u);
      assert size > 0 && !(L1Index(size - 1, u) < g.l1Size);
    }
  }

  /** A disk of 2^47 bytes with 512-byte clusters needs 2^32 entries, and gets none. */
  lemma CoverageLost(g: Geometry, size: nat, u: Sectors)
    requires size == 0x8000_0000_0000 && u == 1 && g.size == size && g.u == u && g.l1Size == PlanFor(size, u).l1Size
    ensures g.l1Size == 0 && !Covers(g)
  {
    HugeNeeds(size, u);
    Wraps(Needed(size, u));
    NewCovers(g, size, u);
  }

  lemma HugeNeeds(size: nat, u: Sectors)
    requires size == 0x8000_0000_0000 && u == 1
    ensures Needed(size, u) == 0x1_0000_0000
  {
    DivUpIs(size, 512, 0x40_0000_0000, 511);
    DivUpIs(0x40_0000_0000, 64, 0x1_0000_0000, 63);
  }

  lemma Wraps(n: nat)
    requires n == 0x1_0000_0000
    ensures n % 0x1_0000_0000 == 0
  {
  }

  lemma Truncated(size: nat, u: Sectors)
    requires Needed(size, u) >= 0x1_0000_0000
    ensures size > 0 && L1Index(size - 1, u) >= Needed(size, u) % 0x1_0000_0000
  {
    if size == 0 {
      QuotRem(Cs(u) - 1, Cs(u), 0, Cs(u) - 1);
      QuotRem(PerTable(u) - 1, PerTable(u), 0, PerTable(u) - 1);
    } else {
      LastQuot(size, Cs(u));
      LastQuot(DivUp(size, Cs(u)), PerTable(u));
    }
  }

  // ----- creating an image and opening it

  lemma DivUpBound(a: nat, b: nat, k: nat)
    requires 0 < k <= b && a > 0
    ensures k * (DivUp(a, b) - 1) <= a - 1
  {
    DivUpCovers(a, b);
    var q := DivUp(a, b);
    DivMod(a + b - 1, b);
    TimesIs(q, b);
    TimesAtLeast(q - 1, b, k);
  }

  lemma FewClusters(size: nat, u: Sectors)
    ensures PlanFor(size, u).rcClusters < 0x1_0000_0000
  {
    var p := PlanFor(size, u);
    PlanSized(size, u);
    if p.l1Size > 0 {
      DivUpSmall(p.l1Size, u);
    } else {
      QuotRem(Cs(u) - 1, Cs(u), 0, Cs(u) - 1);
    }
    DivUpBound(3 + p.l1Clusters, PerBlock(u), 256);
  }

  /** `create` writes a header that survives being read back. */
  lemma HeaderCreated(p: Plan, size: nat, bits: nat, path: seq<byte>)
    requires p == PlanFor(size, p.u) && 9 <= bits <= 21 && size < 0x1_0000_0000_0000_0000 && |path| < 0x1_0000_0000
    requires p.End() <= REACH
    ensures Created(HeaderFor(p, size, bits, path), path)
  {
    PlanSized(size, p.u);
    PlanFits(p);
    FewClusters(size, p.u);
  }

  /** The bytes that `create` writes first: the header and the backing path. */
  function HeadFor(p: Plan, size: nat, bits: nat, path: seq<byte>): (head: seq<byte>)
    ensures |head| == 104 + |path|
  {
    WriteHeader(HeaderFor(p, size, bits, path)) + path
  }

  /** `create`, up to the point where it opens the new file.  It fails when the
      cluster size is out of range, when the path of the backing file does not fit
      the first cluster, or when the host refuses a file of the planned size. */
  method Create(size: nat, bits: nat, path: seq<byte>, limit: nat) returns (r: Option<seq<byte>>)
    ensures r == None <==>
      !(9 <= bits <= 21) || 104 + |path| > Pow2(bits) || PlanFor(size, SectorsFor(bits)).End() > limit
    ensures r.Some? ==> var p := PlanFor(size, SectorsFor(bits));
      Written(r.value, p, HeadFor(p, size, bits, path), p.blocks, p.Total())
  {
    if !(9 <= bits <= 21) {
      return None;
    }
    var p := PlanFor(size, SectorsFor(bits));
    if 104 + |path| > Cs(p.u) || p.End() > limit {
      return None;
    }
    PlanSized(size, p.u);
    var f := WriteImage(p, HeadFor(p, size, bits, path));
    return Some(f);
  }

  lemma NewOpens(p: Plan, f: seq<byte>, h: Header, path: seq<byte>)
    requires Sized(p) && BlocksSuffice(p) && Written(f, p, WriteHeader(h) + path, p.blocks, p.Total())
    requires Created(h, path)
    requires 104 + |path| <= Cs(p.u) && p.End() <= REACH && p.u == SectorsOf(h)
    requires h.l1TableOffset == p.L1Offset() && h.l1Size == p.l1Size && h.refcountTableOffset == p.RcOffset()
    requires h.refcountTableClusters == p.rcClusters
    ensures OpenImage(f) == Some(Opened(h, Blank(p.l1Size), InitialTable(p), p.End(), path))
  {
    NewHeader(p, f, h, path);
    NewTables(p, f, WriteHeader(h) + path);
    EntryCount(p);
    TimesMultiple(p.Total(), Cs(p.u));
    AlignedUp(p.End(), Cs(p.u));
    OpensWith(f, h, p.u, Blank(p.l1Size), InitialTable(p), path);
  }

  lemma NewHeader(p: Plan, f: seq<byte>, h: Header, path: seq<byte>)
    requires Written(f, p, WriteHeader(h) + path, p.blocks, p.Total()) && Created(h, path)
    requires 104 + |path| <= Cs(p.u) && p.u == SectorsOf(h)
    ensures |f| >= 104 + |path| && f[104..104 + |path|] == path && OpenImage(f) == OpenWith(f, h, p.u)
  {
    TimesLess(0, p.Total(), Cs(p.u));
    NewHead(p, f, WriteHeader(h) + path);
    HeaderOnDisk(f, h, path);
  }

  lemma NewTables(p: Plan, f: seq<byte>, head: seq<byte>)
    requires Sized(p) && BlocksSuffice(p) && Written(f, p, head, p.blocks, p.Total()) && |head| <= Cs(p.u)
    requires p.End() <= REACH
    ensures ReadEntries(f, p.L1Offset(), p.l1Size) == Some(Blank(p.l1Size))
    ensures ReadEntries(f, p.RcOffset(), |InitialTable(p)|) == Some(InitialTable(p))
  {
    L1OnNewDisk(p, f, head);
    TableOnNewDisk(p, f, head);
  }

  lemma EntryCount(p: Plan)
    ensures p.rcClusters * Cs(p.u) / 8 == |InitialTable(p)|
  {
    TimesScale(p.rcClusters, p.u);
    TimesIs(p.rcClusters, Cs(p.u));
  }

  /** A new image has no mapping: its disk is what the base provides. */
  lemma NewDisk(g: Geometry, p: Plan, f: seq<byte>, base: Base, x: nat)
    requires x < g.size
    ensures DiskOf(g, InitialState(p, f), base)[x] == BaseByte(base, x)
  {
  }

  /** Opening what `create` wrote gives an image that satisfies the invariant, with
      the planned tables and cursor and with nothing allocated. */
  lemma CreateThenOpen(size: nat, bits: nat, path: seq<byte>, limit: nat, f: seq<byte>)
    requires 9 <= bits <= 21 && 104 + |path| <= Pow2(bits) && size < 0x1_0000_0000_0000_0000
    requires PlanFor(size, SectorsFor(bits)).End() <= limit <= REACH && BlocksSuffice(PlanFor(size, SectorsFor(bits)))
    requires var p := PlanFor(size, SectorsFor(bits)); Written(f, p, HeadFor(p, size, bits, path), p.blocks, p.Total())
    ensures var p := PlanFor(size, SectorsFor(bits));
      var h := HeaderFor(p, size, bits, path);
      && Created(h, path) && OpenImage(f) == Some(Opened(h, Blank(p.l1Size), InitialTable(p), p.End(), path))
      && Sound(GeometryOf(h, path, limit, Complete), InitialState(p, f))
      && (Covers(GeometryOf(h, path, limit, Complete)) <==> Needed(size, p.u) < 0x1_0000_0000)
  {
    var p := PlanFor(size, SectorsFor(bits));
    var h := HeaderFor(p, size, bits, path);
    PathFits(bits, path);
    PlanSized(size, p.u);
    HeaderCreated(p, size, bits, path);
    NewOpens(p, f, h, path);
    var g := GeometryOf(h, path, limit, Complete);
    NewCovers(g, size, p.u);
    TimesIs(p.rcClusters, Cs(p.u));
    NewImageInv(g, p, f);
    Close(g, InitialState(p, f));
  }

  lemma {:induction false} PathFits(bits: nat, path: seq<byte>)
    requires 9 <= bits <= 21 && |path| <= Pow2(bits)
    ensures |path| < 0x1_0000_0000
  {
    Pow2Bound(bits, 21);
    assert Pow2(7) == 128;
    assert Pow2(14) == 16384;
    assert Pow2(21) == 2097152;
  }

  lemma {:induction false} Pow2Bound(m: nat, n: nat)
    requires m <= n
    ensures Pow2(m) <= Pow2(n)
    decreases n
  {
    if m < n {
      Pow2Bound(m, n - 1);
    }
  }
}
