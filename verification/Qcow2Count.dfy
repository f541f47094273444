/** Counting clusters: what setting a refcount does when some clusters at the end of the
    file are not counted yet. */
module Qcow2Count {
  import opened Bytes
  import opened Qcow2Image
  import opened Qcow2State
  import opened Qcow2Ops

  lemma ExtendsTrans(g: Geometry, s: State, s': State, s'': State)
    requires Extends(g, s, s') && Extends(g, s', s'')
    ensures Extends(g, s, s'')
  {
    forall b | b in s.own && (s.own[b].Data? || s.own[b].Unlinked?) && b + Cs(g.u) <= |s.file|
      ensures s''.file[b..b + Cs(g.u)] == s.file[b..b + Cs(g.u)]
    {
      assert s'.file[b..b + Cs(g.u)] == s.file[b..b + Cs(g.u)];
    }
  }

  /** The host refuses to grow the file: nothing but the cursor changes, and every
      later attempt fails too. */
  lemma GrowFails(g: Geometry, s: State, s': State)
    requires Core(g, s) && Multiple(s.next, Cs(g.u)) && s.next + Cs(g.u) > g.limit && s' == s.(next := s.next + Cs(g.u))
    requires Begun(s.refcountTable, g.u, Quot(|s.file|, Cs(g.u))) && (|s.file| == s.next || Refs(g, s))
    ensures Inv(g, s') && Extends(g, s, s') && s'.next > g.limit
  {
  }

  lemma GrowIs(g: Geometry, s: State, s': State, ok: bool)
    requires (s', ok) == Grow(g, s) && |s.file| <= s.next
    ensures ok <==> s.next + Cs(g.u) <= g.limit
    ensures !ok ==> s' == s.(next := s.next + Cs(g.u))
    ensures ok && |s.file| == s.next ==>
      s' == s.(file := s.file + Zeros(Cs(g.u)), next := s.next + Cs(g.u), own := s.own[s.next := Unlinked])
  {
  }

  lemma GrowOk(g: Geometry, s: State, s': State, n: nat)
    requires Core(g, s) && |s.file| == s.next && Multiple(s.next, Cs(g.u)) && s.next + Cs(g.u) <= g.limit
    requires s' == s.(file := s.file + Zeros(Cs(g.u)), next := s.next + Cs(g.u), own := s.own[s.next := Unlinked])
    requires Counted(s.refcountTable, s.file, g.u, n)
    ensures Core(g, s') && Extends(g, s, s') && Counted(s.refcountTable, s'.file, g.u, n)
    ensures s.next !in s.own && OnlyAt(s.file, s'.file, s.next, g.u)
  {
    GrowKeeps(g, s, s');
    AlignedClear(s.own, g.u, |s.file|, s.next);
    KeptStep(s.own, s.file, s.file, s'.file, s.next, g.u);
    SameL1Step(g, s, s.file, s'.file, s.next);
    CountedUnchanged(s.refcountTable, s.own, s.file, s'.file, g.u, s.next, n);
  }

  // ----- a run of clusters to be counted

  ghost predicate CountedFrom(rt: seq<nat>, f: seq<byte>, u: Sectors, lo: nat, hi: nat) {
    forall c: nat :: lo <= c < hi ==> Refcount(rt, f, u, c) == 1
  }

  /** All clusters are counted, except those from number n up to number lo. */
  ghost predicate Counting(g: Geometry, s: State, n: nat, lo: nat) {
    && Core(g, s) && |s.file| == s.next && Multiple(s.next, Cs(g.u)) && n <= lo <= Quot(s.next, Cs(g.u))
    && Counted(s.refcountTable, s.file, g.u, n)
    && CountedFrom(s.refcountTable, s.file, g.u, lo, Quot(s.next, Cs(g.u)))
  }

  lemma CountedNow(g: Geometry, s: State, n: nat)
    requires Counting(g, s, n, n)
    ensures Counted(s.refcountTable, s.file, g.u, Quot(|s.file|, Cs(g.u)))
  {
    forall c: nat | c < Quot(s.next, Cs(g.u)) ensures Refcount(s.refcountTable, s.file, g.u, c) == 1 {
    }
  }

  lemma CountedAll(g: Geometry, s: State, n: nat)
    requires Counting(g, s, n, n) && Begun(s.refcountTable, g.u, Quot(|s.file|, Cs(g.u)))
    ensures Inv(g, s)
  {
    CountedNow(g, s, n);
  }

  lemma CountOneMore(rt: seq<nat>, own: Owners, f: seq<byte>, f': seq<byte>, u: Sectors, n: nat, k: nat, r: nat)
    requires Blocks(rt, own) && Aligned(own, u, |f|) && k < |rt| && rt[k] != 0
    requires k == Quot(n, PerBlock(u)) && r == Rem(n, PerBlock(u)) && Counted(rt, f, u, n)
    requires rt[k] + 2 * r + 2 <= |f| && f' == Splice(f, rt[k] + 2 * r, ToBE(1, 2))
    ensures Counted(rt, f', u, n + 1) && OnlyAt(f, f', rt[k], u)
  {
    AlignedClear(own, u, |f|, rt[k]);
    SetCount(rt, own, f, f', u, k, r);
    CountNext(rt, f, f', u, n);
  }

  lemma OtherNumber(c: nat, n: nat, b: nat)
    requires b > 0 && c != n
    ensures (Quot(c, b), Rem(c, b)) != (Quot(n, b), Rem(n, b))
  {
    DivMod(c, b);
    DivMod(n, b);
  }

  lemma CountedFromKept(rt: seq<nat>, f: seq<byte>, f': seq<byte>, u: Sectors, lo: nat, hi: nat, n: nat)
    requires CountedFrom(rt, f, u, lo, hi) && !(lo <= n < hi)
    requires forall k: nat, r: nat :: r < PerBlock(u) && (k, r) != (Quot(n, PerBlock(u)), Rem(n, PerBlock(u))) ==>
      CountIn(rt, f', k, r) == CountIn(rt, f, k, r)
    ensures CountedFrom(rt, f', u, lo, hi)
  {
    forall c: nat | lo <= c < hi ensures Refcount(rt, f', u, c) == 1 {
      assert Refcount(rt, f, u, c) == 1;
      OtherNumber(c, n, PerBlock(u));
    }
  }

  /** Counting cluster n in a block that exists. */
  lemma CountHere(rt: seq<nat>, own: Owners, f: seq<byte>, f': seq<byte>, u: Sectors, n: nat, lo: nat, hi: nat,
                  k: nat, r: nat)
    requires Blocks(rt, own) && Aligned(own, u, |f|) && k < |rt| && rt[k] != 0 && n < lo
    requires k == Quot(n, PerBlock(u)) && r == Rem(n, PerBlock(u)) && Counted(rt, f, u, n)
    requires CountedFrom(rt, f, u, lo, hi)
    requires rt[k] + 2 * r + 2 <= |f| && f' == Splice(f, rt[k] + 2 * r, ToBE(1, 2))
    ensures Counted(rt, f', u, n + 1) && CountedFrom(rt, f', u, lo, hi) && OnlyAt(f, f', rt[k], u)
  {
    CountOneMore(rt, own, f, f', u, n, k, r);
    AlignedClear(own, u, |f|, rt[k]);
    SetCount(rt, own, f, f', u, k, r);
    CountedFromKept(rt, f, f', u, lo, hi, n);
  }

  // ----- setting a refcount, whatever is counted

  /** What setting a refcount does to the refcount table and to the cursor. */
  lemma SetEffect(g: Geometry, s: State, s': State, offset: nat, k: nat, ok: bool)
    requires k == Quot(Quot(offset, Cs(g.u)), PerBlock(g.u)) && (s', ok) == SetRefcount(g, s, offset)
    requires |s.file| <= s.next && s.next > 0
    ensures ok <==> HasBlock(s.refcountTable, k) || s.next + Cs(g.u) <= g.limit
    ensures s'.next == s.next + if HasBlock(s.refcountTable, k) then 0 else Cs(g.u)
    ensures |s'.refcountTable| == Max(|s.refcountTable|, k + 1)
    ensures forall j: nat :: HasBlock(s'.refcountTable, j) <==> HasBlock(s.refcountTable, j) || (ok && j == k)
    ensures ok && !HasBlock(s.refcountTable, k) ==> s.next in s'.own && s'.own[s.next].RefcountBlock?
  {
  }

  lemma BlockFits(g: Geometry, s: State, k: nat)
    requires Core(g, s) && HasBlock(s.refcountTable, k)
    ensures s.refcountTable[k] + Cs(g.u) <= |s.file|
  {
  }

  lemma SpliceOnlyAt(f: seq<byte>, f': seq<byte>, o: nat, r: nat, u: Sectors)
    requires r < PerBlock(u) && o + 2 * r + 2 <= |f| && f' == Splice(f, o + 2 * r, ToBE(1, 2))
    ensures OnlyAt(f, f', o, u)
  {
  }

  /** A refcount is written into a block that exists. */
  lemma BlockWritten(g: Geometry, s: State, s': State, k: nat, r: nat)
    requires Core(g, s) && HasBlock(s.refcountTable, k) && r < PerBlock(g.u)
    requires s.refcountTable[k] + 2 * r + 2 <= |s.file|
    requires s' == s.(file := Splice(s.file, s.refcountTable[k] + 2 * r, ToBE(1, 2)))
    ensures Core(g, s') && Extends(g, s, s')
  {
    var o := s.refcountTable[k];
    SpliceOnlyAt(s.file, s'.file, o, r, g.u);
    AlignedClear(s.own, g.u, |s.file|, o);
    OverwriteKeeps(g, s, s', o);
    KeptStep(s.own, s.file, s.file, s'.file, o, g.u);
    SameL1Step(g, s, s.file, s'.file, o);
  }

  lemma Reassign(own: Owners, o: nat, r: Role, r': Role)
    ensures own[o := r][o := r'] == own[o := r']
  {
  }

  /** The states on the way to a new block: grown, and block adopted. */
  ghost predicate Adding(g: Geometry, s: State, s1: State, s2: State, k: nat) {
    && k < |s.refcountTable| && |s.file| == s.next
    && s1 == s.(file := s.file + Zeros(Cs(g.u)), next := s.next + Cs(g.u), own := s.own[s.next := Unlinked])
    && s2 == s1.(refcountTable := s.refcountTable[k := s.next], own := s1.own[s.next := RefcountBlock(k)])
  }

  /** A block of zeros for range k is part of the layout. */
  lemma BlockAdded(g: Geometry, s: State, s1: State, s2: State, k: nat)
    requires Core(g, s) && Multiple(s.next, Cs(g.u)) && s.next + Cs(g.u) <= g.limit && Adding(g, s, s1, s2, k)
    requires s.refcountTable[k] == 0
    ensures Core(g, s2) && Extends(g, s, s2) && s2.refcountTable[k] == s.next > 0 && s.next !in s.own
    ensures |s2.file| == s2.next && Multiple(s2.next, Cs(g.u))
  {
    GrowOk(g, s, s1, 0);
    AdoptBlock(g, s1, s2, k, s.next);
    Reassign(s.own, s.next, Unlinked, RefcountBlock(k));
    AddedExtends(g, s, s1, s2, k);
  }

  lemma AddedExtends(g: Geometry, s: State, s1: State, s2: State, k: nat)
    requires Extends(g, s, s1) && s.next !in s.own && s2.own == s.own[s.next := RefcountBlock(k)]
    requires s2 == s1.(refcountTable := s2.refcountTable, own := s2.own)
    ensures Extends(g, s, s2)
  {
  }

  lemma AddBlockFails(g: Geometry, s: State, k: nat)
    requires k < |s.refcountTable| && |s.file| == s.next && s.next + Cs(g.u) > g.limit
    ensures AddBlock(g, s, k) == (s.(next := s.next + Cs(g.u)), false)
  {
    GrowIs(g, s, Grow(g, s).0, Grow(g, s).1);
  }

  /** The block at cluster n counts itself if it lies in its range. */
  function SelfCounted(g: Geometry, s: State, k: nat, o: nat, n: nat): State {
    if Quot(n, PerBlock(g.u)) == k then s.(file := WriteFile(s.file, o + 2 * Rem(n, PerBlock(g.u)), ToBE(1, 2))) else s
  }

  lemma AddBlockIs(g: Geometry, s: State, s1: State, s2: State, k: nat, n: nat)
    requires Adding(g, s, s1, s2, k) && s.next + Cs(g.u) <= g.limit && Quot(s.next, Cs(g.u)) == n
    ensures AddBlock(g, s, k) == (SelfCounted(g, s2, k, s.next, n), true)
  {
    GrowIs(g, s, Grow(g, s).0, Grow(g, s).1);
  }

  lemma SetInBlock(g: Geometry, s: State, s3: State, s': State, offset: nat, n: nat, k: nat, o: nat, ok: bool)
    requires n == Quot(offset, Cs(g.u)) && k == Quot(n, PerBlock(g.u)) < |s.refcountTable|
    requires EnsureBlock(g, s, k) == (s3, true) && (s', ok) == SetRefcount(g, s, offset)
    requires k < |s3.refcountTable| && s3.refcountTable[k] == o && o + Cs(g.u) <= |s3.file|
    ensures ok && s' == s3.(file := Splice(s3.file, o + 2 * Rem(n, PerBlock(g.u)), ToBE(1, 2)))
  {
  }

  lemma PadFirst(g: Geometry, s: State, p: State, offset: nat, k: nat)
    requires k == Quot(Quot(offset, Cs(g.u)), PerBlock(g.u)) && p == s.(refcountTable := Padded(s.refcountTable, k))
    ensures SetRefcount(g, s, offset) == SetRefcount(g, p, offset)
  {
  }

  lemma PadCore(g: Geometry, s: State, s': State, k: nat)
    requires Core(g, s) && s' == s.(refcountTable := Padded(s.refcountTable, k))
    ensures Core(g, s') && Extends(g, s, s') && (k < |s.refcountTable| ==> s' == s)
    ensures k >= |s.refcountTable| ==> s'.refcountTable[k] == 0
    ensures forall c: nat :: Refcount(s'.refcountTable, s.file, g.u, c) == Refcount(s.refcountTable, s.file, g.u, c)
  {
    if k >= |s.refcountTable| {
      PadKeeps(g, s, s', k + 1 - |s.refcountTable|);
    }
  }

  lemma SelfCountedCore(g: Geometry, s: State, s': State, k: nat, o: nat, n: nat)
    requires Core(g, s) && HasBlock(s.refcountTable, k) && s.refcountTable[k] == o && s' == SelfCounted(g, s, k, o, n)
    ensures Core(g, s') && Extends(g, s, s') && s' == s.(file := s'.file) && |s'.file| == |s.file|
  {
    BlockFits(g, s, k);
    if Quot(n, PerBlock(g.u)) == k {
      BlockWritten(g, s, s', k, Rem(n, PerBlock(g.u)));
    } else {
      ExtendsSame(g, s);
    }
  }

  /** A missing block is added. */
  lemma AddedCore(g: Geometry, s: State, s1: State, s2: State, s3: State, k: nat, hi: nat)
    requires Core(g, s) && Multiple(s.next, Cs(g.u)) && s.next + Cs(g.u) <= g.limit && Adding(g, s, s1, s2, k)
    requires s.refcountTable[k] == 0 && hi == Quot(s.next, Cs(g.u)) && s3 == SelfCounted(g, s2, k, s.next, hi)
    ensures EnsureBlock(g, s, k) == (s3, true) && Core(g, s3) && Extends(g, s, s3)
    ensures |s3.file| == s3.next && Multiple(s3.next, Cs(g.u)) && HasBlock(s3.refcountTable, k)
  {
    BlockAdded(g, s, s1, s2, k);
    AddBlockIs(g, s, s1, s2, k, hi);
    SelfCountedCore(g, s2, s3, k, s.next, hi);
    ExtendsTrans(g, s, s2, s3);
  }

  /** The cluster is counted in a block that is there, or has just been added. */
  lemma CountedCore(g: Geometry, s: State, s3: State, s': State, offset: nat, n: nat, k: nat, ok: bool)
    requires n == Quot(offset, Cs(g.u)) && k == Quot(n, PerBlock(g.u)) < |s.refcountTable|
    requires EnsureBlock(g, s, k) == (s3, true) && Core(g, s3) && Extends(g, s, s3) && HasBlock(s3.refcountTable, k)
    requires (s', ok) == SetRefcount(g, s, offset)
    ensures ok && Core(g, s') && Extends(g, s, s') && |s'.file| == |s3.file| && s'.next == s3.next
    ensures s3.refcountTable[k] + Cs(g.u) <= |s3.file|
    ensures s' == s3.(file := Splice(s3.file, s3.refcountTable[k] + 2 * Rem(n, PerBlock(g.u)), ToBE(1, 2)))
  {
    BlockFits(g, s3, k);
    SetInBlock(g, s, s3, s', offset, n, k, s3.refcountTable[k], ok);
    BlockWritten(g, s3, s', k, Rem(n, PerBlock(g.u)));
    ExtendsTrans(g, s, s3, s');
  }

  /** A state whose file ends at the cursor. */
  ghost predicate Even(g: Geometry, s: State) {
    Core(g, s) && |s.file| == s.next && Multiple(s.next, Cs(g.u))
  }

  function Grown(g: Geometry, s: State): State {
    s.(file := s.file + Zeros(Cs(g.u)), next := s.next + Cs(g.u), own := s.own[s.next := Unlinked])
  }

  function WithBlock(s: State, s1: State, k: nat): State
    requires k < |s.refcountTable|
  {
    s1.(refcountTable := s.refcountTable[k := s.next], own := s1.own[s.next := RefcountBlock(k)])
  }

  /** Setting a refcount keeps the layout and the disk, wherever a block that is added
      may lie. */
  lemma SetRefcountCore(g: Geometry, s: State, s': State, offset: nat, k: nat, ok: bool)
    requires Even(g, s) && k == Quot(Quot(offset, Cs(g.u)), PerBlock(g.u)) && (s', ok) == SetRefcount(g, s, offset)
    ensures Core(g, s') && Extends(g, s, s') && Multiple(s'.next, Cs(g.u))
    ensures if ok then Even(g, s') else s'.file == s.file && s'.next > g.limit
  {
    var p := s.(refcountTable := Padded(s.refcountTable, k));
    PadCore(g, s, p, k);
    PadFirst(g, s, p, offset, k);
    if p.refcountTable[k] != 0 {
      ExtendsSame(g, p);
      CountedCore(g, p, p, s', offset, Quot(offset, Cs(g.u)), k, ok);
    } else if p.next + Cs(g.u) <= g.limit {
      SetMissingCore(g, p, s', offset, k, ok);
    } else {
      AddBlockFails(g, p, k);
      CursorMoved(g, p, s');
    }
    ExtendsTrans(g, s, p, s');
  }

  lemma SetMissingCore(g: Geometry, s: State, s': State, offset: nat, k: nat, ok: bool)
    requires Even(g, s) && k == Quot(Quot(offset, Cs(g.u)), PerBlock(g.u)) < |s.refcountTable|
    requires s.refcountTable[k] == 0
    requires s.next + Cs(g.u) <= g.limit && (s', ok) == SetRefcount(g, s, offset)
    ensures ok && Even(g, s') && Extends(g, s, s')
  {
    var s1 := Grown(g, s);
    var s2 := WithBlock(s, s1, k);
    var hi := Quot(s.next, Cs(g.u));
    var s3 := SelfCounted(g, s2, k, s.next, hi);
    AddedCore(g, s, s1, s2, s3, k, hi);
    CountedCore(g, s, s3, s', offset, Quot(offset, Cs(g.u)), k, ok);
  }

  lemma ExtendsSame(g: Geometry, s: State)
    ensures Extends(g, s, s)
  {
  }

  lemma CursorMoved(g: Geometry, s: State, s': State)
    requires Even(g, s) && s.next + Cs(g.u) > g.limit && s' == s.(next := s.next + Cs(g.u))
    ensures Core(g, s') && Extends(g, s, s') && Multiple(s'.next, Cs(g.u))
  {
  }

  lemma SetBegun(g: Geometry, s: State, s': State, offset: nat, n: nat, ok: bool)
    requires Even(g, s) && n == Quot(offset, Cs(g.u)) < Quot(|s.file|, Cs(g.u)) && (s', ok) == SetRefcount(g, s, offset)
    requires Begun(s.refcountTable, g.u, Quot(|s.file|, Cs(g.u))) && |s.file| <= |s'.file|
    ensures Begun(s'.refcountTable, g.u, Quot(|s'.file|, Cs(g.u)))
  {
    SetEffect(g, s, s', offset, Quot(n, PerBlock(g.u)), ok);
    QuotMono(|s.file|, |s'.file|, Cs(g.u));
    BegunStep(s.refcountTable, s'.refcountTable, g.u, Quot(|s.file|, Cs(g.u)), Quot(|s'.file|, Cs(g.u)), n);
  }

  // ----- setting the refcount of the first cluster that is not counted

  /** If the block of n is missing and cluster hi lies in its range, nothing behind n is
      counted yet. */
  lemma NoneBehind(rt: seq<nat>, f: seq<byte>, u: Sectors, n: nat, lo: nat, hi: nat)
    requires CountedFrom(rt, f, u, lo, hi) && n <= lo <= hi && Quot(n, PerBlock(u)) == Quot(hi, PerBlock(u))
    requires Quot(n, PerBlock(u)) < |rt| ==> rt[Quot(n, PerBlock(u))] == 0
    ensures lo == hi
  {
    if lo < hi {
      QuotMono(n, lo, PerBlock(u));
      QuotMono(lo, hi, PerBlock(u));
      NotCounted(rt, f, u, lo);
    }
  }

  lemma NotCounted(rt: seq<nat>, f: seq<byte>, u: Sectors, c: nat)
    requires !HasBlock(rt, Quot(c, PerBlock(u)))
    ensures Refcount(rt, f, u, c) == 0
  {
  }

  /** The new block is in place and empty. */
  lemma BlockCounts(g: Geometry, s: State, s1: State, s2: State, n: nat, k: nat)
    requires Even(g, s) && s.next + Cs(g.u) <= g.limit && Adding(g, s, s1, s2, k)
    requires k == Quot(n, PerBlock(g.u)) && s.refcountTable[k] == 0 && Counted(s.refcountTable, s.file, g.u, n)
    ensures Counted(s2.refcountTable, s2.file, g.u, n) && Rem(n, PerBlock(g.u)) == 0
  {
    MissingBlock(s.refcountTable, s.file, g.u, n);
    GrowOk(g, s, s1, n);
    CountedRepointed(s.refcountTable, s2.refcountTable, s1.file, g.u, n, k);
  }

  /** The refcounts after a missing block was added at cluster hi for cluster n: f1 is
      the grown file, f2 counts the block itself, f3 also counts cluster n. */
  lemma BothCounted(rt: seq<nat>, own: Owners, f1: seq<byte>, f2: seq<byte>, f3: seq<byte>, u: Sectors, n: nat,
                    hi: nat, k: nat, o: nat, r: nat)
    requires Counted(rt, f1, u, n) && Blocks(rt, own) && Aligned(own, u, |f1|) && n < hi
    requires k == Quot(n, PerBlock(u)) == Quot(hi, PerBlock(u)) < |rt| && rt[k] == o != 0 && o + Cs(u) <= |f1|
    requires Rem(n, PerBlock(u)) == 0 && r == Rem(hi, PerBlock(u))
    requires f2 == Splice(f1, o + 2 * r, ToBE(1, 2)) && f3 == Splice(f2, o, ToBE(1, 2))
    ensures Counted(rt, f3, u, n + 1) && CountedFrom(rt, f3, u, hi, hi + 1)
  {
    BlockCounted(rt, own, f1, f2, u, n, hi, k, o, r);
    CountHere(rt, own, f2, f3, u, n, hi, hi + 1, k, 0);
  }

  lemma BlockCounted(rt: seq<nat>, own: Owners, f1: seq<byte>, f2: seq<byte>, u: Sectors, n: nat, hi: nat, k: nat,
                     o: nat, r: nat)
    requires Counted(rt, f1, u, n) && Blocks(rt, own) && Aligned(own, u, |f1|) && n < hi
    requires k == Quot(hi, PerBlock(u)) < |rt| && rt[k] == o != 0 && o + Cs(u) <= |f1| && r == Rem(hi, PerBlock(u))
    requires f2 == Splice(f1, o + 2 * r, ToBE(1, 2))
    ensures Counted(rt, f2, u, n) && CountedFrom(rt, f2, u, hi, hi + 1)
  {
    AlignedClear(own, u, |f1|, o);
    SetCount(rt, own, f1, f2, u, k, r);
    CountLater(rt, f1, f2, u, n, hi);
  }

  lemma AddedCounts(g: Geometry, s2: State, s3: State, s': State, n: nat, k: nat, o: nat, hi: nat)
    requires Blocks(s2.refcountTable, s2.own) && Aligned(s2.own, g.u, |s2.file|)
    requires Multiple(o, Cs(g.u)) && hi == Quot(o, Cs(g.u)) && n < hi
    requires k == Quot(n, PerBlock(g.u)) == Quot(hi, PerBlock(g.u)) && Rem(n, PerBlock(g.u)) == 0
    requires k < |s2.refcountTable| && s2.refcountTable[k] == o != 0 && |s2.file| == s2.next == o + Cs(g.u)
    requires Counted(s2.refcountTable, s2.file, g.u, n) && s3 == SelfCounted(g, s2, k, o, hi)
    requires o + 2 * Rem(n, PerBlock(g.u)) + 2 <= |s3.file|
    requires s' == s3.(file := Splice(s3.file, o + 2 * Rem(n, PerBlock(g.u)), ToBE(1, 2)))
    ensures Quot(s'.next, Cs(g.u)) == hi + 1
    ensures Counted(s'.refcountTable, s'.file, g.u, n + 1) && CountedFrom(s'.refcountTable, s'.file, g.u, hi, hi + 1)
  {
    BothCounted(s2.refcountTable, s2.own, s2.file, s3.file, s'.file, g.u, n, hi, k, o, Rem(hi, PerBlock(g.u)));
    MultipleRem(o, Cs(g.u));
  }

  /** A missing block is added, and covers itself. */
  lemma SetMissing(g: Geometry, s: State, s': State, offset: nat, n: nat, lo: nat, k: nat, ok: bool)
    requires Counting(g, s, n, lo) && n < lo && n == Quot(offset, Cs(g.u)) && s.next + Cs(g.u) <= g.limit
    requires k == Quot(n, PerBlock(g.u)) == Quot(Quot(s.next, Cs(g.u)), PerBlock(g.u)) < |s.refcountTable|
    requires s.refcountTable[k] == 0 && (s', ok) == SetRefcount(g, s, offset)
    ensures Counting(g, s', n + 1, lo) && ok
  {
    var hi := Quot(s.next, Cs(g.u));
    NoneBehind(s.refcountTable, s.file, g.u, n, lo, hi);
    var s1 := Grown(g, s);
    var s2 := WithBlock(s, s1, k);
    SetMissingCore(g, s, s', offset, k, ok);
    MissingCounts(g, s, s1, s2, SelfCounted(g, s2, k, s.next, hi), s', offset, n, k, hi, ok);
  }

  lemma MissingCounts(g: Geometry, s: State, s1: State, s2: State, s3: State, s': State, offset: nat, n: nat, k: nat,
                      hi: nat, ok: bool)
    requires Even(g, s) && s.next + Cs(g.u) <= g.limit && Adding(g, s, s1, s2, k) && s.refcountTable[k] == 0
    requires hi == Quot(s.next, Cs(g.u)) > n && s3 == SelfCounted(g, s2, k, s.next, hi)
    requires Counted(s.refcountTable, s.file, g.u, n)
    requires n == Quot(offset, Cs(g.u)) && k == Quot(n, PerBlock(g.u)) == Quot(hi, PerBlock(g.u))
    requires (s', ok) == SetRefcount(g, s, offset)
    ensures Quot(s'.next, Cs(g.u)) == hi + 1
    ensures Counted(s'.refcountTable, s'.file, g.u, n + 1) && CountedFrom(s'.refcountTable, s'.file, g.u, hi, hi + 1)
  {
    AddedIs(g, s, s1, s2, s3, s', offset, n, k, hi, ok);
    BlockCounts(g, s, s1, s2, n, k);
    AddedCounts(g, s2, s3, s', n, k, s.next, hi);
  }

  lemma AddedIs(g: Geometry, s: State, s1: State, s2: State, s3: State, s': State, offset: nat, n: nat, k: nat,
                hi: nat, ok: bool)
    requires Even(g, s) && s.next + Cs(g.u) <= g.limit && Adding(g, s, s1, s2, k) && s.refcountTable[k] == 0
    requires hi == Quot(s.next, Cs(g.u)) && s3 == SelfCounted(g, s2, k, s.next, hi)
    requires n == Quot(offset, Cs(g.u)) && k == Quot(n, PerBlock(g.u)) && (s', ok) == SetRefcount(g, s, offset)
    ensures Core(g, s2) && s2.refcountTable[k] == s.next != 0 && s3.refcountTable == s2.refcountTable
    ensures |s3.file| == |s2.file|
    ensures s.next + Cs(g.u) <= |s3.file|
    ensures s' == s3.(file := Splice(s3.file, s.next + 2 * Rem(n, PerBlock(g.u)), ToBE(1, 2)))
  {
    AddedPlace(g, s, s1, s2, s3, k, hi);
    SetInBlock(g, s, s3, s', offset, n, k, s.next, ok);
  }

  lemma AddedPlace(g: Geometry, s: State, s1: State, s2: State, s3: State, k: nat, hi: nat)
    requires Even(g, s) && s.next + Cs(g.u) <= g.limit && Adding(g, s, s1, s2, k) && s.refcountTable[k] == 0
    requires hi == Quot(s.next, Cs(g.u)) && s3 == SelfCounted(g, s2, k, s.next, hi)
    ensures Core(g, s2) && EnsureBlock(g, s, k) == (s3, true) && s.next + Cs(g.u) <= |s3.file| && |s3.file| == |s2.file|
    ensures s2.refcountTable[k] == s.next != 0 && s3.refcountTable == s2.refcountTable
  {
    AddedCore(g, s, s1, s2, s3, k, hi);
    BlockAdded(g, s, s1, s2, k);
  }

  lemma SetExisting(g: Geometry, s: State, s': State, offset: nat, n: nat, lo: nat, k: nat, ok: bool)
    requires Counting(g, s, n, lo) && n < lo && n == Quot(offset, Cs(g.u)) && k == Quot(n, PerBlock(g.u))
    requires HasBlock(s.refcountTable, k) && (s', ok) == SetRefcount(g, s, offset)
    ensures Counting(g, s', n + 1, lo) && ok
  {
    ExtendsSame(g, s);
    CountedCore(g, s, s, s', offset, n, k, ok);
    CountHere(s.refcountTable, s.own, s.file, s'.file, g.u, n, lo, Quot(s.next, Cs(g.u)), k, Rem(n, PerBlock(g.u)));
  }

  /** Setting the refcount of the first cluster that is not counted.  A block that is
      missing for it must cover itself: the cluster at the cursor, where it will go,
      has to lie in its range. */
  lemma SetRefcountCounts(g: Geometry, s: State, s': State, offset: nat, n: nat, lo: nat, ok: bool)
    requires Counting(g, s, n, lo) && n < lo && n == Quot(offset, Cs(g.u)) && (s', ok) == SetRefcount(g, s, offset)
    requires Rem(n, PerBlock(g.u)) == 0 ==> Quot(Quot(s.next, Cs(g.u)), PerBlock(g.u)) == Quot(n, PerBlock(g.u))
    ensures ok ==> Counting(g, s', n + 1, lo)
  {
    var k := Quot(n, PerBlock(g.u));
    var p := s.(refcountTable := Padded(s.refcountTable, k));
    PadCore(g, s, p, k);
    PadFirst(g, s, p, offset, k);
    if p.refcountTable[k] != 0 {
      SetExisting(g, p, s', offset, n, lo, k, ok);
    } else if p.next + Cs(g.u) <= g.limit {
      MissingBlock(p.refcountTable, p.file, g.u, n);
      SetMissing(g, p, s', offset, n, lo, k, ok);
    } else {
      AddBlockFails(g, p, k);
    }
  }
}
