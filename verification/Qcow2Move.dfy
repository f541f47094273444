/** A refcount table that has outgrown its clusters moves to the end of the file
    (`write_refcount_table` in src/storage/qcow2.rs). */
module Qcow2Move {
  import opened Bytes
  import opened Qcow2Header
  import opened Qcow2Image
  import opened Qcow2State
  import opened Qcow2Ops
  import opened Qcow2Count
  import opened Qcow2Persist
  import opened Qcow2Create

  // ----- the operation

  /** m more clusters at the end of the file. */
  function Reserved(g: Geometry, s: State, m: nat): State {
    if m == 0 then s else
    var r := Reserved(g, s, m - 1);
    r.(file := r.file + Zeros(Cs(g.u)), next := r.next + Cs(g.u), own := r.own[r.next := Unlinked])
  }

  // ----- reserving

  /** The clusters of a region are in use for nothing yet. */
  ghost predicate Fresh(own: Owners, at: nat, m: nat, u: Sectors) {
    forall i: nat :: i < m ==> Times(i, Cs(u)) + at in own && own[Times(i, Cs(u)) + at] == Unlinked
  }

  /** What reserving m clusters has made of s. */
  ghost predicate HasReserved(g: Geometry, s: State, r: State, m: nat, n: nat) {
    && Core(g, r) && Extends(g, s, r) && |r.file| == r.next == s.next + Times(m, Cs(g.u)) && Multiple(r.next, Cs(g.u))
    && Counted(r.refcountTable, r.file, g.u, n) && r.refcountTable == s.refcountTable && Fresh(r.own, s.next, m, g.u)
  }

  lemma {:induction false} ReservedKeeps(g: Geometry, s: State, m: nat, n: nat)
    requires Core(g, s) && |s.file| == s.next && Multiple(s.next, Cs(g.u)) && Counted(s.refcountTable, s.file, g.u, n)
    requires s.next + Times(m, Cs(g.u)) <= g.limit
    ensures HasReserved(g, s, Reserved(g, s, m), m, n)
  {
    if m == 0 {
      ExtendsSame(g, s);
    } else {
      ReservedKeeps(g, s, m - 1, n);
      ReserveMore(g, s, Reserved(g, s, m - 1), Reserved(g, s, m), m, n);
    }
  }

  lemma ReserveMore(g: Geometry, s: State, r: State, r': State, m: nat, n: nat)
    requires m > 0 && HasReserved(g, s, r, m - 1, n) && s.next + Times(m, Cs(g.u)) <= g.limit
    requires r' == r.(file := r.file + Zeros(Cs(g.u)), next := r.next + Cs(g.u), own := r.own[r.next := Unlinked])
    ensures HasReserved(g, s, r', m, n)
  {
    GrowOk(g, r, r', n);
    ExtendsTrans(g, s, r, r');
    FreshMore(r.own, s.next, m, g.u, r.next);
  }

  lemma FreshMore(own: Owners, at: nat, m: nat, u: Sectors, o: nat)
    requires m > 0 && Fresh(own, at, m - 1, u) && o == at + Times(m - 1, Cs(u))
    ensures Fresh(own[o := Unlinked], at, m, u)
  {
  }

  // ----- the ranges that a run touches

  /** Where a block is missing in the run from n up to lo, the place behind the run lies
      in its range. */
  ghost predicate SelfCovering(n: nat, lo: nat, b: nat)
    requires b > 0
  {
    forall c: nat {:trigger Rem(c, b)} :: n <= c < lo && Rem(c, b) == 0 ==> Quot(lo, b) == Quot(c, b)
  }

  /** No range begins in the run from a up to n. */
  ghost predicate Unbroken(a: nat, n: nat, b: nat)
    requires b > 0
  {
    forall c: nat {:trigger Rem(c, b)} :: a <= c < n ==> Rem(c, b) != 0
  }

  lemma FirstBreak(a: nat, n: nat, lo: nat, b: nat)
    requires b > 0 && a <= n < lo && SelfCovering(a, lo, b) && Rem(n, b) == 0
    ensures Unbroken(a, n, b)
  {
    forall c: nat | a <= c < n ensures Rem(c, b) != 0 {
      if Rem(c, b) == 0 {
        QuotMono(c, n, b);
        QuotMono(n, lo, b);
        DivMod(c, b);
        DivMod(n, b);
      }
    }
  }

  lemma StillUnbroken(a: nat, n: nat, b: nat)
    requires b > 0 && a <= n
    ensures Unbroken(a, n + 1, b) <==> Unbroken(a, n, b) && Rem(n, b) != 0
  {
  }

  /** A block for cluster n of the run from a up to lo is added at cluster hi: if blocks
      cover themselves, so does this one. */
  lemma BlockPlace(a: nat, n: nat, lo: nat, b: nat, hi: nat)
    requires b > 0 && a <= n < lo && SelfCovering(a, lo, b) && (Unbroken(a, n, b) ==> hi == lo)
    ensures Rem(n, b) == 0 ==> Quot(hi, b) == Quot(n, b)
  {
    if Rem(n, b) == 0 {
      FirstBreak(a, n, lo, b);
    }
  }

  /** The number of ranges from `from` up to `end` that have no block. */
  function Lacking(rt: seq<nat>, from: nat, end: nat): nat {
    if end <= from then 0 else Lacking(rt, from, end - 1) + if HasBlock(rt, end - 1) then 0 else 1
  }

  lemma {:induction false} LackingMore(rt: seq<nat>, from: nat, end: nat, end': nat)
    requires end <= end'
    ensures Lacking(rt, from, end) <= Lacking(rt, from, end') <= Lacking(rt, from, end) + (end' - end)
    decreases end'
  {
    if end < end' {
      LackingMore(rt, from, end, end' - 1);
    }
  }

  /** The first i clusters from n0 on lie in ranges below this one. */
  function Upto(n0: nat, i: nat, b: nat): nat
    requires b > 0
  {
    if i == 0 then Quot(n0, b) else Quot(n0 + i - 1, b) + 1
  }

  lemma UptoNext(n0: nat, i: nat, b: nat)
    requires b > 0
    ensures Quot(n0, b) <= Quot(n0 + i, b) && Upto(n0, i, b) <= Upto(n0, i + 1, b) == Quot(n0 + i, b) + 1
    ensures i == 0 || Upto(n0, i, b) == Quot(n0 + i, b) || Upto(n0, i, b) == Quot(n0 + i, b) + 1
  {
    QuotMono(n0, n0 + i, b);
    if i > 0 {
      QuotMono(n0 + i - 1, n0 + i, b);
      DivMod(n0 + i - 1, b);
      DivMod(n0 + i, b);
      if Quot(n0 + i - 1, b) + 1 < Quot(n0 + i, b) {
        MulLess(b, Quot(n0 + i - 1, b) + 1, Quot(n0 + i, b));
      }
    }
  }

  /** The number of blocks that the first i clusters from n0 on lack. */
  function Extra(rt: seq<nat>, n0: nat, i: nat, b: nat): nat
    requires b > 0
  {
    Lacking(rt, Quot(n0, b), Upto(n0, i, b))
  }

  /** From rt0 to rt the ranges of the first i clusters have got their blocks, one cluster
      of c bytes for each that was lacking. */
  ghost predicate Tally(rt0: seq<nat>, next0: nat, rt: seq<nat>, next: nat, n0: nat, i: nat, b: nat, c: nat)
    requires b > 0
  {
    && (forall j: nat :: HasBlock(rt, j) <==> HasBlock(rt0, j) || Quot(n0, b) <= j < Upto(n0, i, b))
    && next == next0 + Times(Extra(rt0, n0, i, b), c)
    && |rt| == if i == 0 then |rt0| else Max(|rt0|, Upto(n0, i, b))
  }

  lemma ExtraStep(rt0: seq<nat>, rt: seq<nat>, n0: nat, i: nat, b: nat, k: nat)
    requires b > 0 && k == Quot(n0 + i, b)
    requires forall j: nat :: HasBlock(rt, j) <==> HasBlock(rt0, j) || Quot(n0, b) <= j < Upto(n0, i, b)
    ensures Extra(rt0, n0, i + 1, b) == Extra(rt0, n0, i, b) + if HasBlock(rt, k) then 0 else 1
  {
    UptoNext(n0, i, b);
  }

  lemma TallyStep(rt0: seq<nat>, next0: nat, rt: seq<nat>, next: nat, rt': seq<nat>, next': nat, n0: nat, i: nat,
                  b: nat, c: nat, k: nat, ok: bool)
    requires b > 0 && Tally(rt0, next0, rt, next, n0, i, b, c) && k == Quot(n0 + i, b)
    requires next' == next + (if HasBlock(rt, k) then 0 else c) && |rt'| == Max(|rt|, k + 1)
    requires forall j: nat :: HasBlock(rt', j) <==> HasBlock(rt, j) || (ok && j == k)
    ensures ok ==> Tally(rt0, next0, rt', next', n0, i + 1, b, c)
    ensures next' == next0 + Times(Extra(rt0, n0, i + 1, b), c) && |rt'| <= Max(|rt0|, Upto(n0, i + 1, b))
  {
    UptoNext(n0, i, b);
    ExtraStep(rt0, rt, n0, i, b, k);
  }

  /** `SelfCovering`, as it can be computed: only the first range that begins in the run
      matters. */
  predicate Covering(n: nat, lo: nat, b: nat)
    requires b > 0
  {
    AlignUp(n, b) >= lo || lo < AlignUp(n, b) + b
  }

  lemma CoveringIs(n: nat, lo: nat, b: nat)
    requires b > 0 && n <= lo
    ensures Covering(n, lo, b) <==> SelfCovering(n, lo, b)
  {
    var q := Quot(n + b - 1, b);
    var c := AlignUp(n, b);
    DivMod(n + b - 1, b);
    QuotRem(c, b, q, 0);
    if Covering(n, lo, b) {
      forall x: nat | n <= x < lo && Rem(x, b) == 0 ensures Quot(lo, b) == Quot(x, b) {
        OnlyBreak(n, lo, b, x, c, q);
      }
    }
    if SelfCovering(n, lo, b) && c < lo {
      DivMod(lo, b);
      assert Rem(c, b) == 0;
    }
  }

  lemma OnlyBreak(n: nat, lo: nat, b: nat, x: nat, c: nat, q: nat)
    requires b > 0 && n <= x < lo && Rem(x, b) == 0 && c == b * q && n <= c < n + b && (c >= lo || lo < c + b)
    ensures Quot(lo, b) == Quot(x, b)
  {
    DivMod(x, b);
    if Quot(x, b) < q {
      MulLess(b, Quot(x, b), q);
    } else if q < Quot(x, b) {
      MulLess(b, q, Quot(x, b));
    }
    QuotRem(lo, b, q, lo - c);
  }

  // ----- a cluster that stays uncounted

  /** Cluster c is part of the file and has refcount zero. */
  ghost predicate Missed(g: Geometry, s: State, c: nat) {
    c < Quot(s.next, Cs(g.u)) && Refcount(s.refcountTable, s.file, g.u, c) == 0
  }

  lemma OtherKept(rt: seq<nat>, own: Owners, f: seq<byte>, f': seq<byte>, u: Sectors, n: nat, o: nat, c: nat)
    requires Blocks(rt, own) && Aligned(own, u, |f|) && HasBlock(rt, Quot(n, PerBlock(u))) && c != n
    requires rt[Quot(n, PerBlock(u))] == o && o + Cs(u) <= |f|
    requires f' == Splice(f, o + 2 * Rem(n, PerBlock(u)), ToBE(1, 2))
    ensures Refcount(rt, f', u, c) == Refcount(rt, f, u, c)
  {
    AlignedClear(own, u, |f|, rt[Quot(n, PerBlock(u))]);
    SetCount(rt, own, f, f', u, Quot(n, PerBlock(u)), Rem(n, PerBlock(u)));
    OtherNumber(c, n, PerBlock(u));
  }

  /** A new block of zeros for range k at the end of the file counts nothing. */
  lemma NewBlockZero(rt: seq<nat>, own: Owners, f: seq<byte>, f2: seq<byte>, rt2: seq<nat>, u: Sectors, k: nat, c: nat)
    requires Blocks(rt, own) && Aligned(own, u, |f|) && k < |rt| && f2 == f + Zeros(Cs(u)) && rt2 == rt[k := |f|]
    requires Refcount(rt, f, u, c) == 0
    ensures Refcount(rt2, f2, u, c) == 0
  {
    var j, r := Quot(c, PerBlock(u)), Rem(c, PerBlock(u));
    if j == k {
      ZeroCount(f2, |f| + 2 * r);
    } else if HasBlock(rt, j) {
      assert f2[rt[j] + 2 * r..rt[j] + 2 * r + 2] == f[rt[j] + 2 * r..rt[j] + 2 * r + 2];
    }
  }

  lemma ZeroCount(f: seq<byte>, at: nat)
    requires at + 2 <= |f| && f[at] == 0 && f[at + 1] == 0
    ensures FromBE(f[at..at + 2]) == 0
  {
    var d := f[at..at + 2];
    assert d[..1] == [0] && d[..1][..0] == [];
    assert FromBE(d[..1]) == 0;
  }

  lemma MissedSelf(g: Geometry, s: State, s': State, k: nat, o: nat, hi: nat, c: nat)
    requires Core(g, s) && HasBlock(s.refcountTable, k) && s.refcountTable[k] == o && s' == SelfCounted(g, s, k, o, hi)
    requires c != hi && Refcount(s.refcountTable, s.file, g.u, c) == 0
    ensures Refcount(s'.refcountTable, s'.file, g.u, c) == 0
  {
    BlockFits(g, s, k);
    if Quot(hi, PerBlock(g.u)) == k {
      OtherKept(s.refcountTable, s.own, s.file, s'.file, g.u, hi, o, c);
    }
  }

  /** Counting cluster n leaves another cluster without refcount. */
  lemma MissedKept(g: Geometry, s: State, s': State, offset: nat, n: nat, c: nat, ok: bool)
    requires Even(g, s) && n == Quot(offset, Cs(g.u)) && (s', ok) == SetRefcount(g, s, offset) && ok
    requires Missed(g, s, c) && c != n
    ensures Missed(g, s', c)
  {
    var k := Quot(n, PerBlock(g.u));
    var p := s.(refcountTable := Padded(s.refcountTable, k));
    PadCore(g, s, p, k);
    PadFirst(g, s, p, offset, k);
    if p.refcountTable[k] != 0 {
      ExtendsSame(g, p);
      CountedCore(g, p, p, s', offset, n, k, ok);
      OtherKept(p.refcountTable, p.own, p.file, s'.file, g.u, n, p.refcountTable[k], c);
    } else {
      if p.next + Cs(g.u) > g.limit {
        AddBlockFails(g, p, k);
      }
      MissedAdding(g, p, s', offset, n, c, k, ok);
    }
  }

  lemma MissedAdding(g: Geometry, s: State, s': State, offset: nat, n: nat, c: nat, k: nat, ok: bool)
    requires Even(g, s) && n == Quot(offset, Cs(g.u)) && k == Quot(n, PerBlock(g.u))
    requires (s', ok) == SetRefcount(g, s, offset)
    requires k < |s.refcountTable| && s.refcountTable[k] == 0 && s.next + Cs(g.u) <= g.limit
    requires Missed(g, s, c) && c != n
    ensures Missed(g, s', c)
  {
    var s1 := Grown(g, s);
    var s2 := WithBlock(s, s1, k);
    var hi := Quot(s.next, Cs(g.u));
    var s3 := SelfCounted(g, s2, k, s.next, hi);
    MissedBefore(g, s, s1, s2, s3, k, hi, c);
    AddedIs(g, s, s1, s2, s3, s', offset, n, k, hi, ok);
    WrittenKept(g, s3, s', n, s.next, c);
    QuotMono(s.next, s'.next, Cs(g.u));
  }

  lemma WrittenKept(g: Geometry, s3: State, s': State, n: nat, o: nat, c: nat)
    requires Blocks(s3.refcountTable, s3.own) && Aligned(s3.own, g.u, |s3.file|) && c != n
    requires HasBlock(s3.refcountTable, Quot(n, PerBlock(g.u))) && s3.refcountTable[Quot(n, PerBlock(g.u))] == o
    requires o + Cs(g.u) <= |s3.file| && s' == s3.(file := Splice(s3.file, o + 2 * Rem(n, PerBlock(g.u)), ToBE(1, 2)))
    ensures Refcount(s'.refcountTable, s'.file, g.u, c) == Refcount(s3.refcountTable, s3.file, g.u, c)
  {
    OtherKept(s3.refcountTable, s3.own, s3.file, s'.file, g.u, n, o, c);
  }

  lemma MissedBefore(g: Geometry, s: State, s1: State, s2: State, s3: State, k: nat, hi: nat, c: nat)
    requires Even(g, s) && s.next + Cs(g.u) <= g.limit && Adding(g, s, s1, s2, k) && s.refcountTable[k] == 0
    requires hi == Quot(s.next, Cs(g.u)) && s3 == SelfCounted(g, s2, k, s.next, hi)
    requires Refcount(s.refcountTable, s.file, g.u, c) == 0 && c < hi
    ensures Refcount(s3.refcountTable, s3.file, g.u, c) == 0
    ensures Blocks(s3.refcountTable, s3.own) && Aligned(s3.own, g.u, |s3.file|)
  {
    NewBlockZero(s.refcountTable, s.own, s.file, s2.file, s2.refcountTable, g.u, k, c);
    AddedLayout(g, s, s1, s2, s3, k, hi);
    BlockAdded(g, s, s1, s2, k);
    MissedSelf(g, s2, s3, k, s.next, hi, c);
  }

  lemma AddedLayout(g: Geometry, s: State, s1: State, s2: State, s3: State, k: nat, hi: nat)
    requires Even(g, s) && s.next + Cs(g.u) <= g.limit && Adding(g, s, s1, s2, k) && s.refcountTable[k] == 0
    requires hi == Quot(s.next, Cs(g.u)) && s3 == SelfCounted(g, s2, k, s.next, hi)
    ensures Blocks(s3.refcountTable, s3.own) && Aligned(s3.own, g.u, |s3.file|)
  {
    AddedCore(g, s, s1, s2, s3, k, hi);
  }

  /** A block that is added in another range than its own, which has no block, is a
      cluster of the file with refcount zero. */
  lemma BlockOutside(g: Geometry, s: State, s': State, offset: nat, n: nat, hi: nat, ok: bool)
    requires (s', ok) == SetRefcount(g, s, offset) && n == Quot(offset, Cs(g.u)) && hi == Quot(s.next, Cs(g.u))
    requires !HasBlock(s.refcountTable, Quot(n, PerBlock(g.u))) && !HasBlock(s.refcountTable, Quot(hi, PerBlock(g.u)))
    requires Quot(n, PerBlock(g.u)) != Quot(hi, PerBlock(g.u)) && ok && Multiple(s.next, Cs(g.u)) && |s.file| <= s.next
    requires s.next > 0
    ensures Missed(g, s', hi)
  {
    SetEffect(g, s, s', offset, Quot(n, PerBlock(g.u)), ok);
    OutsideMissed(g, s, s', Quot(n, PerBlock(g.u)), hi);
  }

  lemma OutsideMissed(g: Geometry, s: State, s': State, k: nat, hi: nat)
    requires Multiple(s.next, Cs(g.u)) && hi == Quot(s.next, Cs(g.u)) && s'.next == s.next + Cs(g.u)
    requires !HasBlock(s.refcountTable, Quot(hi, PerBlock(g.u))) && k != Quot(hi, PerBlock(g.u))
    requires forall j: nat :: HasBlock(s'.refcountTable, j) <==> HasBlock(s.refcountTable, j) || j == k
    ensures Missed(g, s', hi)
  {
    MultipleRem(s.next, Cs(g.u));
    NotCounted(s'.refcountTable, s'.file, g.u, hi);
  }

  // ----- the loop over the reserved clusters

  /** `Even` with its blocks, `Counting` and `Extends`, each as one fact. */
  ghost predicate Level(g: Geometry, s: State) {
    forall k {:trigger Note(k)} :: Note(k) ==> Even(g, s) && Begun(s.refcountTable, g.u, Quot(s.next, Cs(g.u)))
  }

  ghost predicate Sealed(g: Geometry, s: State, n: nat, lo: nat) {
    forall k {:trigger Look(k)} :: Look(k) ==> Counting(g, s, n, lo)
  }

  ghost predicate Grew(g: Geometry, s: State, s': State) {
    forall k {:trigger Look(k)} :: Look(k) ==> Extends(g, s, s')
  }

  lemma GrewTwice(g: Geometry, s: State, s': State, s'': State)
    requires Grew(g, s, s') && Grew(g, s', s'')
    ensures Grew(g, s, s'')
  {
    assert Look(Key);
    ExtendsTrans(g, s, s', s'');
  }

  lemma GrewNot(g: Geometry, s: State)
    ensures Grew(g, s, s)
  {
    ExtendsSame(g, s);
  }

  lemma GrewOnce(g: Geometry, s: State, r: State)
    requires Extends(g, s, r)
    ensures Grew(g, s, r)
  {
  }

  ghost predicate Did(g: Geometry, s: State, offset: nat, s': State, ok: bool) {
    forall k {:trigger Note(k)} :: Note(k) ==> (s', ok) == SetRefcount(g, s, offset)
  }

  lemma Seal(g: Geometry, s: State, offset: nat, s': State, ok: bool)
    requires (s', ok) == SetRefcount(g, s, offset)
    ensures Did(g, s, offset, s', ok)
  {
  }

  /** The layout after one step, whatever is counted. */
  lemma LevelStep(g: Geometry, s: State, s': State, offset: nat, n: nat, ok: bool)
    requires Level(g, s) && Did(g, s, offset, s', ok) && n == Quot(offset, Cs(g.u)) < Quot(s.next, Cs(g.u))
    ensures Grew(g, s, s') && (ok ==> Level(g, s')) && (!ok ==> Sound(g, s') && s'.next > g.limit)
  {
    assert Look(Key);
    assert Note(Key);
    SetRefcountCore(g, s, s', offset, Quot(n, PerBlock(g.u)), ok);
    SetBegun(g, s, s', offset, n, ok);
    SetEffect(g, s, s', offset, Quot(n, PerBlock(g.u)), ok);
    if !ok {
      Close(g, s');
    }
  }

  /** The table and the cursor after one step. */
  lemma EffectStep(g: Geometry, s: State, s': State, offset: nat, k: nat, ok: bool)
    requires Level(g, s) && Did(g, s, offset, s', ok) && k == Quot(Quot(offset, Cs(g.u)), PerBlock(g.u))
    ensures s'.next == s.next + (if HasBlock(s.refcountTable, k) then 0 else Cs(g.u))
    ensures |s'.refcountTable| == Max(|s.refcountTable|, k + 1)
    ensures forall j: nat :: HasBlock(s'.refcountTable, j) <==> HasBlock(s.refcountTable, j) || (ok && j == k)
  {
    assert Look(Key);
    assert Note(Key);
    SetEffect(g, s, s', offset, k, ok);
  }

  lemma SealedStep(g: Geometry, s: State, s': State, offset: nat, n: nat, lo: nat, ok: bool)
    requires Sealed(g, s, n, lo) && n < lo && n == Quot(offset, Cs(g.u)) && Did(g, s, offset, s', ok) && ok
    requires Rem(n, PerBlock(g.u)) == 0 ==> Quot(Quot(s.next, Cs(g.u)), PerBlock(g.u)) == Quot(n, PerBlock(g.u))
    ensures Sealed(g, s', n + 1, lo)
  {
    assert Look(Key);
    assert Note(Key);
    SetRefcountCounts(g, s, s', offset, n, lo, ok);
  }

  /** Inside a range that has begun, the block is there. */
  lemma HasItsBlock(g: Geometry, s: State, n: nat, lo: nat)
    requires Sealed(g, s, n, lo) && Rem(n, PerBlock(g.u)) != 0
    ensures HasBlock(s.refcountTable, Quot(n, PerBlock(g.u)))
  {
    assert Look(Key);
    assert Note(Key);
    if !HasBlock(s.refcountTable, Quot(n, PerBlock(g.u))) {
      MissingBlock(s.refcountTable, s.file, g.u, n);
    }
  }

  /** The clusters from n0 up to n of the run up to lo are counted, as far as that goes. */
  ghost predicate Progress(g: Geometry, s: State, n0: nat, n: nat, lo: nat) {
    && (Unbroken(n0, n, PerBlock(g.u)) || SelfCovering(n0, lo, PerBlock(g.u)) ==> Sealed(g, s, n, lo))
    && (Unbroken(n0, n, PerBlock(g.u)) ==> Quot(s.next, Cs(g.u)) == lo && Begun(s.refcountTable, g.u, n0))
    && (!Unbroken(n0, n, PerBlock(g.u)) && !SelfCovering(n0, lo, PerBlock(g.u)) ==> Missed(g, s, lo))
  }

  /** The same as one fact. */
  ghost predicate Advancing(g: Geometry, s: State, n0: nat, n: nat, lo: nat) {
    forall k {:trigger Look(k)} :: Look(k) ==> Progress(g, s, n0, n, lo)
  }

  lemma InsideStep(g: Geometry, s: State, s': State, n0: nat, n: nat, lo: nat, offset: nat, ok: bool)
    requires n0 <= n < lo && Level(g, s) && Progress(g, s, n0, n, lo) && Unbroken(n0, n + 1, PerBlock(g.u))
    requires n == Quot(offset, Cs(g.u)) && Did(g, s, offset, s', ok) && ok
    ensures Progress(g, s', n0, n + 1, lo)
  {
    StillUnbroken(n0, n, PerBlock(g.u));
    HasItsBlock(g, s, n, lo);
    SealedStep(g, s, s', offset, n, lo, ok);
    EffectStep(g, s, s', offset, Quot(n, PerBlock(g.u)), ok);
    BegunSame(s.refcountTable, s'.refcountTable, g.u, n0);
  }

  lemma BegunSame(rt: seq<nat>, rt': seq<nat>, u: Sectors, n: nat)
    requires Begun(rt, u, n) && forall j: nat :: HasBlock(rt', j) ==> HasBlock(rt, j)
    ensures Begun(rt', u, n)
  {
  }

  lemma CoveredStep(g: Geometry, s: State, s': State, n0: nat, n: nat, lo: nat, offset: nat, ok: bool)
    requires n0 <= n < lo && Progress(g, s, n0, n, lo) && SelfCovering(n0, lo, PerBlock(g.u))
    requires !Unbroken(n0, n + 1, PerBlock(g.u))
    requires n == Quot(offset, Cs(g.u)) && Did(g, s, offset, s', ok) && ok
    ensures Progress(g, s', n0, n + 1, lo)
  {
    BlockPlace(n0, n, lo, PerBlock(g.u), Quot(s.next, Cs(g.u)));
    SealedStep(g, s, s', offset, n, lo, ok);
  }

  /** Where the first break of a run is that does not cover itself, no block is there, and
      none where the new one goes. */
  lemma FirstOutside(rt: seq<nat>, u: Sectors, n0: nat, n: nat, lo: nat)
    requires n0 <= n < lo && Unbroken(n0, n, PerBlock(u)) && Rem(n, PerBlock(u)) == 0
    requires !SelfCovering(n0, lo, PerBlock(u))
    requires Begun(rt, u, n0)
    ensures Quot(n, PerBlock(u)) < Quot(lo, PerBlock(u))
    ensures !HasBlock(rt, Quot(n, PerBlock(u))) && !HasBlock(rt, Quot(lo, PerBlock(u)))
  {
    var b := PerBlock(u);
    var c: nat :| n0 <= c < lo && Rem(c, b) == 0 && Quot(lo, b) != Quot(c, b);
    assert n <= c;
    QuotMono(n, c, b);
    QuotMono(c, lo, b);
    DivMod(n, b);
    QuotMono(n0 + b - 1, n + b - 1, b);
    QuotRem(n + b - 1, b, Quot(n, b), b - 1);
  }

  lemma BreakStep(g: Geometry, s: State, s': State, n0: nat, n: nat, lo: nat, offset: nat, ok: bool)
    requires n0 <= n < lo && Level(g, s) && Progress(g, s, n0, n, lo)
    requires !SelfCovering(n0, lo, PerBlock(g.u)) && !Unbroken(n0, n + 1, PerBlock(g.u))
    requires n == Quot(offset, Cs(g.u)) && Did(g, s, offset, s', ok) && ok
    ensures Progress(g, s', n0, n + 1, lo)
  {
    assert Look(Key);
    assert Note(Key);
    StillUnbroken(n0, n, PerBlock(g.u));
    if Unbroken(n0, n, PerBlock(g.u)) {
      FirstOutside(s.refcountTable, g.u, n0, n, lo);
      BlockOutside(g, s, s', offset, n, lo, ok);
    } else {
      MissedKept(g, s, s', offset, n, lo, ok);
    }
  }

  /** Counting cluster n of the run from n0 up to lo. */
  lemma ProgressStep(g: Geometry, s: State, s': State, n0: nat, n: nat, n': nat, lo: nat, offset: nat, ok: bool)
    requires n0 <= n < lo && Level(g, s) && Advancing(g, s, n0, n, lo) && n' == n + 1
    requires n == Quot(offset, Cs(g.u)) && Did(g, s, offset, s', ok) && ok
    ensures Advancing(g, s', n0, n', lo)
  {
    assert Look(Key);
    if Unbroken(n0, n + 1, PerBlock(g.u)) {
      InsideStep(g, s, s', n0, n, lo, offset, ok);
    } else if SelfCovering(n0, lo, PerBlock(g.u)) {
      CoveredStep(g, s, s', n0, n, lo, offset, ok);
    } else {
      BreakStep(g, s, s', n0, n, lo, offset, ok);
    }
  }

  /** The n clusters at `at` are refcount blocks. */
  ghost predicate Fenced(own: Owners, at: nat, n: nat, u: Sectors) {
    forall i: nat :: i < n ==> Times(i, Cs(u)) + at in own && own[Times(i, Cs(u)) + at].RefcountBlock?
  }

  lemma FenceStep(g: Geometry, s: State, s': State, offset: nat, k: nat, at: nat, l: nat, ok: bool)
    requires Level(g, s) && Did(g, s, offset, s', ok) && k == Quot(Quot(offset, Cs(g.u)), PerBlock(g.u))
    requires Grew(g, s, s') && Fenced(s.own, at, l, g.u) && s.next == at + Times(l, Cs(g.u))
    ensures ok ==> Fenced(s'.own, at, l + (if HasBlock(s.refcountTable, k) then 0 else 1), g.u)
  {
    OwnStep(g, s, s', offset, k, ok);
    FenceKept(s.own, s'.own, at, l, g.u);
  }

  lemma OwnStep(g: Geometry, s: State, s': State, offset: nat, k: nat, ok: bool)
    requires Level(g, s) && Did(g, s, offset, s', ok) && k == Quot(Quot(offset, Cs(g.u)), PerBlock(g.u))
    requires Grew(g, s, s')
    ensures forall b :: b in s.own ==> b in s'.own && s'.own[b] == s.own[b]
    ensures ok && !HasBlock(s.refcountTable, k) ==> s.next in s'.own && s'.own[s.next].RefcountBlock?
  {
    assert Look(Key);
    assert Note(Key);
    SetEffect(g, s, s', offset, k, ok);
  }

  lemma FenceKept(own: Owners, own': Owners, at: nat, l: nat, u: Sectors)
    requires Fenced(own, at, l, u) && forall b :: b in own ==> b in own' && own'[b] == own[b]
    ensures Fenced(own', at, l, u)
    ensures at + Times(l, Cs(u)) in own' && own'[at + Times(l, Cs(u))].RefcountBlock? ==> Fenced(own', at, l + 1, u)
  {
  }

  ghost predicate Tallied(g: Geometry, r: State, s: State, n0: nat, i: nat) {
    forall k {:trigger Look(k)} :: Look(k) ==>
      Tally(r.refcountTable, r.next, s.refcountTable, s.next, n0, i, PerBlock(g.u), Cs(g.u))
  }

  /** i of the m clusters at `at`, which begin with number n0, have been counted since r. */
  ghost predicate Countable(g: Geometry, r: State, s: State, at: nat, n0: nat, i: nat, m: nat) {
    && i <= m && at == Times(n0, Cs(g.u)) && Level(g, s) && n0 + m <= Quot(s.next, Cs(g.u))
    && Tallied(g, r, s, n0, i)
    && Fenced(s.own, r.next, Extra(r.refcountTable, n0, i, PerBlock(g.u)), g.u)
    && (g.counts != Lost ==> Advancing(g, s, n0, n0 + i, n0 + m))
  }

  /** The same as one fact. */
  ghost predicate Pending(g: Geometry, r: State, s: State, at: nat, n0: nat, i: nat, m: nat) {
    forall k {:trigger Use(k)} :: Use(k) ==> Countable(g, r, s, at, n0, i, m)
  }

  /** One turn of the loop. */
  lemma CountOne(g: Geometry, r: State, s: State, s1: State, at: nat, i: nat, m: nat, n0: nat, ok: bool)
    requires Pending(g, r, s, at, n0, i, m) && i < m && Did(g, s, at + Times(i, Cs(g.u)), s1, ok)
    ensures Grew(g, s, s1) && (!ok ==> Sound(g, s1) && s1.next > g.limit)
    ensures ok ==> Pending(g, r, s1, at, n0, i + 1, m)
    ensures s1.next == r.next + Times(Extra(r.refcountTable, n0, i + 1, PerBlock(g.u)), Cs(g.u))
    ensures |s1.refcountTable| <= Max(|r.refcountTable|, Upto(n0, i + 1, PerBlock(g.u)))
  {
    assert Use(Key);
    NumberOf(n0, i, Cs(g.u));
    CountNumber(g, r, s, s1, at + Times(i, Cs(g.u)), i, m, n0, ok);
  }

  lemma CountNumber(g: Geometry, r: State, s: State, s1: State, offset: nat, i: nat, m: nat, n0: nat, ok: bool)
    requires Countable(g, r, s, Times(n0, Cs(g.u)), n0, i, m) && i < m
    requires n0 + i == Quot(offset, Cs(g.u)) && Did(g, s, offset, s1, ok)
    ensures Grew(g, s, s1) && (!ok ==> Sound(g, s1) && s1.next > g.limit)
    ensures ok ==> Countable(g, r, s1, Times(n0, Cs(g.u)), n0, i + 1, m)
    ensures s1.next == r.next + Times(Extra(r.refcountTable, n0, i + 1, PerBlock(g.u)), Cs(g.u))
    ensures |s1.refcountTable| <= Max(|r.refcountTable|, Upto(n0, i + 1, PerBlock(g.u)))
  {
    LevelStep(g, s, s1, offset, n0 + i, ok);
    TableTurn(g, r, s, s1, offset, n0, i, ok);
    ClustersKept(g, s, s1, n0 + m);
    if ok && g.counts != Lost {
      ProgressStep(g, s, s1, n0, n0 + i, n0 + (i + 1), n0 + m, offset, ok);
    }
  }

  lemma ClustersKept(g: Geometry, s: State, s': State, lo: nat)
    requires Grew(g, s, s') && lo <= Quot(s.next, Cs(g.u))
    ensures lo <= Quot(s'.next, Cs(g.u))
  {
    assert Look(Key);
    QuotMono(s.next, s'.next, Cs(g.u));
  }

  /** The table, the cursor and the blocks behind the reserved clusters after one turn. */
  lemma TableTurn(g: Geometry, r: State, s: State, s1: State, offset: nat, n0: nat, i: nat, ok: bool)
    requires Level(g, s) && Grew(g, s, s1) && n0 + i == Quot(offset, Cs(g.u)) && Did(g, s, offset, s1, ok)
    requires Tallied(g, r, s, n0, i) && Fenced(s.own, r.next, Extra(r.refcountTable, n0, i, PerBlock(g.u)), g.u)
    ensures ok ==> Tallied(g, r, s1, n0, i + 1)
    ensures ok ==> Fenced(s1.own, r.next, Extra(r.refcountTable, n0, i + 1, PerBlock(g.u)), g.u)
    ensures s1.next == r.next + Times(Extra(r.refcountTable, n0, i + 1, PerBlock(g.u)), Cs(g.u))
    ensures |s1.refcountTable| <= Max(|r.refcountTable|, Upto(n0, i + 1, PerBlock(g.u)))
  {
    var b, k := PerBlock(g.u), Quot(n0 + i, PerBlock(g.u));
    assert Look(Key);
    EffectStep(g, s, s1, offset, k, ok);
    TallyStep(r.refcountTable, r.next, s.refcountTable, s.next, s1.refcountTable, s1.next, n0, i, b, Cs(g.u), k, ok);
    ExtraStep(r.refcountTable, s.refcountTable, n0, i, b, k);
    FenceStep(g, s, s1, offset, k, r.next, Extra(r.refcountTable, n0, i, b), ok);
  }

  lemma PendingStart(g: Geometry, r: State, at: nat, n0: nat, m: nat)
    requires Pending(g, r, r, at, n0, 0, m)
    ensures r.next == r.next + Times(Extra(r.refcountTable, n0, 0, PerBlock(g.u)), Cs(g.u))
  {
  }

  lemma {:induction false} UptoMore(n0: nat, i: nat, m: nat, b: nat)
    requires b > 0 && i <= m
    ensures Upto(n0, i, b) <= Upto(n0, m, b)
    decreases m
  {
    if i < m {
      UptoMore(n0, i, m - 1, b);
      UptoNext(n0, m - 1, b);
    }
  }

  lemma ExtraMore(rt: seq<nat>, n0: nat, i: nat, m: nat, b: nat, c: nat)
    requires b > 0 && i <= m
    ensures Times(Extra(rt, n0, i, b), c) <= Times(Extra(rt, n0, m, b), c) && Upto(n0, i, b) <= Upto(n0, m, b)
  {
    UptoMore(n0, i, m, b);
    LackingMore(rt, Quot(n0, b), Upto(n0, i, b), Upto(n0, m, b));
    TimesMono(Extra(rt, n0, i, b), Extra(rt, n0, m, b), c);
  }

  /** What is left of the loop when all m clusters have been counted. */
  lemma LoopEnds(g: Geometry, r: State, s: State, at: nat, n0: nat, m: nat)
    requires Pending(g, r, s, at, n0, m, m) && m > 0
    ensures |s.refcountTable| == Max(|r.refcountTable|, Upto(n0, m, PerBlock(g.u)))
    ensures Fenced(s.own, r.next, Extra(r.refcountTable, n0, m, PerBlock(g.u)), g.u)
  {
    assert Use(Key);
    assert Look(Key);
  }

  lemma GrewNext(g: Geometry, s: State, s': State)
    requires Grew(g, s, s')
    ensures s.next <= s'.next
  {
    assert Look(Key);
  }

  lemma GrewStill(g: Geometry, s: State, s': State, g': Geometry)
    requires Grew(g, s, s') && g' == g.(counts := g'.counts)
    ensures Grew(g', s, s')
  {
    assert Look(Key);
    forall base ensures DiskOf(g', s', base) == DiskOf(g', s, base) {
      assert DiskOf(g, s', base) == DiskOf(g, s, base);
    }
  }

  lemma NumberOf(n0: nat, i: nat, c: nat)
    requires c > 0
    ensures Quot(Times(n0, c) + Times(i, c), c) == n0 + i
  {
    TimesAdd(n0, i, c);
    TimesIs(n0 + i, c);
    Commute(n0 + i, c);
    QuotRem(Times(n0 + i, c), c, n0 + i, 0);
  }

  lemma Commute(a: nat, b: nat)
    ensures a * b == b * a
  {
  }

  // ----- reserving and counting

  lemma MultipleIsTimes(o: nat, c: nat)
    requires c > 0 && Multiple(o, c)
    ensures o == Times(Quot(o, c), c)
  {
    MultipleRem(o, c);
    DivMod(o, c);
    TimesIs(Quot(o, c), c);
    Commute(Quot(o, c), c);
  }

  /** The reserved clusters before counting. */
  lemma ReservedPending(g: Geometry, s: State, r: State, m: nat, n0: nat)
    requires HasReserved(g, s, r, m, if g.counts == Lost then 0 else n0) && Multiple(s.next, Cs(g.u))
    requires n0 == Quot(s.next, Cs(g.u))
    requires Begun(r.refcountTable, g.u, n0)
    ensures Pending(g, r, r, s.next, n0, 0, m)
  {
    MultipleIsTimes(s.next, Cs(g.u));
    NumberOf(n0, m, Cs(g.u));
    ReservedLevel(g, r, n0, n0 + m);
    if g.counts != Lost {
      ReservedProgress(g, r, n0, m);
    }
  }

  lemma ReservedLevel(g: Geometry, r: State, n0: nat, lo: nat)
    requires Core(g, r) && |r.file| == r.next && Multiple(r.next, Cs(g.u)) && Quot(r.next, Cs(g.u)) == lo
    requires Begun(r.refcountTable, g.u, n0) && n0 <= lo
    ensures Level(g, r)
  {
    BegunMore(r.refcountTable, g.u, n0, lo);
  }

  lemma ReservedProgress(g: Geometry, r: State, n0: nat, m: nat)
    requires Core(g, r) && |r.file| == r.next && Multiple(r.next, Cs(g.u)) && Quot(r.next, Cs(g.u)) == n0 + m
    requires Counted(r.refcountTable, r.file, g.u, n0) && Begun(r.refcountTable, g.u, n0)
    ensures Advancing(g, r, n0, n0, n0 + m)
  {
    ReservedCounting(g, r, n0, m);
  }

  lemma ReservedCounting(g: Geometry, r: State, n0: nat, m: nat)
    requires Core(g, r) && |r.file| == r.next && Multiple(r.next, Cs(g.u)) && Quot(r.next, Cs(g.u)) == n0 + m
    requires Counted(r.refcountTable, r.file, g.u, n0)
    ensures Sealed(g, r, n0, n0 + m)
  {
  }

  lemma ReserveFails(g: Geometry, s: State, s': State, m: nat)
    requires Inv(g, s) && m > 0 && s.next + Times(m, Cs(g.u)) > g.limit && s' == s.(next := s.next + Times(m, Cs(g.u)))
    ensures Inv(g, s') && Extends(g, s, s')
  {
    TimesLess(0, m, Cs(g.u));
    MultipleMore(s.next, m, Cs(g.u));
  }

  lemma {:induction false} MultipleMore(o: nat, m: nat, c: nat)
    requires c > 0 && Multiple(o, c)
    ensures Multiple(o + Times(m, c), c)
  {
    if m > 0 {
      MultipleMore(o, m - 1, c);
    }
  }

  /** The m clusters at the old cursor are unused and zero. */
  ghost predicate Unused(s: State, s': State, m: nat, u: Sectors) {
    && s.next + Times(m, Cs(u)) <= |s'.file| && Fresh(s'.own, s.next, m, u)
    && forall x :: s.next <= x < s.next + Times(m, Cs(u)) ==> s'.file[x] == 0
  }

  /** The file ends with m unused clusters of zeros at the old cursor. */
  ghost predicate Vacant(s: State, r: State, m: nat, u: Sectors) {
    && Fresh(r.own, s.next, m, u) && |r.file| == s.next + Times(m, Cs(u))
    && forall x :: s.next <= x < |r.file| ==> r.file[x] == 0
  }

  lemma VacantKept(g: Geometry, s: State, r: State, s': State, m: nat)
    requires Grew(g, r, s') && Vacant(s, r, m, g.u)
    ensures Unused(s, s', m, g.u)
  {
    assert Look(Key);
    forall x | s.next <= x < s.next + Times(m, Cs(g.u)) ensures s'.file[x] == 0 {
      VacantByte(r.own, r.file, s'.file, s.next, m, g.u, x);
    }
  }

  /** Byte x of a run of unused clusters is as it was. */
  lemma {:induction false} VacantByte(own: Owners, f: seq<byte>, f': seq<byte>, at: nat, m: nat, u: Sectors, x: nat)
    requires Kept(own, f, f', u) && Fresh(own, at, m, u) && at <= x < at + Times(m, Cs(u)) <= |f|
    ensures f'[x] == f[x]
  {
    if m > 0 && x < at + Times(m - 1, Cs(u)) {
      VacantByte(own, f, f', at, m - 1, u, x);
    } else if m > 0 {
      var b: nat := Times(m - 1, Cs(u)) + at;
      assert b in own && own[b] == Unlinked;
      assert f'[b..b + Cs(u)][x - b] == f[b..b + Cs(u)][x - b];
    }
  }

  /** The geometry after clusters have been counted: if not all could be, the counts are
      lost. */
  function Afterwards(g: Geometry, covered: bool): Geometry { if covered then g else g.(counts := Lost) }

  /** Every cluster of the file has refcount one. */
  ghost predicate AllCounted(g: Geometry, s: State) {
    Counted(s.refcountTable, s.file, g.u, Quot(|s.file|, Cs(g.u)))
  }

  /** After the loop over the m reserved clusters from number n0 on, every cluster of the
      file is counted if and only if the blocks that were added cover themselves,
      which can be told from the numbers; otherwise the cluster behind the
      reserved ones, which is a block, has refcount zero. */
  lemma LoopCounts(g: Geometry, r: State, s: State, at: nat, n0: nat, m: nat)
    requires Pending(g, r, s, at, n0, m, m)
    ensures Sound(Afterwards(g, Covering(n0, n0 + m, PerBlock(g.u))), s) && |s.file| == s.next
    ensures g.counts != Lost ==> (AllCounted(g, s) <==> Covering(n0, n0 + m, PerBlock(g.u)))
    ensures g.counts != Lost && !Covering(n0, n0 + m, PerBlock(g.u)) ==> Missed(g, s, n0 + m)
  {
    assert Use(Key);
    assert Look(Key);
    assert Note(Key);
    CoveringIs(n0, n0 + m, PerBlock(g.u));
    if g.counts != Lost {
      if SelfCovering(n0, n0 + m, PerBlock(g.u)) {
        CountedAll(g, s, n0 + m);
      }
    }
    Close(Afterwards(g, Covering(n0, n0 + m, PerBlock(g.u))), s);
  }

  // ----- for the methods that carry it out

  lemma {:induction false} ReservedIs(g: Geometry, s: State, m: nat)
    ensures var r := Reserved(g, s, m);
      && |r.file| == |s.file| + Times(m, Cs(g.u))
      && (forall x :: 0 <= x < |r.file| ==> r.file[x] == if x < |s.file| then s.file[x] else 0)
      && r == s.(file := r.file, next := s.next + Times(m, Cs(g.u)), own := r.own)
  {
    if m > 0 {
      ReservedIs(g, s, m - 1);
    }
  }

  lemma ReserveRefused(g: Geometry, s: State, s': State, m: nat)
    requires Sound(g, s) && m > 0 && s.next + Times(m, Cs(g.u)) > g.limit
    requires s' == s.(next := s.next + Times(m, Cs(g.u)))
    ensures Sound(g, s') && Grew(g, s, s')
  {
    Open(g, s);
    ReserveFails(g, s, s', m);
    Close(g, s');
    GrewOnce(g, s, s');
  }

  lemma ReserveWorks(g: Geometry, s: State, m: nat, n0: nat)
    requires Sound(g, s) && m > 0 && s.next + Times(m, Cs(g.u)) <= g.limit && n0 == Quot(s.next, Cs(g.u))
    ensures |s.file| == s.next && HasReserved(g, s, Reserved(g, s, m), m, if g.counts == Lost then 0 else n0)
    ensures Multiple(s.next, Cs(g.u)) && Begun(s.refcountTable, g.u, n0)
  {
    Open(g, s);
    TimesLess(0, m, Cs(g.u));
    ReservedKeeps(g, s, m, if g.counts == Lost then 0 else n0);
  }

  lemma ReserveGranted(g: Geometry, s: State, s': State, m: nat, n0: nat)
    requires Sound(g, s) && m > 0 && s.next + Times(m, Cs(g.u)) <= g.limit && n0 == Quot(s.next, Cs(g.u))
    requires s' == s.(file := s.file + Zeros(Times(m, Cs(g.u))), next := s.next + Times(m, Cs(g.u)),
      own := Reserved(g, s, m).own)
    ensures Pending(g, s', s', s.next, n0, 0, m) && Grew(g, s, s') && Vacant(s, s', m, g.u)
  {
    ReserveWorks(g, s, m, n0);
    ReservedIs(g, s, m);
    assert s' == Reserved(g, s, m);
    ReservedPending(g, s, s', m, n0);
    GrewOnce(g, s, s');
  }
}
