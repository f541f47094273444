/** The operations on an open QCOW2 image as functions from state to state: what
    each of them does, step by step, on every state.  The methods of the image
    class compute exactly these functions. */
module Qcow2Ops {
  import opened Bytes
  import opened Qcow2Image
  import opened Qcow2State

  const L2_CACHE_MAX_TABLES := 256

  datatype Translation = Unallocated | At(host: nat) | Rejected

  // ----- the L2 cache

  function FlushL2Table(s: State, i: nat): State
    requires i in s.cache
  {
    if !s.cache[i].dirty then s
    else s.(file := WriteFile(s.file, s.cache[i].hostOffset, EncodeTable(s.cache[i].entries)),
            cache := s.cache[i := s.cache[i].(dirty := false)])
  }

  /** Table v was used least recently, and no other as long ago. */
  ghost predicate LeastRecentlyUsed(cache: Cache, v: nat) {
    v in cache && forall k :: k in cache && k != v ==> cache[v].lastAccess < cache[k].lastAccess
  }

  function EvictL2Entry(s: State, v: nat): State
    requires v in s.cache
  {
    var s1 := FlushL2Table(s, v);
    s1.(cache := s1.cache - {v})
  }

  function ReadTable(f: seq<byte>, at: nat, u: Sectors): Option<seq<nat>> {
    if at + Cs(u) <= |f| then Some(DiskTable(f, at, u)) else None
  }

  /** Loading table i, which lies at host offset `at`, when it is not cached. */
  function LoadL2Table(g: Geometry, s: State, i: nat, at: nat): (State, bool) {
    match ReadTable(s.file, at, g.u)
    case None => (s, false)
    case Some(t) => (Stamp(s, i, CachedTable(t, false, at, 0)), true)
  }

  /** Table i is not cached and the cache is full. */
  predicate MustEvict(s: State, i: nat) { i !in s.cache && |s.cache| >= L2_CACHE_MAX_TABLES }

  /** `victim` is the table to evict when one must go. */
  function EnsureL2Cached(g: Geometry, s: State, i: nat, at: nat, victim: nat): (State, bool)
    requires MustEvict(s, i) ==> victim in s.cache
  {
    if i in s.cache then (Stamp(s, i, s.cache[i]), true)
    else LoadL2Table(g, if MustEvict(s, i) then EvictL2Entry(s, victim) else s, i, at)
  }

  /** Putting a table into the cache. */
  lemma CacheStamped(s: State, i: nat, c: CachedTable)
    ensures |Stamp(s, i, c).cache| == if i in s.cache then |s.cache| else |s.cache| + 1
  {
    assert Stamp(s, i, c).cache.Keys == s.cache.Keys + {i};
  }

  lemma CacheEvicted(s: State, v: nat)
    requires v in s.cache
    ensures |EvictL2Entry(s, v).cache| == |s.cache| - 1 && EvictL2Entry(s, v).cache.Keys == s.cache.Keys - {v}
  {
    assert EvictL2Entry(s, v).cache.Keys == s.cache.Keys - {v};
  }

  /** Loading a table adds one to the cache as long as fewer than 256 tables are there;
      with 256 or more of them it takes the place of another. */
  lemma CacheAfterLoad(g: Geometry, s: State, i: nat, at: nat, victim: nat)
    requires MustEvict(s, i) ==> victim in s.cache
    ensures var (s', ok) := EnsureL2Cached(g, s, i, at, victim);
      && (ok ==> |s'.cache| == if i !in s.cache && |s.cache| < 256 then |s.cache| + 1 else |s.cache|)
      && (!ok ==> |s'.cache| == if |s.cache| < 256 then |s.cache| else |s.cache| - 1)
  {
    if i in s.cache {
      CacheStamped(s, i, s.cache[i]);
    } else {
      if MustEvict(s, i) {
        CacheEvicted(s, victim);
      }
      var s1 := if MustEvict(s, i) then EvictL2Entry(s, victim) else s;
      if at + Cs(g.u) <= |s1.file| {
        CacheStamped(s1, i, CachedTable(DiskTable(s1.file, at, g.u), false, at, 0));
      }
    }
  }

  /** A new table goes into the cache without an eviction: with n tables there, n + 1
      are there afterwards, so that 256 is not a bound.  It is kept exactly when the
      cache was not full. */
  lemma CacheAfterNew(g: Geometry, s: State, i: nat, at: nat)
    requires i < |s.l1| && i !in s.cache
    ensures |EnterL2Table(g, s, i, at).cache| == |s.cache| + 1
    ensures |EnterL2Table(g, s, i, at).cache| <= 256 <==> |s.cache| < 256
  {
    var t := s.(l1 := s.l1[i := at + COPIED], tables := s.tables[i := EmptyTable(g.u)], own := s.own[at := L2Table(i)]);
    CacheStamped(t, i, CachedTable(EmptyTable(g.u), true, at, 0));
  }

  /** What an L2 entry says about a guest cluster. */
  function Decode(e: nat): Translation {
    if e == 0 then Unallocated
    else if Compressed(e) then Rejected
    else if L2Target(e) == 0 then Unallocated
    else At(L2Target(e))
  }

  /** An entry without bit 62 and with an offset leads there, one with bit 62 is refused,
      and one without an offset is as good as none. */
  lemma EntryMeans(low: nat, mid: nat, compressed: nat, copied: nat)
    requires low < 512 && mid < 0x20_0000_0000_0000 && compressed < 2
    ensures Decode(0x8000_0000_0000_0000 * copied + 0x4000_0000_0000_0000 * compressed + 512 * mid + low) ==
      if compressed == 1 then Rejected else if mid == 0 then Unallocated else At(512 * mid)
  {
    Masks(low, mid, 2 * copied + compressed);
  }

  /** Translating pos loads an L2 table into a full cache. */
  predicate TranslationEvicts(g: Geometry, s: State, pos: nat) {
    var i := L1Index(pos, g.u);
    i < |s.l1| && L1Target(s.l1[i]) != 0 && MustEvict(s, i)
  }

  function TranslateCluster(g: Geometry, s: State, pos: nat, victim: nat): (State, Translation)
    requires TranslationEvicts(g, s, pos) ==> victim in s.cache
  {
    var i, j := L1Index(pos, g.u), L2Index(pos, g.u);
    if i >= |s.l1| then (s, Rejected)
    else if L1Target(s.l1[i]) == 0 then (s, Unallocated)
    else
      var (s1, ok) := EnsureL2Cached(g, s, i, L1Target(s.l1[i]), victim);
      if !ok || i !in s1.cache || j >= |s1.cache[i].entries| then (s1, Rejected)
      else (s1, Decode(s1.cache[i].entries[j]))
  }

  // ----- allocation

  /** Moving the allocation cursor and growing the file up to it, which fails past
      the host's limit.  The new cluster has no use yet. */
  function Grow(g: Geometry, s: State): (State, bool) {
    var s1 := s.(next := s.next + Cs(g.u));
    if s1.next > g.limit then (s1, false)
    else (s1.(file := if |s.file| <= s1.next then s.file + Zeros(s1.next - |s.file|) else s.file[..s1.next],
              own := s.own[s.next := Unlinked]), true)
  }

  /** The refcount table with room for entry k. */
  function Padded(rt: seq<nat>, k: nat): (r: seq<nat>)
    ensures k < |r| && |rt| <= |r|
  {
    if k < |rt| then rt else rt + seq(k + 1 - |rt|, _ => 0)
  }

  /** A refcount block for range k, which counts itself if it lies in that range. */
  function AddBlock(g: Geometry, s: State, k: nat): (State, bool)
    requires k < |s.refcountTable|
  {
    var block := s.next;
    var (s1, ok) := Grow(g, s);
    if !ok then (s1, false) else
    var s2 := s1.(refcountTable := s.refcountTable[k := block], own := s1.own[block := RefcountBlock(k)]);
    var n := Quot(block, Cs(g.u));
    if Quot(n, PerBlock(g.u)) == k
    then (s2.(file := WriteFile(s2.file, block + 2 * Rem(n, PerBlock(g.u)), ToBE(1, 2))), true)
    else (s2, true)
  }

  /** A refcount block for range k if there is none. */
  function EnsureBlock(g: Geometry, s: State, k: nat): (State, bool)
    requires k < |s.refcountTable|
  {
    if s.refcountTable[k] == 0 then AddBlock(g, s, k) else (s, true)
  }

  /** Set the refcount of the cluster at `offset` to one. */
  function SetRefcount(g: Geometry, s: State, offset: nat): (State, bool) {
    var n := Quot(offset, Cs(g.u));
    var k := Quot(n, PerBlock(g.u));
    var s1 := s.(refcountTable := Padded(s.refcountTable, k));
    var (s2, ok) := EnsureBlock(g, s1, k);
    if !ok || k >= |s2.refcountTable| then (s2, false)
    else (s2.(file := WriteFile(s2.file, s2.refcountTable[k] + 2 * Rem(n, PerBlock(g.u)), ToBE(1, 2))), true)
  }

  function AllocCluster(g: Geometry, s: State): (State, bool) {
    var (s1, ok) := Grow(g, s);
    if !ok then (s1, false) else SetRefcount(g, s1, s.next)
  }

  // ----- linking

  /** The empty L2 table at host offset `at` becomes that of L1 index i. */
  function EnterL2Table(g: Geometry, s: State, i: nat, at: nat): State
    requires i < |s.l1|
  {
    Stamp(s.(l1 := s.l1[i := at + COPIED], tables := s.tables[i := EmptyTable(g.u)], own := s.own[at := L2Table(i)]),
          i, CachedTable(EmptyTable(g.u), true, at, 0))
  }

  /** Enter host cluster h for pos in the L2 table of L1 index i, which is cached. */
  function PutEntry(g: Geometry, s: State, i: nat, j: nat, h: nat): State
    requires i in s.cache && j < |s.cache[i].entries|
  {
    var e := SetEntry(s.cache[i].entries, j, h + COPIED);
    s.(cache := s.cache[i := s.cache[i].(entries := e, dirty := true)], tables := s.tables[i := e],
      own := s.own[h := Data(i, j)])
  }
}
