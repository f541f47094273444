/** An open QCOW2 image (src/storage/qcow2.rs): guest reads and writes through the
    two-level mapping, the L2 cache, the allocator and a chain of backing files. */
module Qcow2File {
  import opened Bytes
  import opened Qcow2Header
  import opened Qcow2Image
  import opened Qcow2State
  import Ops = Qcow2Ops
  import opened Qcow2Correct
  import opened Qcow2Writes
  import opened Qcow2Persist

  datatype Backing = NoBacking | Raw(bytes: seq<byte>) | Layer(image: Qcow2File)

  /** The objects that a backing file consists of. */
  ghost function Footprint(b: Backing): set<object> {
    match b
    case Layer(q) => q.Repr
    case _ => {}
  }

  class Qcow2File {
    const backing: Backing
    const path: seq<byte>
    ghost const Repr: set<object>

    var g: Geometry
    var header: Header
    var file: seq<byte>
    var l1: seq<nat>
    var refcountTable: seq<nat>
    var cache: Cache
    var accessCounter: nat
    var next: nat
    ghost var tables: Tables
    ghost var own: Owners
    ghost var stamps: map<nat, nat>

    ghost function S(): State
      reads this
    {
      State(file, l1, refcountTable, cache, accessCounter, next, tables, own, stamps)
    }

    /** The last step of `open`: an image with what was read from the file with
        contents f, and an empty cache. */
    constructor Attach(f: seq<byte>, parts: Opened, limit: nat, counts: Counts, below: Backing, ghost t: Tables,
                       ghost o: Owners)
      requires parts.header.clusterBits >= 9 && Covers(GeometryOf(parts.header, parts.path, limit, counts))
      requires |parts.l1| == parts.header.l1Size
      requires Sound(GeometryOf(parts.header, parts.path, limit, counts), OpenState(f, parts, t, o))
      requires below.Layer? ==> below.image.Valid()
      ensures Valid() && g == GeometryOf(parts.header, parts.path, limit, counts) && backing == below
      ensures header == parts.header && path == parts.path
      ensures S() == OpenState(f, parts, t, o) && Repr == {this} + Footprint(below) && fresh(this)
    {
      g, header, path := GeometryOf(parts.header, parts.path, limit, counts), parts.header, parts.path;
      backing := below;
      file, l1, refcountTable, next := f, parts.l1, parts.refcountTable, parts.next;
      cache, accessCounter := map[], 0;
      tables, own, stamps := t, o, map[];
      Repr := {this} + Footprint(below);
    }

    // ----- the L2 cache

    /** Write a dirty L2 table back to disk. */
    method FlushL2Table(i: nat)
      requires i in cache
      modifies this`file, this`cache
      ensures S() == Ops.FlushL2Table(old(S()), i)
    {
      var c := cache[i];
      if c.dirty {
        file := WriteFile(file, c.hostOffset, EncodeTable(c.entries));
        cache := cache[i := c.(dirty := false)];
      }
    }

    /** The least recently used cached table, which is unique, if there is any. */
    method LeastRecentlyUsed() returns (victim: Option<nat>)
      requires Stamped(cache, stamps, accessCounter)
      ensures victim == None <==> |cache| == 0
      ensures victim.Some? ==> Ops.LeastRecentlyUsed(cache, victim.value)
    {
      if |cache| == 0 {
        return None;
      }
      var v :| v in cache;
      var rest := cache.Keys - {v};
      while rest != {}
        invariant v in cache && rest <= cache.Keys && v !in rest
        invariant forall k :: k in cache && k !in rest ==> cache[v].lastAccess <= cache[k].lastAccess
        decreases |rest|
      {
        var k :| k in rest;
        rest := rest - {k};
        if cache[k].lastAccess < cache[v].lastAccess {
          v := k;
        }
      }
      return Some(v);
    }

    /** Evict the least recently used L2 table, if there is any. */
    method EvictL2Entry() returns (ghost victim: Option<nat>)
      requires Stamped(cache, stamps, accessCounter)
      modifies this`file, this`cache
      ensures victim == None <==> |old(cache)| == 0
      ensures victim == None ==> S() == old(S())
      ensures victim.Some? ==> Ops.LeastRecentlyUsed(old(cache), victim.value)
      ensures victim.Some? ==> S() == Ops.EvictL2Entry(old(S()), victim.value)
    {
      var idx := LeastRecentlyUsed();
      victim := idx;
      if idx.Some? {
        FlushL2Table(idx.value);
        cache := cache - {idx.value};
      }
    }

    /** Read an L2 table from disk into the cache. */
    method LoadL2Table(i: nat, at: nat) returns (ok: bool)
      modifies this`cache, this`accessCounter, this`stamps
      ensures (S(), ok) == Ops.LoadL2Table(g, old(S()), i, at)
    {
      if at + Cs(g.u) > |file| {
        return false;
      }
      accessCounter := accessCounter + 1;
      cache := cache[i := CachedTable(DiskTable(file, at, g.u), false, at, accessCounter)];
      stamps := stamps[accessCounter := i];
      return true;
    }

    /** Make sure that the L2 table for L1 index i, at host offset `at`, is cached. */
    method EnsureL2Cached(i: nat, at: nat) returns (ok: bool, ghost victim: nat)
      requires Stamped(cache, stamps, accessCounter)
      modifies this`file, this`cache, this`accessCounter, this`stamps
      ensures Ops.MustEvict(old(S()), i) ==> Ops.LeastRecentlyUsed(old(cache), victim)
      ensures (S(), ok) == Ops.EnsureL2Cached(g, old(S()), i, at, victim)
      ensures |cache| <= 256 || |cache| <= |old(cache)|
    {
      victim := 0;
      if i in cache {
        accessCounter := accessCounter + 1;
        cache := cache[i := cache[i].(lastAccess := accessCounter)];
        stamps := stamps[accessCounter := i];
        assert cache.Keys == old(cache).Keys;
        return true, victim;
      }
      if |cache| >= Ops.L2_CACHE_MAX_TABLES {
        ghost var v := EvictL2Entry();
        victim := v.value;
      }
      ok := LoadL2Table(i, at);
      Ops.CacheAfterLoad(g, old(S()), i, at, victim);
    }

    /** Translate a guest offset to the host cluster that holds it. */
    method TranslateCluster(pos: nat) returns (r: Ops.Translation, ghost victim: nat)
      requires Stamped(cache, stamps, accessCounter)
      modifies this`file, this`cache, this`accessCounter, this`stamps
      ensures Ops.TranslationEvicts(g, old(S()), pos) ==> Ops.LeastRecentlyUsed(old(cache), victim)
      ensures (S(), r) == Ops.TranslateCluster(g, old(S()), pos, victim)
      ensures |cache| <= 256 || |cache| <= |old(cache)|
    {
      var i, j := L1Index(pos, g.u), L2Index(pos, g.u);
      victim := 0;
      if i >= |l1| {
        return Ops.Rejected, victim;
      }
      var at := L1Target(l1[i]);
      if at == 0 {
        return Ops.Unallocated, victim;
      }
      var ok;
      ok, victim := EnsureL2Cached(i, at);
      if !ok || i !in cache || j >= |cache[i].entries| {
        return Ops.Rejected, victim;
      }
      r := Ops.Decode(cache[i].entries[j]);
    }

    // ----- allocation

    /** Grow the refcount table until it has entry k. */
    method GrowRefcountTable(k: nat)
      modifies this`refcountTable
      ensures refcountTable == Ops.Padded(old(refcountTable), k)
    {
      ghost var rt := refcountTable;
      while k >= |refcountTable|
        invariant |rt| <= |refcountTable| && (k < |rt| ==> refcountTable == rt)
        invariant k >= |rt| ==> |refcountTable| <= k + 1 && refcountTable == rt + seq(|refcountTable| - |rt|, _ => 0)
      {
        refcountTable := refcountTable + [0];
      }
    }

    /** Set the refcount of the cluster at `offset` to one. */
    method SetRefcount(offset: nat) returns (ok: bool)
      modifies this`file, this`refcountTable, this`next, this`own
      ensures (S(), ok) == Ops.SetRefcount(g, old(S()), offset)
    {
      var n := Quot(offset, Cs(g.u));
      var k, r := Quot(n, PerBlock(g.u)), Rem(n, PerBlock(g.u));
      GrowRefcountTable(k);
      ghost var s1 := S();
      ok := EnsureBlock(k);
      if !ok {
        return false;
      }
      assert (S(), true) == Ops.EnsureBlock(g, s1, k);
      file := WriteFile(file, refcountTable[k] + 2 * r, ToBE(1, 2));
      return true;
    }

    /** Add a refcount block for range k if there is none. */
    method EnsureBlock(k: nat) returns (ok: bool)
      requires k < |refcountTable|
      modifies this`file, this`refcountTable, this`next, this`own
      ensures (S(), ok) == Ops.EnsureBlock(g, old(S()), k) && |refcountTable| == |old(refcountTable)|
    {
      ok := true;
      if refcountTable[k] == 0 {
        ok := AddBlock(k);
      }
    }

    /** Add a refcount block for range k. */
    method AddBlock(k: nat) returns (ok: bool)
      requires k < |refcountTable|
      modifies this`file, this`refcountTable, this`next, this`own
      ensures (S(), ok) == Ops.AddBlock(g, old(S()), k) && |refcountTable| == |old(refcountTable)|
    {
      var block := next;
      ok := Grow();
      if !ok {
        return false;
      }
      refcountTable := refcountTable[k := block];
      own := own[block := RefcountBlock(k)];
      var n := Quot(block, Cs(g.u));
      if Quot(n, PerBlock(g.u)) == k {
        file := WriteFile(file, block + 2 * Rem(n, PerBlock(g.u)), ToBE(1, 2));
      }
      return true;
    }

    /** Advance the allocation cursor and extend the file up to it. */
    method Grow() returns (ok: bool)
      modifies this`file, this`next, this`own
      ensures (S(), ok) == Ops.Grow(g, old(S()))
    {
      var offset := next;
      next := next + Cs(g.u);
      if next > g.limit {
        return false;
      }
      file := if |file| <= next then file + Zeros(next - |file|) else file[..next];
      own := own[offset := Unlinked];
      return true;
    }

    /** Allocate a new cluster at the end of the file. */
    method AllocCluster() returns (ok: bool, offset: nat)
      modifies this`file, this`refcountTable, this`next, this`own
      ensures (S(), ok) == Ops.AllocCluster(g, old(S())) && offset == old(next)
    {
      offset := next;
      ok := Grow();
      if ok {
        ok := SetRefcount(offset);
      }
    }

    // ----- linking

    method EnterL2Table(i: nat, at: nat)
      requires i < |l1|
      modifies this`l1, this`cache, this`accessCounter, this`tables, this`own, this`stamps
      ensures S() == Ops.EnterL2Table(g, old(S()), i, at) && cache.Keys == old(cache.Keys) + {i}
    {
      l1 := l1[i := at + COPIED];
      accessCounter := accessCounter + 1;
      cache := cache[i := CachedTable(EmptyTable(g.u), true, at, accessCounter)];
      tables, own, stamps := tables[i := EmptyTable(g.u)], own[at := L2Table(i)], stamps[accessCounter := i];
    }

    method PutEntry(i: nat, j: nat, h: nat)
      requires i in cache && j < |cache[i].entries|
      modifies this`cache, this`tables, this`own
      ensures S() == Ops.PutEntry(g, old(S()), i, j, h)
    {
      var e := SetEntry(cache[i].entries, j, h + COPIED);
      cache := cache[i := cache[i].(entries := e, dirty := true)];
      tables, own := tables[i := e], own[h := Data(i, j)];
    }

    // ----- the operations under the invariant

    ghost predicate Valid()
      reads this, Repr
      decreases Repr
    {
      && this in Repr && Sound(g, S()) && |l1| == g.l1Size && Covers(g) && Headed(g, header, path)
      && match backing {
           case NoBacking => true
           case Raw(_) => true
           case Layer(q) => q in Repr && q.Repr < Repr && this !in q.Repr && q.Valid()
         }
    }

    /** What the backing file provides. */
    ghost function Base(): Base
      requires Valid()
      reads this, Repr
      decreases Repr, 0
    {
      match backing
      case NoBacking => NoBase
      case Raw(b) => RawBase(b)
      case Layer(q) => LayerBase(q.Contents())
    }

    /** The guest disk; None marks a byte that cannot be read because a backing
        image is too short. */
    ghost function Contents(): (d: seq<Option<byte>>)
      requires Valid()
      reads this, Repr
      decreases Repr, 1
    {
      DiskOf(g, S(), Base())
    }

    method Translate(pos: nat) returns (r: Ops.Translation)
      requires Sound(g, S()) && L1Index(pos, g.u) < |l1|
      modifies this`file, this`cache, this`accessCounter, this`stamps
      ensures Sound(g, S()) && Transparent(g, old(S()), S())
      ensures Host(tables, L1Index(pos, g.u), L2Index(pos, g.u)) == None ==> r == Ops.Unallocated
      ensures Host(tables, L1Index(pos, g.u), L2Index(pos, g.u)).Some? ==>
        r.At? && Host(tables, L1Index(pos, g.u), L2Index(pos, g.u)) == Some(r.host) && r.host + Cs(g.u) <= |file|
      ensures |cache| <= 256 || |cache| <= |old(cache)|
    {
      Open(g, S());
      ghost var v;
      r, v := TranslateCluster(pos);
      TranslateInv(g, old(S()), S(), pos, v, r);
      Close(g, S());
      if r.At? {
        HostFits(g, S(), L1Index(pos, g.u), L2Index(pos, g.u));
      }
    }

    method Allocate() returns (ok: bool, offset: nat)
      requires Sound(g, S())
      modifies this`file, this`refcountTable, this`next, this`own
      ensures Sound(g, S()) && Extends(g, old(S()), S()) && (ok || next > g.limit)
      ensures Spends(g.u, old(next), |old(refcountTable)|, next, |refcountTable|, 2)
      ensures ok ==> offset !in old(own) && offset in own && own[offset] == Unlinked && offset + Cs(g.u) <= |file|
    {
      Open(g, S());
      ok, offset := AllocCluster();
      AllocInv(g, old(S()), S(), ok);
      AllocSpends(g, old(S()), S(), ok);
      Close(g, S());
    }

    /** Add an empty L2 table for L1 index i. */
    method AddL2Table(i: nat) returns (ok: bool)
      requires Sound(g, S()) && i < |l1| && i !in tables
      modifies this
      ensures g == old(g) && header == old(header)
      ensures Sound(g, S()) && Ready(g, old(S()), S()) && (ok || next > g.limit)
      ensures Spends(g.u, old(next), |old(refcountTable)|, next, |refcountTable|, 2)
      ensures ok ==> i in cache && cache.Keys == old(cache.Keys) + {i}
    {
      var at;
      ok, at := Allocate();
      if !ok {
        ExtendsReady(g, old(S()), S());
        return;
      }
      EnterNewTable(i, at, old(S()));
    }

    /** The cluster at `at`, allocated since s0, becomes the L2 table for index i. */
    method EnterNewTable(i: nat, at: nat, ghost s0: State)
      requires Sound(g, S()) && Extends(g, s0, S()) && i < |l1| && i !in s0.tables
      requires at !in s0.own && at in own && own[at] == Unlinked
      modifies this`l1, this`cache, this`accessCounter, this`tables, this`own, this`stamps
      ensures Sound(g, S()) && Ready(g, s0, S()) && i in cache && cache.Keys == old(cache.Keys) + {i}
    {
      Open(g, S());
      EnterL2Table(i, at);
      AddTableAt(g, s0, old(S()), S(), i, at);
      Close(g, S());
    }

    /** Load the L2 table for L1 index i. */
    method LoadTable(i: nat, at: nat)
      requires Sound(g, S()) && i in tables && i < |l1| && l1[i] == at + COPIED
      modifies this`file, this`cache, this`accessCounter, this`stamps
      ensures Sound(g, S()) && Ready(g, old(S()), S()) && i in cache
    {
      Open(g, S());
      var ok;
      ghost var v;
      ok, v := EnsureL2Cached(i, at);
      EnsureInv(g, old(S()), S(), i, at, v, ok);
      TransparentReady(g, old(S()), S());
      Close(g, S());
    }

    /** Get the L2 table for L1 index i into the cache, adding it if there is none. */
    method TableFor(i: nat) returns (ok: bool)
      requires Sound(g, S()) && i < |l1|
      modifies this
      ensures g == old(g) && header == old(header)
      ensures Sound(g, S()) && Ready(g, old(S()), S()) && (ok || next > g.limit)
      ensures Spends(g.u, old(next), |old(refcountTable)|, next, |refcountTable|, 2)
      ensures ok ==> i in cache
    {
      var at := L1Target(l1[i]);
      EntryOf(g, S(), i);
      if at == 0 {
        ok := AddL2Table(i);
      } else {
        LoadTable(i, at);
        SpendsNothing(g.u, next, |refcountTable|, 2);
        ok := true;
      }
    }

    /** Enter host cluster h for guest offset pos.  `mid` is the state in which the
        L2 table is in the cache. */
    method SetL2Entry(pos: nat, h: nat) returns (ok: bool, ghost mid: State)
      requires Sound(g, S()) && L1Index(pos, g.u) < |l1| && h in own && own[h] == Unlinked
      modifies this
      ensures g == old(g) && header == old(header)
      ensures Sound(g, S()) && Sound(g, mid) && Ready(g, old(S()), mid)
      ensures Spends(g.u, old(next), |old(refcountTable)|, next, |refcountTable|, 2)
      ensures !ok ==> S() == mid && next > g.limit
      ensures ok ==> Linked(mid, S(), L1Index(pos, g.u), L2Index(pos, g.u), h)
    {
      var i, j := L1Index(pos, g.u), L2Index(pos, g.u);
      ok := TableFor(i);
      mid := S();
      if ok {
        ReadyOwn(g, old(S()), mid, h);
        LinkEntry(i, j, h);
      }
    }

    /** Enter host cluster h as entry j of the cached L2 table for L1 index i. */
    method LinkEntry(i: nat, j: nat, h: nat)
      requires Sound(g, S()) && i in cache && j < PerTable(g.u) && h in own && own[h] == Unlinked
      modifies this`cache, this`tables, this`own
      ensures Sound(g, S()) && Linked(old(S()), S(), i, j, h)
    {
      Open(g, S());
      Cached(g, S(), i);
      PutEntry(i, j, h);
      PutEntryInv(g, old(S()), S(), i, j, h);
      Close(g, S());
    }

    // ----- writing into clusters

    /** Write d into the allocated cluster at h. */
    method WriteInPlace(pos: nat, d: seq<byte>, h: nat)
      requires Sound(g, S()) && Host(tables, L1Index(pos, g.u), L2Index(pos, g.u)) == Some(h) && h + Cs(g.u) <= |file|
      requires pos + |d| <= g.size && Rem(pos, Cs(g.u)) + |d| <= Cs(g.u)
      modifies this`file
      ensures Sound(g, S())
      ensures forall base :: DiskOf(g, S(), base) == Patched(DiskOf(g, old(S()), base), pos, d)
    {
      file := WriteFile(file, h + Rem(pos, Cs(g.u)), d);
      WriteAllocatedSound(g, old(S()), S(), pos, d, h);
    }

    /** Fill an unlinked cluster. */
    method FillCluster(h: nat, buf: seq<byte>)
      requires Sound(g, S()) && h in own && own[h] == Unlinked && |buf| == Cs(g.u) && h + Cs(g.u) <= |file|
      modifies this`file
      ensures Sound(g, S()) && |file| == |old(file)| && file[h..h + Cs(g.u)] == buf
      ensures forall base :: DiskOf(g, S(), base) == DiskOf(g, old(S()), base)
    {
      Open(g, S());
      file := WriteFile(file, h, buf);
      OverwriteInv(g, old(S()), S(), h, 0, buf);
      Close(g, S());
    }

    /** Link the prepared cluster at h and write d into it. */
    method LinkAndWrite(pos: nat, d: seq<byte>, h: nat, ghost base: Base) returns (ok: bool)
      requires Sound(g, S()) && L1Index(pos, g.u) < |l1| && h in own && own[h] == Unlinked && h + Cs(g.u) <= |file|
      requires Host(tables, L1Index(pos, g.u), L2Index(pos, g.u)) == None
      requires pos + |d| <= g.size && Rem(pos, Cs(g.u)) + |d| <= Cs(g.u)
      requires |d| == Cs(g.u) || Prepared(file, h, g.u, base, pos)
      modifies this
      ensures g == old(g) && header == old(header)
      ensures Sound(g, S()) && |l1| == |old(l1)| && next >= old(next)
      ensures Spends(g.u, old(next), |old(refcountTable)|, next, |refcountTable|, 2)
      ensures SameElsewhere(old(tables), tables, g.u, pos)
      ensures ok ==> DiskOf(g, S(), base) == Patched(DiskOf(g, old(S()), base), pos, d)
      ensures !ok ==> DiskOf(g, S(), base) == DiskOf(g, old(S()), base) && next > g.limit
    {
      ghost var mid;
      ok, mid := SetL2Entry(pos, h);
      if ok {
        ghost var m := S();
        file := WriteFile(file, h + Rem(pos, Cs(g.u)), d);
        WriteLinkedSound(g, old(S()), mid, m, S(), base, pos, d, h);
      }
      ReadyElsewhere(g, old(S()), mid, S(), pos, h, ok);
    }

    // ----- guest I/O

    /** Read n bytes from the backing file, or zeros if there is none. */
    method ReadBacking(pos: nat, n: nat) returns (ok: bool, buf: seq<byte>)
      requires Valid() && n > 0
      modifies Repr - {this}
      ensures Valid() && Base() == old(Base())
      ensures ok <==> BaseReadable(Base(), pos, n)
      ensures ok ==> |buf| == n && BaseHolds(Base(), pos, buf)
      ensures backing.NoBacking? ==> ok && forall k :: 0 <= k < n ==> buf[k] == 0
      ensures backing.Raw? ==>
        ok && forall k :: 0 <= k < n ==> buf[k] == if pos + k < |backing.bytes| then backing.bytes[pos + k] else 0
      ensures backing.Layer? ==>
        var d := backing.image.Contents();
        && (ok <==> pos + n <= |d| && forall k :: pos <= k < pos + n ==> d[k].Some?)
        && (ok ==> forall k :: 0 <= k < n ==> d[pos + k] == Some(buf[k]))
      decreases Repr, 0
    {
      match backing
      case NoBacking =>
        return true, Zeros(n);
      case Raw(b) =>
        if pos >= |b| {
          return true, Zeros(n);
        }
        var readable := if n < |b| - pos then n else |b| - pos;
        return true, b[pos..pos + readable] + Zeros(n - readable);
      case Layer(q) =>
        ok, buf := q.ReadAt(pos, n);
        LayerReads(q.Contents(), pos, n);
        if ok {
          LayerHolds(q.Contents(), pos, buf);
        }
    }

    /** Read n bytes of the allocated cluster at h. */
    method ReadAllocated(pos: nat, n: nat, h: nat) returns (chunk: seq<byte>)
      requires Valid() && n > 0 && Rem(pos, Cs(g.u)) + n <= Cs(g.u) && pos + n <= g.size
      requires Host(tables, L1Index(pos, g.u), L2Index(pos, g.u)) == Some(h) && h + Cs(g.u) <= |file|
      ensures |chunk| == n && Holds(Contents(), pos, chunk) && Readable(Contents(), pos, n)
    {
      var at := h + Rem(pos, Cs(g.u));
      chunk := file[at..at + n];
      ChunkFromFile(g, S(), Base(), pos, n, h);
      HoldsReadable(Contents(), pos, chunk);
    }

    /** Read n bytes that lie in one cluster. */
    method ReadChunk(pos: nat, n: nat) returns (ok: bool, chunk: seq<byte>)
      requires Valid() && n > 0 && Rem(pos, Cs(g.u)) + n <= Cs(g.u) && pos + n <= g.size
      modifies Repr
      ensures g == old(g) && header == old(header)
      ensures Valid() && Contents() == old(Contents()) && Base() == old(Base()) && tables == old(tables)
      ensures next == old(next) && refcountTable == old(refcountTable)
      ensures ok <==> Readable(Contents(), pos, n)
      ensures ok ==> |chunk| == n && Holds(Contents(), pos, chunk)
      ensures |cache| <= 256 || |cache| <= |old(cache)|
      decreases Repr, 1
    {
      var r := Translate(pos);
      if r.At? {
        chunk := ReadAllocated(pos, n, r.host);
        ok := true;
      } else {
        ok, chunk := ReadBacking(pos, n);
        ChunkFromBase(g, S(), Base(), pos, n);
      }
    }

    /** Read `len` bytes at guest offset `offset`.  The read succeeds exactly when
        the range lies in the disk and every byte of it is readable. */
    method ReadAt(offset: nat, len: nat) returns (ok: bool, buf: seq<byte>)
      requires Valid()
      modifies Repr
      ensures g == old(g) && header == old(header)
      ensures Valid() && Contents() == old(Contents()) && Base() == old(Base()) && tables == old(tables)
      ensures next == old(next) && refcountTable == old(refcountTable)
      ensures ok <==> Readable(Contents(), offset, len)
      ensures ok ==> |buf| == len && Holds(Contents(), offset, buf)
      ensures !ok ==> buf == []
      ensures |cache| <= 256 || |cache| <= |old(cache)|
      decreases Repr, 2
    {
      if offset + len > g.size {
        return false, [];
      }
      buf := [];
      while |buf| < len
        invariant Valid() && Contents() == old(Contents()) && Base() == old(Base()) && tables == old(tables)
        invariant next == old(next) && refcountTable == old(refcountTable) && |buf| <= len
        invariant g == old(g) && header == old(header)
        invariant Holds(Contents(), offset, buf) && (|cache| <= 256 || |cache| <= |old(cache)|)
      {
        var pos := offset + |buf|;
        var k := Rem(pos, Cs(g.u));
        var n := if Cs(g.u) - k < len - |buf| then Cs(g.u) - k else len - |buf|;
        var chunk;
        ok, chunk := ReadChunk(pos, n);
        if !ok {
          if Readable(Contents(), offset, len) {
            ReadablePart(Contents(), offset, len, pos, n);
          }
          return false, [];
        }
        HoldsAppend(Contents(), offset, buf, chunk);
        buf := buf + chunk;
      }
      ok := true;
      HoldsReadable(Contents(), offset, buf);
    }

    /** Fill the unlinked cluster at h with what the backing file provides for the
        cluster of pos. */
    method PrepareCluster(pos: nat, h: nat) returns (ok: bool)
      requires Valid() && h in own && own[h] == Unlinked && h + Cs(g.u) <= |file|
      modifies Repr - {this}, this`file
      ensures Valid() && Base() == old(Base()) && Contents() == old(Contents()) && |file| == |old(file)|
      ensures ok ==> Prepared(file, h, g.u, Base(), pos)
      ensures ok <==> BaseReadable(Base(), Start(pos, g.u), Cs(g.u))
    {
      var buf;
      ok, buf := ReadBacking(Start(pos, g.u), Cs(g.u));
      if ok {
        FillCluster(h, buf);
        FilledPrepared(file, h, g.u, old(Base()), pos, buf);
      }
    }

    /** Write d to a guest cluster that is not allocated. */
    method WriteNewCluster(pos: nat, d: seq<byte>) returns (r: WriteResult)
      requires Valid() && Rem(pos, Cs(g.u)) + |d| <= Cs(g.u) && pos + |d| <= g.size && |d| > 0
      requires Host(tables, L1Index(pos, g.u), L2Index(pos, g.u)) == None
      modifies Repr
      ensures g == old(g) && header == old(header)
      ensures Valid() && Base() == old(Base())
      ensures Spends(g.u, old(next), |old(refcountTable)|, next, |refcountTable|, 4)
      ensures r == Written ==> Contents() == Patched(old(Contents()), pos, d)
      ensures r != Written ==> Contents() == old(Contents())
      ensures r != PastEnd && (r == NoSpace ==> next > g.limit)
      ensures r == BackingUnreadable ==> |d| < Cs(g.u) && !BaseReadable(Base(), Start(pos, g.u), Cs(g.u))
      ensures r == Written && |d| < Cs(g.u) ==> BaseReadable(Base(), Start(pos, g.u), Cs(g.u))
      ensures next >= old(next) && SameElsewhere(old(tables), tables, g.u, pos)
    {
      var ok, h := Allocate();
      SpendsMore(g.u, old(next), |old(refcountTable)|, next, |refcountTable|, 2, 4);
      r := NoSpace;
      if ok {
        ghost var next1, entries1 := next, |refcountTable|;
        r := WriteFreshCluster(pos, d, h);
        SpendsTwice(g.u, old(next), |old(refcountTable)|, next1, entries1, 2, next, |refcountTable|, 2);
      }
    }

    /** Write d to a guest cluster that is not allocated, into the new cluster at h. */
    method WriteFreshCluster(pos: nat, d: seq<byte>, h: nat) returns (r: WriteResult)
      requires Valid() && Rem(pos, Cs(g.u)) + |d| <= Cs(g.u) && pos + |d| <= g.size && |d| > 0
      requires Host(tables, L1Index(pos, g.u), L2Index(pos, g.u)) == None
      requires h in own && own[h] == Unlinked && h + Cs(g.u) <= |file|
      modifies Repr
      ensures g == old(g) && header == old(header)
      ensures Valid() && Base() == old(Base())
      ensures Spends(g.u, old(next), |old(refcountTable)|, next, |refcountTable|, 2)
      ensures r == Written ==> Contents() == Patched(old(Contents()), pos, d)
      ensures r != Written ==> Contents() == old(Contents())
      ensures r != PastEnd && (r == NoSpace ==> next > g.limit)
      ensures r == BackingUnreadable ==> |d| < Cs(g.u) && !BaseReadable(Base(), Start(pos, g.u), Cs(g.u))
      ensures r == Written && |d| < Cs(g.u) ==> BaseReadable(Base(), Start(pos, g.u), Cs(g.u))
      ensures next >= old(next) && SameElsewhere(old(tables), tables, g.u, pos)
    {
      if |d| < Cs(g.u) {
        var ready := PrepareCluster(pos, h);
        if !ready {
          SpendsNothing(g.u, next, |refcountTable|, 2);
          return BackingUnreadable;
        }
      }
      var ok := LinkAndWrite(pos, d, h, Base());
      r := if ok then Written else NoSpace;
    }

    /** Write d, which lies in one guest cluster. */
    method WriteChunk(pos: nat, d: seq<byte>) returns (r: WriteResult)
      requires Valid() && Rem(pos, Cs(g.u)) + |d| <= Cs(g.u) && pos + |d| <= g.size && |d| > 0
      modifies Repr
      ensures g == old(g) && header == old(header)
      ensures Valid() && Base() == old(Base())
      ensures Spends(g.u, old(next), |old(refcountTable)|, next, |refcountTable|, 4)
      ensures r == Written ==> Contents() == Patched(old(Contents()), pos, d)
      ensures r != Written ==> Contents() == old(Contents())
      ensures r != PastEnd && (r == NoSpace ==> next > g.limit)
      ensures r == BackingUnreadable ==>
        HostOf(old(tables), g.u, pos) == None && |d| < Cs(g.u) && !BaseReadable(Base(), Start(pos, g.u), Cs(g.u))
      ensures r == Written && HostOf(old(tables), g.u, pos) == None && |d| < Cs(g.u) ==>
        BaseReadable(Base(), Start(pos, g.u), Cs(g.u))
      ensures next >= old(next) && SameElsewhere(old(tables), tables, g.u, pos)
    {
      var t := Translate(pos);
      if t.At? {
        WriteInPlace(pos, d, t.host);
        SpendsNothing(g.u, next, |refcountTable|, 4);
        r := Written;
      } else {
        r := WriteNewCluster(pos, d);
      }
    }

    /** Write `data` at guest offset `offset`.  On success the disk changes exactly
        there.  On failure a prefix of `data`, of length `done`, has been written;
        the reason is that the range leaves the disk, that the host refuses to grow
        the file, or that a cluster is in the way: not allocated, covered only in
        part, and not readable in the base.  Apart from the first two, the write
        succeeds exactly when no cluster is in the way. */
    method WriteAt(offset: nat, data: seq<byte>) returns (r: WriteResult, ghost done: nat)
      requires Valid()
      modifies Repr
      ensures g == old(g) && header == old(header)
      ensures Valid() && Base() == old(Base()) && done <= |data| && next >= old(next)
      ensures r == PastEnd <==> offset + |data| > |old(Contents())|
      ensures r == PastEnd ==> done == 0 && Contents() == old(Contents())
      ensures r == Written ==> done == |data|
      ensures r != PastEnd ==> Contents() == Patched(old(Contents()), offset, data[..done])
      ensures next <= old(next) + Times(4 * Touched(g.u, offset, |data|), Cs(g.u))
      ensures |refcountTable| <= Max(|old(refcountTable)|, Quot(Quot(next, Cs(g.u)), PerBlock(g.u)) + 1)
      ensures r == NoSpace ==> old(next) + Times(4 * Touched(g.u, offset, |data|), Cs(g.u)) > g.limit
      ensures r == BackingUnreadable ==> done < |data| && Stuck(old(tables), g.u, Base(), offset + done, offset, |data|)
      ensures r == Written ==> Unobstructed(old(tables), g.u, Base(), offset, |data|)
    {
      if offset + |data| > g.size {
        return PastEnd, 0;
      }
      ghost var j := Job(g.u, g.limit, Base(), offset, data, Seen());
      ghost var steps;
      r, done, steps := WriteRange(offset, data, j);
      EndJob(j, Seen(), done, steps, r);
    }

    /** What a write can change. */
    ghost function Seen(): View
      requires Valid()
      reads this, Repr
    {
      View(Contents(), tables, next, |refcountTable|)
    }

    /** The loop over the clusters of a range that lies in the disk. */
    method WriteRange(offset: nat, data: seq<byte>, ghost j: Job)
      returns (r: WriteResult, ghost done: nat, ghost steps: nat)
      requires Valid() && offset + |data| <= g.size && j == Job(g.u, g.limit, Base(), offset, data, Seen())
      modifies Repr
      ensures Valid() && g == old(g) && header == old(header) && Base() == j.base
      ensures InProgress(j, Seen(), done, steps, r) && done <= |data| && (r == Written ==> done == |data|)
    {
      var n := 0;
      r, done, steps := Written, 0, 0;
      BeginJob(j);
      while r == Written && n < |data|
        invariant Valid() && g == old(g) && header == old(header) && Base() == j.base
        invariant n <= |data| && done == n && InProgress(j, Seen(), n, steps, r)
        decreases r == Written, |data| - n
      {
        var m := ChunkSize(g.u, offset + n, |data| - n);
        r, n := WriteStep(n, offset + n, data[n..n + m], j, steps);
        done, steps := n, steps + 1;
      }
    }

    /** One turn of the loop: write the chunk d at pos. */
    method WriteStep(n: nat, pos: nat, d: seq<byte>, ghost j: Job, ghost steps: nat) returns (r: WriteResult, n': nat)
      requires Valid() && j.u == g.u && j.limit == g.limit && j.base == Base() && pos == j.offset + n
      requires n < |j.data| && j.offset + |j.data| <= g.size && InProgress(j, Seen(), n, steps, Written)
      requires |d| == ChunkSize(g.u, pos, |j.data| - n) && d == j.data[n..n + |d|]
      modifies Repr
      ensures Valid() && g == old(g) && header == old(header) && Base() == j.base
      ensures n' == (if r == Written then n + |d| else n) && InProgress(j, Seen(), n', steps + 1, r)
    {
      ghost var v := Seen();
      r := WriteChunk(pos, d);
      n' := if r == Written then n + |d| else n;
      NextStep(j, v, Seen(), n, n', d, steps, r);
    }

    // ----- flushing

    /** Write every dirty L2 table back to disk. */
    method FlushTables()
      requires Sound(g, S())
      modifies this`file, this`cache
      ensures Sound(g, S()) && Transparent(g, old(S()), S()) && Clean(cache)
    {
      var dirty := set i | i in cache && cache[i].dirty;
      TransparentRefl(g, S());
      while dirty != {}
        invariant Sound(g, S()) && Transparent(g, old(S()), S()) && dirty <= cache.Keys
        invariant forall i :: i in cache && cache[i].dirty ==> i in dirty
        decreases |dirty|
      {
        var i :| i in dirty;
        dirty := dirty - {i};
        FlushOne(i, old(S()));
      }
    }

    method FlushOne(i: nat, ghost s0: State)
      requires Sound(g, S()) && Transparent(g, s0, S()) && i in cache
      modifies this`file, this`cache
      ensures Sound(g, S()) && Transparent(g, s0, S()) && cache == old(cache)[i := old(cache)[i].(dirty := false)]
    {
      Open(g, S());
      FlushL2Table(i);
      FlushInv(g, old(S()), S(), i);
      TransparentTrans(g, s0, old(S()), S());
      Close(g, S());
    }

    /** Write every dirty L2 table and the L1 table to disk. */
    method FlushL2AndL1()
      requires Sound(g, S())
      modifies this`file, this`cache
      ensures Sound(g, S()) && Clean(cache) && L1OnDisk(g, S()) && |file| == |old(file)|
      ensures forall base :: DiskOf(g, S(), base) == DiskOf(g, old(S()), base)
    {
      FlushTables();
      WriteL1Table();
    }

    method WriteL1Table()
      requires Sound(g, S())
      modifies this`file
      ensures Sound(g, S()) && L1OnDisk(g, S()) && |file| == |old(file)|
      ensures forall base :: DiskOf(g, S(), base) == DiskOf(g, old(S()), base)
    {
      file := WriteFile(file, g.l1Offset, EncodeTable(l1));
      WriteL1(g, old(S()), S());
    }
  }
}
