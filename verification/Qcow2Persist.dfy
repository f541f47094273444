/** Flushing an image and opening it again. */
module Qcow2Persist {
  import opened Bytes
  import opened Qcow2Header
  import opened Qcow2Image
  import opened Qcow2State

  // ----- writing a table that spans clusters

  /** f' differs from f only in clusters that play role r. */
  ghost predicate OnlyRole(own: Owners, f: seq<byte>, f': seq<byte>, r: Role, u: Sectors) {
    |f'| == |f| && forall b :: b in own && own[b] != r && b + Cs(u) <= |f| ==> f'[b..b + Cs(u)] == f[b..b + Cs(u)]
  }

  lemma RegionWrite(own: Owners, u: Sectors, f: seq<byte>, f': seq<byte>, at: nat, d: seq<byte>, len: nat, r: Role)
    requires Aligned(own, u, |f|) && Region(own, at, len, r) && |d| <= len && at + len <= |f| && f' == Splice(f, at, d)
    ensures OnlyRole(own, f, f', r, u) && f'[at..at + |d|] == d
  {
    forall b | b in own && own[b] != r && b + Cs(u) <= |f| ensures f'[b..b + Cs(u)] == f[b..b + Cs(u)] {
      if b < at && len > 0 {
        Apart(b, at, Cs(u));
      }
    }
  }

  lemma TableOutside(own: Owners, f: seq<byte>, f': seq<byte>, r: Role, u: Sectors, i: nat, b: nat)
    requires OnlyRole(own, f, f', r, u) && !r.L2Table? && b in own && own[b] == L2Table(i) && b + Cs(u) <= |f|
    ensures DiskTable(f', b, u) == DiskTable(f, b, u)
  {
  }

  lemma CoherentOutside(l1: seq<nat>, t: Tables, own: Owners, cache: Cache, f: seq<byte>, f': seq<byte>, r: Role,
                        u: Sectors)
    requires Mapped(l1, t, own, u) && OnlyRole(own, f, f', r, u) && Coherent(t, l1, cache, f, u) && !r.L2Table?
    ensures Coherent(t, l1, cache, f', u)
  {
    forall i | i in t && !(i in cache && cache[i].dirty) ensures t[i] == DiskTable(f', l1[i] - COPIED, u) {
      TableOutside(own, f, f', r, u, i, l1[i] - COPIED);
    }
  }

  lemma HostByte(l1: seq<nat>, t: Tables, own: Owners, f: seq<byte>, f': seq<byte>, r: Role, u: Sectors, i: nat,
                 j: nat, k: nat)
    requires Mapped(l1, t, own, u) && OnlyRole(own, f, f', r, u) && !r.Data? && k < Cs(u)
    requires Host(t, i, j).Some? && 0 <= Host(t, i, j).value <= |f| - Cs(u)
    ensures f'[Host(t, i, j).value + k] == f[Host(t, i, j).value + k]
  {
    var b: nat := Host(t, i, j).value;
    assert f'[b..b + Cs(u)][k] == f[b..b + Cs(u)][k];
  }

  lemma ByteOutside(l1: seq<nat>, t: Tables, own: Owners, f: seq<byte>, f': seq<byte>, r: Role, u: Sectors, base: Base,
                    p: nat, i: nat, j: nat, k: nat)
    requires Mapped(l1, t, own, u) && OnlyRole(own, f, f', r, u) && !r.Data? && k < Cs(u)
    requires forall b :: b in own ==> b + Cs(u) <= |f|
    ensures ByteIn(t, f', base, p, i, j, k) == ByteIn(t, f, base, p, i, j, k)
  {
    if Host(t, i, j).Some? {
      HostByte(l1, t, own, f, f', r, u, i, j, k);
    }
  }

  lemma DiskOutside(l1: seq<nat>, t: Tables, own: Owners, f: seq<byte>, f': seq<byte>, r: Role, u: Sectors,
                    base: Base, size: nat)
    requires Mapped(l1, t, own, u) && OnlyRole(own, f, f', r, u) && !r.Data?
    requires forall b :: b in own ==> b + Cs(u) <= |f|
    ensures Disk(t, f', u, base, size) == Disk(t, f, u, base, size)
  {
    forall p: nat | p < size ensures ByteAt(t, f', u, base, p) == ByteAt(t, f, u, base, p) {
      ByteOutside(l1, t, own, f, f', r, u, base, p, L1Index(p, u), L2Index(p, u), Rem(p, Cs(u)));
    }
  }

  lemma CountedOutside(rt: seq<nat>, own: Owners, f: seq<byte>, f': seq<byte>, r: Role, u: Sectors, n: nat)
    requires Blocks(rt, own) && Aligned(own, u, |f|) && OnlyRole(own, f, f', r, u) && !r.RefcountBlock?
    requires Counted(rt, f, u, n)
    ensures Counted(rt, f', u, n)
  {
    forall c: nat | c < n ensures Refcount(rt, f', u, c) == 1 {
      CountedAt(rt, f, u, n, c);
      CountOutside(rt, own, f, f', r, u, Quot(c, PerBlock(u)), Rem(c, PerBlock(u)));
    }
  }

  lemma CountOutside(rt: seq<nat>, own: Owners, f: seq<byte>, f': seq<byte>, r: Role, u: Sectors, k: nat, x: nat)
    requires Blocks(rt, own) && Aligned(own, u, |f|) && OnlyRole(own, f, f', r, u) && !r.RefcountBlock?
    requires x < PerBlock(u)
    ensures CountIn(rt, f', k, x) == CountIn(rt, f, k, x)
  {
    if k < |rt| && rt[k] != 0 {
      var b := rt[k];
      SubSlice(f', b, Cs(u), 2 * x, 2);
      SubSlice(f, b, Cs(u), 2 * x, 2);
    }
  }

  lemma HeadOutside(own: Owners, f: seq<byte>, f': seq<byte>, r: Role, u: Sectors, n: nat)
    requires 0 in own && own[0] == HeaderCluster && OnlyRole(own, f, f', r, u) && r != HeaderCluster
    requires n <= Cs(u) <= |f|
    ensures f'[..n] == f[..n]
  {
    assert f'[..n] == f'[0..0 + Cs(u)][..n];
    assert f[..n] == f[0..0 + Cs(u)][..n];
  }

  /** Writing the L1 table or the refcount table keeps everything else. */
  lemma TableWriteInv(g: Geometry, s: State, s': State, at: nat, d: seq<byte>, len: nat, r: Role)
    requires Inv(g, s) && (r == L1Table || r == RefcountTable) && Region(s.own, at, len, r)
    requires |d| <= len && at + len <= |s.file| && s' == s.(file := Splice(s.file, at, d))
    requires ZeroTail(s'.file, g.rcOffset, 8 * |s.refcountTable|, g.rcBytes)
    ensures Inv(g, s') && s'.file[at..at + |d|] == d && OnlyRole(s.own, s.file, s'.file, r, g.u)
    ensures forall base :: DiskOf(g, s', base) == DiskOf(g, s, base)
  {
    RegionWrite(s.own, g.u, s.file, s'.file, at, d, len, r);
    CoherentOutside(s.l1, s.tables, s.own, s.cache, s.file, s'.file, r, g.u);
    HeadOutside(s.own, s.file, s'.file, r, g.u, |g.head|);
    if CountsKnown(g, s) {
      CountedOutside(s.refcountTable, s.own, s.file, s'.file, r, g.u, Quot(|s.file|, Cs(g.u)));
    }
    forall base ensures DiskOf(g, s', base) == DiskOf(g, s, base) {
      DiskOutside(s.l1, s.tables, s.own, s.file, s'.file, r, g.u, base, g.size);
    }
  }

  // ----- flushing

  ghost predicate Clean(cache: Cache) {
    forall i :: i in cache ==> !cache[i].dirty
  }

  ghost predicate L1OnDisk(g: Geometry, s: State) {
    g.l1Offset + 8 * |s.l1| <= |s.file| && s.file[g.l1Offset..g.l1Offset + 8 * |s.l1|] == EncodeTable(s.l1)
  }

  ghost predicate RefcountTableOnDisk(g: Geometry, s: State) {
    && g.rcOffset + 8 * |s.refcountTable| <= |s.file|
    && s.file[g.rcOffset..g.rcOffset + 8 * |s.refcountTable|] == EncodeTable(s.refcountTable)
  }

  /** The refcount table still fits the clusters that the header reserves for it. */
  predicate TableFitsHeader(g: Geometry, s: State) {
    8 * |s.refcountTable| <= g.rcBytes
  }

  /** Everything that opening the image reads is on disk. */
  ghost predicate Persistent(g: Geometry, s: State) {
    Clean(s.cache) && L1OnDisk(g, s) && RefcountTableOnDisk(g, s)
  }

  lemma WriteL1(g: Geometry, s: State, s': State)
    requires Sound(g, s) && s' == s.(file := WriteFile(s.file, g.l1Offset, EncodeTable(s.l1)))
    ensures Sound(g, s') && L1OnDisk(g, s') && |s'.file| == |s.file|
    ensures forall base :: DiskOf(g, s', base) == DiskOf(g, s, base)
  {
    Open(g, s);
    if |s.l1| > 0 && g.rcBytes > 0 {
      TablesApart(g, s);
    }
    TableWriteInv(g, s, s', g.l1Offset, EncodeTable(s.l1), 8 * |s.l1|, L1Table);
    Close(g, s');
  }

  lemma WriteRefcounts(g: Geometry, s: State, s': State)
    requires Sound(g, s) && TableFitsHeader(g, s) && L1OnDisk(g, s)
    requires s' == s.(file := WriteFile(s.file, g.rcOffset, EncodeTable(s.refcountTable)))
    ensures Sound(g, s') && L1OnDisk(g, s') && RefcountTableOnDisk(g, s') && |s'.file| == |s.file|
    ensures forall base :: DiskOf(g, s', base) == DiskOf(g, s, base)
  {
    Open(g, s);
    TableWriteInv(g, s, s', g.rcOffset, EncodeTable(s.refcountTable), g.rcBytes, RefcountTable);
    L1Kept(g, s, s', EncodeTable(s.refcountTable));
    Close(g, s');
  }

  lemma L1Kept(g: Geometry, s: State, s': State, d: seq<byte>)
    requires Core(g, s) && L1OnDisk(g, s) && |d| <= g.rcBytes && g.rcOffset + g.rcBytes <= |s.file|
    requires s' == s.(file := Splice(s.file, g.rcOffset, d))
    ensures L1OnDisk(g, s')
  {
    if |s.l1| > 0 && g.rcBytes > 0 {
      TablesApart(g, s);
    }
  }

  lemma TablesApart(g: Geometry, s: State)
    requires Core(g, s) && |s.l1| > 0 && g.rcBytes > 0
    ensures g.l1Offset + 8 * |s.l1| <= g.rcOffset || g.rcOffset + g.rcBytes <= g.l1Offset
  {
  }

  // ----- opening

  /** A cluster size of 2 to the power of `bits`, in sectors. */
  function SectorsFor(bits: nat): (u: Sectors)
    requires bits >= 9
    ensures Cs(u) == Pow2(bits)
  {
    Pow2Split(bits);
    Pow2(bits - 9)
  }

  /** The cluster size that a header gives. */
  function SectorsOf(h: Header): Sectors
    requires h.clusterBits >= 9
  {
    SectorsFor(h.clusterBits)
  }

  lemma {:induction false} Pow2Split(n: nat)
    requires n >= 9
    ensures Pow2(n) == 512 * Pow2(n - 9)
  {
    if n == 9 {
      assert Pow2(3) == 8;
      assert Pow2(6) == 64;
    } else {
      Pow2Split(n - 1);
    }
  }

  /** The geometry of an image with header h, followed in its cluster by the path
      of the backing file. */
  function GeometryOf(h: Header, path: seq<byte>, limit: nat, counts: Counts): Geometry
    requires h.clusterBits >= 9
  {
    Geometry(WriteHeader(h) + path, h.size, h.l1TableOffset, h.l1Size, h.refcountTableOffset,
             h.refcountTableClusters * Cs(SectorsOf(h)), SectorsOf(h), limit, counts)
  }

  /** The geometry is what the header says. */
  ghost predicate Headed(g: Geometry, h: Header, path: seq<byte>) {
    forall k {:trigger Note(k)} :: Note(k) ==> h.clusterBits >= 9 && g == GeometryOf(h, path, g.limit, g.counts)
  }

  /** `read_table` */
  function ReadEntries(f: seq<byte>, at: nat, n: nat): Option<seq<nat>> {
    if n == 0 then Some([])
    else if at + 8 * n <= |f| then Some(DecodeTable(f[at..at + 8 * n])) else None
  }

  function AlignUp(v: nat, a: nat): nat
    requires a > 0
  {
    a * Quot(v + a - 1, a)
  }

  datatype Opened = Opened(header: Header, l1: seq<nat>, refcountTable: seq<nat>, next: nat, path: seq<byte>)

  /** `open` on a file with contents f: the header, the two tables, the cursor and
      the path of the backing file. */
  function OpenImage(f: seq<byte>): Option<Opened> {
    match ReadHeader(f)
    case None => None
    case Some(h) => if h.clusterBits < 9 then None else OpenWith(f, h, SectorsOf(h))
  }

  function OpenWith(f: seq<byte>, h: Header, u: Sectors): Option<Opened> {
    match (ReadEntries(f, h.l1TableOffset, h.l1Size),
           ReadEntries(f, h.refcountTableOffset, h.refcountTableClusters * Cs(u) / 8))
    case (Some(l1), Some(rt)) =>
      if h.backingFileOffset != 0 && h.backingFileSize > 0 then
        if h.backingFileOffset + h.backingFileSize > |f| then None
        else Some(Opened(h, l1, rt, AlignUp(|f|, Cs(u)),
          f[h.backingFileOffset..h.backingFileOffset + h.backingFileSize]))
      else Some(Opened(h, l1, rt, AlignUp(|f|, Cs(u)), []))
    case _ => None
  }

  /** The state of an image just opened, with an empty cache. */
  ghost function OpenState(f: seq<byte>, o: Opened, t: Tables, own: Owners): State {
    State(f, o.l1, o.refcountTable, map[], 0, o.next, t, own, map[])
  }

  /** The header of an image made by `create`, with or without a backing file. */
  ghost predicate Created(h: Header, path: seq<byte>) {
    && InRange(h) && Supported(h) && h.version == 3 && Representable(h) && h.clusterBits >= 9
    && h.backingFileSize == |path| && h.backingFileOffset == (if |path| > 0 then 104 else 0)
  }

  lemma EntriesOnDisk(f: seq<byte>, at: nat, t: seq<nat>)
    requires at + 8 * |t| <= |f| && f[at..at + 8 * |t|] == EncodeTable(t)
    requires forall i :: 0 <= i < |t| ==> t[i] < 0x1_0000_0000_0000_0000
    ensures ReadEntries(f, at, |t|) == Some(t)
  {
    TableRoundTrip(t);
  }

  /** A table followed by zeros is read back with zero entries. */
  lemma WholeOnDisk(f: seq<byte>, at: nat, t: seq<nat>, w: seq<nat>)
    requires at + 8 * |w| <= |f| && at + 8 * |t| <= |f| && f[at..at + 8 * |t|] == EncodeTable(t)
    requires ZeroTail(f, at, 8 * |t|, 8 * |w|)
    requires forall i :: 0 <= i < |t| ==> t[i] < 0x1_0000_0000_0000_0000
    requires forall i :: 0 <= i < |w| ==> w[i] == if i < |t| then t[i] else 0
    ensures ReadEntries(f, at, |w|) == Some(w)
  {
    var b := f[at..at + 8 * |w|];
    forall i | 0 <= i < |w| ensures FromBE(b[8 * i..8 * i + 8]) == w[i] {
      SubSlice(f, at, 8 * |w|, 8 * i, 8);
      if i < |t| {
        SubSlice(f, at, 8 * |t|, 8 * i, 8);
        EntryRoundTrip(t, i);
      } else {
        ZeroNumber(f[at + 8 * i..at + 8 * i + 8]);
      }
    }
    assert |w| > 0 ==> DecodeTable(b) == w;
  }

  lemma TablesFit(g: Geometry, s: State)
    requires Core(g, s)
    ensures forall i :: 0 <= i < |s.l1| ==> s.l1[i] < 0x1_0000_0000_0000_0000
    ensures forall k :: 0 <= k < |s.refcountTable| ==> s.refcountTable[k] < 0x1_0000_0000_0000_0000
  {
    forall i | 0 <= i < |s.l1| ensures s.l1[i] < 0x1_0000_0000_0000_0000 {
      assert i in s.tables ==> s.l1[i] - COPIED in s.own;
    }
  }

  lemma {:induction false} AlignedUp(v: nat, a: nat)
    requires a > 0 && Multiple(v, a)
    ensures AlignUp(v, a) == v
  {
    MultipleRem(v, a);
    DivMod(v, a);
    QuotRem(v + a - 1, a, Quot(v, a), a - 1);
  }

  /** The refcount table as it is read: with zero entries up to the end of the
      clusters that the header reserves for it, and no further. */
  function Whole(g: Geometry, rt: seq<nat>): (t: seq<nat>)
    ensures |t| == g.rcBytes / 8 && forall i :: 0 <= i < |t| ==> t[i] == if i < |rt| then rt[i] else 0
  {
    seq(g.rcBytes / 8, i requires i >= 0 => if i < |rt| then rt[i] else 0)
  }

  /** The state that `open` sets up: what it read, an empty cache, and the cursor at
      the end of the file. */
  function Reopened(g: Geometry, s: State): State {
    State(s.file, s.l1, Whole(g, s.refcountTable), map[], 0, |s.file|, s.tables, s.own, map[])
  }

  /** What is known of an image that is opened again: if growing its file had failed,
      the last cluster may lack its refcount, and entries of a table that did not
      fit its place are gone. */
  function Recounted(g: Geometry, s: State): Geometry {
    g.(counts := CountsKept(g.counts, TableFitsHeader(g, s), |s.file| < s.next))
  }

  function CountsKept(c: Counts, fits: bool, short: bool): Counts {
    if !fits then Lost else if c == Complete && short then Unsure else c
  }

  lemma ReopenedInv(g: Geometry, s: State)
    requires Inv(g, s) && Clean(s.cache) && 8 * |Whole(g, s.refcountTable)| == g.rcBytes
    ensures Inv(Recounted(g, s), Reopened(g, s)) && forall base :: DiskOf(g, Reopened(g, s), base) == DiskOf(g, s, base)
  {
    CoherentReopened(s.tables, s.l1, s.cache, s.file, g.u);
    FixedReopened(g, s);
    BlocksReopened(g, s);
    RefsReopened(g, s);
  }

  lemma RefsReopened(g: Geometry, s: State)
    requires Refs(g, s) && Space(g, s) && Multiple(|s.file|, Cs(g.u)) && 8 * |Whole(g, s.refcountTable)| == g.rcBytes
    ensures Refs(Recounted(g, s), Reopened(g, s))
  {
    WholeBegun(g, s.refcountTable, Quot(|s.file|, Cs(g.u)));
    WholeCounted(g, s.refcountTable, s.file, Quot(|s.file|, Cs(g.u)));
  }

  lemma WholeBegun(g: Geometry, rt: seq<nat>, n: nat)
    requires Begun(rt, g.u, n)
    ensures Begun(Whole(g, rt), g.u, n)
  {
    forall k: nat | HasBlock(Whole(g, rt), k) ensures k < Ranges(n, g.u) {
      assert HasBlock(rt, k);
    }
  }

  lemma WholeCounted(g: Geometry, rt: seq<nat>, f: seq<byte>, n: nat)
    requires 8 * |Whole(g, rt)| == g.rcBytes
    ensures Counted(rt, f, g.u, n) && 8 * |rt| <= g.rcBytes ==> Counted(Whole(g, rt), f, g.u, n)
  {
    if Counted(rt, f, g.u, n) && 8 * |rt| <= g.rcBytes {
      forall c: nat | c < n ensures Refcount(Whole(g, rt), f, g.u, c) == 1 {
        CountedAt(rt, f, g.u, n, c);
      }
    }
  }

  lemma BlocksReopened(g: Geometry, s: State)
    requires Blocks(s.refcountTable, s.own)
    ensures Blocks(Whole(g, s.refcountTable), s.own)
  {
  }

  lemma CoherentReopened(t: Tables, l1: seq<nat>, cache: Cache, f: seq<byte>, u: Sectors)
    requires Coherent(t, l1, cache, f, u) && Clean(cache)
    ensures Coherent(t, l1, map[], f, u)
  {
  }

  lemma FixedReopened(g: Geometry, s: State)
    requires Fixed(g, s) && Space(g, s) && 8 * |Whole(g, s.refcountTable)| == g.rcBytes
    ensures Fixed(Recounted(g, s), Reopened(g, s)) && Space(Recounted(g, s), Reopened(g, s))
  {
  }

  lemma HeaderOnDisk(f: seq<byte>, h: Header, path: seq<byte>)
    requires Created(h, path) && |f| >= 104 + |path| && f[..104 + |path|] == WriteHeader(h) + path
    ensures ReadHeader(f) == Some(h) && f[104..104 + |path|] == path
  {
    assert f == WriteHeader(h) + f[104..] by {
      assert f[..104] == f[..104 + |path|][..104] == WriteHeader(h);
    }
    HeaderRoundTrip(h, f[104..]);
    assert f[104..104 + |path|] == f[..104 + |path|][104..];
  }

  lemma HeadedIs(g: Geometry, h: Header, path: seq<byte>)
    requires Headed(g, h, path)
    ensures h.clusterBits >= 9 && g == GeometryOf(h, path, g.limit, g.counts)
  {
    assert Note(Key);
  }

  /** Opening a flushed image reads back its header, L1 table, refcount table as far as
      it fits its place, and backing path, sets the cursor to the end of the file,
      and sets up a state that satisfies the invariant and shows the same disk. */
  lemma FlushThenOpen(g: Geometry, s: State, h: Header, path: seq<byte>)
    requires Sound(g, s) && Persistent(g, s) && Created(h, path) && Headed(g, h, path)
    ensures OpenImage(s.file) == Some(Opened(h, s.l1, Whole(g, s.refcountTable), |s.file|, path))
    ensures |s.file| <= s.next && (s.next <= g.limit ==> |s.file| == s.next)
    ensures Sound(Recounted(g, s), Reopened(g, s))
    ensures forall base :: DiskOf(g, Reopened(g, s), base) == DiskOf(g, s, base)
  {
    Open(g, s);
    HeadedIs(g, h, path);
    WholeLength(g, s.refcountTable, h.refcountTableClusters);
    ReopenedInv(g, s);
    Close(Recounted(g, s), Reopened(g, s));
    OpenFlushedFile(g, s, h, path);
  }

  lemma OpenFlushedFile(g: Geometry, s: State, h: Header, path: seq<byte>)
    requires Core(g, s) && Persistent(g, s) && Created(h, path) && g == GeometryOf(h, path, g.limit, g.counts)
    ensures OpenImage(s.file) == Some(Opened(h, s.l1, Whole(g, s.refcountTable), |s.file|, path))
  {
    TablesFit(g, s);
    HeaderOnDisk(s.file, h, path);
    WholeLength(g, s.refcountTable, h.refcountTableClusters);
    OpenReads(g, s, h, path);
  }

  lemma WholeLength(g: Geometry, rt: seq<nat>, n: nat)
    requires g.rcBytes == n * Cs(g.u)
    ensures 8 * |Whole(g, rt)| == g.rcBytes
  {
    assert n * Cs(g.u) == 8 * (n * PerTable(g.u));
  }

  lemma OpensWith(f: seq<byte>, h: Header, u: Sectors, l1: seq<nat>, rt: seq<nat>, path: seq<byte>)
    requires ReadEntries(f, h.l1TableOffset, h.l1Size) == Some(l1)
    requires ReadEntries(f, h.refcountTableOffset, h.refcountTableClusters * Cs(u) / 8) == Some(rt)
    requires h.backingFileSize == |path| && h.backingFileOffset == (if |path| > 0 then 104 else 0)
    requires |f| >= 104 + |path| && f[104..104 + |path|] == path
    ensures OpenWith(f, h, u) == Some(Opened(h, l1, rt, AlignUp(|f|, Cs(u)), path))
  {
  }

  lemma Eighth(a: nat, n: nat)
    requires a == 8 * n
    ensures a / 8 == n
  {
  }

  lemma OpenReads(g: Geometry, s: State, h: Header, path: seq<byte>)
    requires Persistent(g, s) && |s.l1| == g.l1Size == h.l1Size && Multiple(|s.file|, Cs(g.u))
    requires g.l1Offset == h.l1TableOffset && g.rcOffset == h.refcountTableOffset
    requires h.refcountTableClusters * Cs(g.u) == g.rcBytes == 8 * |Whole(g, s.refcountTable)|
    requires g.rcOffset + g.rcBytes <= |s.file| && ZeroTail(s.file, g.rcOffset, 8 * |s.refcountTable|, g.rcBytes)
    requires h.backingFileSize == |path| && h.backingFileOffset == (if |path| > 0 then 104 else 0)
    requires |s.file| >= 104 + |path| && s.file[104..104 + |path|] == path
    requires forall i :: 0 <= i < |s.l1| ==> s.l1[i] < 0x1_0000_0000_0000_0000
    requires forall k :: 0 <= k < |s.refcountTable| ==> s.refcountTable[k] < 0x1_0000_0000_0000_0000
    ensures OpenWith(s.file, h, g.u) == Some(Opened(h, s.l1, Whole(g, s.refcountTable), |s.file|, path))
  {
    EntriesOnDisk(s.file, g.l1Offset, s.l1);
    WholeOnDisk(s.file, g.rcOffset, s.refcountTable, Whole(g, s.refcountTable));
    Eighth(h.refcountTableClusters * Cs(g.u), |Whole(g, s.refcountTable)|);
    AlignedUp(|s.file|, Cs(g.u));
    OpensWith(s.file, h, g.u, s.l1, Whole(g, s.refcountTable), path);
  }
}
