/** The life of an image: created, opened, read and written, flushed and opened again. */
module Qcow2Life {
  import opened Bytes
  import opened Qcow2Header
  import opened Qcow2Image
  import opened Qcow2State
  import opened Qcow2Persist
  import opened Qcow2Create
  import opened Qcow2File
  import opened Qcow2Flush
  import opened Qcow2Correct
  import opened Qcow2Writes
  import opened Qcow2Move
  import opened Qcow2Relocate

  /** The result of `create`: an error, a file that is not a well-formed image, or an
      image. */
  datatype Creation = Refused | Malformed(file: seq<byte>) | Made(image: Qcow2File)

  predicate CreateRefused(size: nat, bits: nat, path: seq<byte>, limit: nat) {
    !(9 <= bits <= 21) || 104 + |path| > Pow2(bits) || PlanFor(size, SectorsFor(bits)).End() > limit
  }

  /** The plan gives a well-formed image (see `InitialL1` and `NewCovers`). */
  predicate WellPlanned(size: nat, u: Sectors) { BlocksSuffice(PlanFor(size, u)) && Needed(size, u) < 0x1_0000_0000 }

  /** `create`, including the final `open`: a disk of the given size that shows what
      the backing file holds, or zeros.  `below` is the backing file that `path`
      names. */
  method CreateImage(size: nat, bits: nat, path: seq<byte>, below: Backing, limit: nat) returns (q: Creation)
    requires size < 0x1_0000_0000_0000_0000 && limit <= REACH
    requires below.Layer? ==> below.image.Valid()
    ensures q.Refused? <==> CreateRefused(size, bits, path, limit)
    ensures q.Made? <==> !CreateRefused(size, bits, path, limit) && WellPlanned(size, SectorsFor(bits))
    ensures q.Made? ==> fresh(q.image) && q.image.Valid() && q.image.backing == below
    ensures q.Made? ==> q.image.Repr == {q.image} + Footprint(below) && |q.image.Contents()| == size
    ensures q.Made? ==> forall x: nat :: x < size ==> q.image.Contents()[x] == BaseByte(q.image.Base(), x)
    ensures q.Made? && below.NoBacking? ==> forall x: nat :: x < size ==> q.image.Contents()[x] == Some(0)
    ensures q.Made? && below.Raw? ==>
      forall x: nat :: x < size ==> q.image.Contents()[x] == if x < |below.bytes| then Some(below.bytes[x]) else Some(0)
    ensures q.Made? && below.Layer? ==> forall x: nat :: x < size ==>
      q.image.Contents()[x] == if x < |below.image.Contents()| then below.image.Contents()[x] else None
    ensures q.Made? ==> q.image.header == HeaderFor(PlanFor(size, SectorsFor(bits)), size, bits, path)
    ensures q.Made? ==> q.image.path == path && Created(q.image.header, path) && q.image.g.u == SectorsFor(bits)
    ensures q.Made? ==> q.image.g.limit == limit && q.image.g.counts == Complete && q.image.tables == map[]
    ensures q.Made? ==> q.image.next == PlanFor(size, SectorsFor(bits)).End() <= limit
    ensures q.Made? ==> 8 * |q.image.refcountTable| == q.image.g.rcBytes == TableRoom(PlanFor(size, SectorsFor(bits)))
  {
    var f := Create(size, bits, path, limit);
    if f == None {
      return Refused;
    }
    if !WellPlanned(size, SectorsFor(bits)) {
      return Malformed(f.value);
    }
    CreateThenOpen(size, bits, path, limit, f.value);
    ghost var p := PlanFor(size, SectorsFor(bits));
    var parts := OpenImage(f.value);
    var image := new Qcow2File.Attach(f.value, parts.value, limit, Complete, below, map[], InitialOwners(p, p.Total()));
    ghost var base := image.Base();
    forall x: nat | x < size ensures image.Contents()[x] == BaseByte(base, x) {
      NewDisk(image.g, p, f.value, base, x);
    }
    BaseShown(base, image.Contents());
    NewRoom(p);
    return Made(image);
  }

  /** What a disk shows on which nothing is allocated. */
  lemma BaseShown(base: Base, disk: GuestDisk)
    requires forall x: nat :: x < |disk| ==> disk[x] == BaseByte(base, x)
    ensures base.NoBase? ==> forall x: nat :: x < |disk| ==> disk[x] == Some(0)
    ensures base.RawBase? ==>
      forall x: nat :: x < |disk| ==> disk[x] == if x < |base.bytes| then Some(base.bytes[x]) else Some(0)
    ensures base.LayerBase? ==>
      forall x: nat :: x < |disk| ==> disk[x] == if x < |base.disk| then base.disk[x] else None
  {
  }

  /** The space for the refcount table of a new image. */
  function TableRoom(p: Plan): nat { Times(p.rcClusters, Cs(p.u)) }

  lemma NewRoom(p: Plan)
    ensures 8 * |InitialTable(p)| == TableRoom(p) == p.rcClusters * Cs(p.u)
  {
    TimesScale(p.rcClusters, p.u);
    TimesIs(p.rcClusters, Cs(p.u));
  }

  /** `open` on the file of an image that has been flushed. */
  method OpenFlushed(q: Qcow2File) returns (r: Qcow2File)
    requires q.Valid() && Persistent(q.g, q.S()) && Created(q.header, q.path)
    ensures fresh(r) && r.Valid() && q.Valid() && r.Repr == {r} + Footprint(q.backing) && r.g == Recounted(q.g, q.S())
    ensures r.backing == q.backing && r.Base() == q.Base() && r.Contents() == q.Contents()
    ensures r.S() == Reopened(q.g, q.S()) && r.header == q.header && r.path == q.path
  {
    FlushThenOpen(q.g, q.S(), q.header, q.path);
    HeadedIs(q.g, q.header, q.path);
    var parts := OpenImage(q.file);
    var counts := CountsKept(q.g.counts, 8 * |q.refcountTable| <= q.g.rcBytes, |q.file| < q.next);
    r := new Qcow2File.Attach(q.file, parts.value, q.g.limit, counts, q.backing, q.tables, q.own);
    assert r.Base() == q.Base();
  }

  /** Flushing an image and opening its file again gives the same disk and the same
      tables; the cursor is at the end of the file, which is where it was unless
      growing the file had failed or the refcount table has moved.  An image that
      cannot be flushed is kept. */
  method Reopen(q: Qcow2File) returns (r: Option<Qcow2File>)
    requires q.Valid() && Created(q.header, q.path)
    modifies q
    ensures q.Valid() && Created(q.header, q.path) && q.Base() == old(q.Base())
    ensures Flushed(q.g.u, q.g.limit, old(SnapOf(q)), SnapOf(q)) && Moved(old(q.g), old(q.header), q.g, q.header)
    ensures r.Some? <==> Settles(q.g.u, q.g.limit, old(SnapOf(q)))
    ensures r.Some? ==> fresh(r.value) && r.value.Valid() && r.value.header == q.header && r.value.path == q.path
    ensures r.Some? ==> r.value.backing == q.backing && r.value.Repr == {r.value} + Footprint(q.backing)
    ensures r.Some? ==> r.value.Base() == q.Base() && r.value.g == Recounted(q.g, q.S()) && r.value.l1 == old(q.l1)
    ensures r.Some? ==> SnapOf(r.value) == SnapOf(q).(next := |q.file|, table := Whole(q.g, q.refcountTable))
  {
    var ok := Flush(q);
    MovedCreated(old(q.g), old(q.header), q.g, q.header, q.path);
    if !ok {
      return None;
    }
    var image := OpenFlushed(q);
    return Some(image);
  }

  /** Unless growing the file has failed, the cursor is at its end. */
  lemma CursorAtEnd(g: Geometry, s: State)
    requires Sound(g, s)
    ensures |s.file| <= s.next && |s.file| <= g.limit && (s.next <= g.limit ==> |s.file| == s.next)
  {
    Open(g, s);
  }

  // ----- whole runs

  datatype Request = Read(offset: nat, len: nat) | Write(offset: nat, data: seq<byte>) | Sync | Restart

  /** `data` is what a read returned, `result` how a write ended. */
  datatype Reply = Reply(ok: bool, data: seq<byte>, result: WriteResult)

  type GuestDisk = seq<Option<byte>>

  /** What a guest sees of an image, where its clusters live, the cursor, the refcount
      table, and the space that the header reserves for it. */
  datatype Snap = Snap(disk: GuestDisk, tables: Tables, next: nat, table: seq<nat>, room: nat)

  ghost function SnapOf(q: Qcow2File): Snap
    requires q.Valid()
    reads q, q.Repr
  {
    Snap(q.Contents(), q.tables, q.next, q.refcountTable, q.g.rcBytes)
  }

  /** The refcount table moves when it is written. */
  predicate Moves(u: Sectors, s: Snap) { 8 * |s.table| > s.room && Relocatable(u, s.next, s.table) }

  function EndAfterMove(u: Sectors, s: Snap): nat { s.next + Times(MoveCost(u, s.next, s.table), Cs(u)) }

  /** The refcount table has its place on disk, or finds one. */
  predicate Settles(u: Sectors, limit: nat, s: Snap) {
    8 * |s.table| <= s.room || (Moves(u, s) && EndAfterMove(u, s) <= limit)
  }

  /** What a flush does: nothing, unless the refcount table has to move. */
  ghost predicate Flushed(u: Sectors, limit: nat, s: Snap, s': Snap) {
    if !Moves(u, s) then s' == s else
    && s'.disk == s.disk && s'.tables == s.tables && s.next <= s'.next <= EndAfterMove(u, s)
    && |s'.table| <= Max(|s.table|, Reaching(u, s.next, TableClusters(u, s.table)))
    && (if Settles(u, limit, s) then s'.next == EndAfterMove(u, s) && s'.room == Times(TableClusters(u, s.table), Cs(u))
        else s'.next > limit && s'.room == s.room)
  }

  /** What opening again does after the flush that led to s1. */
  ghost predicate OpenedAgain(limit: nat, s1: Snap, s': Snap) {
    && s' == s1.(next := s'.next, table := s'.table) && |s'.table| == s1.room / 8
    && s'.next <= limit && s'.next <= s1.next && (s1.next <= limit ==> s'.next == s1.next)
  }

  /** How an image with clusters of u sectors on a host with this limit answers a
      request.  Of a write, `done` bytes have taken effect.  A write within the
      disk fails only for lack of room, which four clusters for each that it
      touches exclude, or when a cluster is in its way, and then it must. */
  ghost predicate Answers(u: Sectors, limit: nat, base: Base, s: Snap, req: Request, reply: Reply, done: nat,
                          s': Snap) {
    match req
    case Read(offset, len) =>
      && s' == s && (reply.ok <==> Readable(s.disk, offset, len))
      && (reply.ok ==> |reply.data| == len && Holds(s.disk, offset, reply.data))
    case Write(offset, data) =>
      && done <= |data| && (reply.ok <==> reply.result == WriteResult.Written)
      && (reply.result == PastEnd <==> offset + |data| > |s.disk|)
      && s'.disk == (if offset + |data| > |s.disk| then s.disk else Patched(s.disk, offset, data[..done]))
      && s.next <= s'.next <= WriteEnd(u, s.next, offset, |data|) && s'.room == s.room
      && |s'.table| <= Max(|s.table|, RangesTo(u, s'.next))
      && (reply.result == NoSpace ==> WriteEnd(u, s.next, offset, |data|) > limit)
      && (reply.result == BackingUnreadable ==>
            done < |data| && Stuck(s.tables, u, base, offset + done, offset, |data|))
      && (reply.result == WriteResult.Written ==> done == |data| && Unobstructed(s.tables, u, base, offset, |data|))
    case Sync =>
      Flushed(u, limit, s, s') && (reply.ok <==> Settles(u, limit, s))
    case Restart =>
      && (reply.ok <==> Settles(u, limit, s))
      && (if reply.ok then exists s1 :: Flushed(u, limit, s, s1) && OpenedAgain(limit, s1, s')
           else Flushed(u, limit, s, s'))
  }

  /** The cursor, at most, after a write to a range. */
  function WriteEnd(u: Sectors, next: nat, offset: nat, len: nat): nat {
    next + Times(4 * Touched(u, offset, len), Cs(u))
  }

  /** The number of ranges up to that of the cursor. */
  function RangesTo(u: Sectors, next: nat): nat { Quot(Quot(next, Cs(u)), PerBlock(u)) + 1 }

  method AnswerRead(q: Qcow2File, offset: nat, len: nat) returns (reply: Reply)
    requires q.Valid()
    modifies q.Repr
    ensures q.Valid() && q.g == old(q.g) && q.header == old(q.header) && q.Base() == old(q.Base())
    ensures Answers(q.g.u, q.g.limit, old(q.Base()), old(SnapOf(q)), Read(offset, len), reply, 0, SnapOf(q))
  {
    var ok, data := q.ReadAt(offset, len);
    reply := Reply(ok, data, WriteResult.Written);
  }

  method AnswerWrite(q: Qcow2File, offset: nat, data: seq<byte>) returns (reply: Reply, ghost done: nat)
    requires q.Valid()
    modifies q.Repr
    ensures q.Valid() && q.g == old(q.g) && q.header == old(q.header) && q.Base() == old(q.Base())
    ensures Answers(q.g.u, q.g.limit, old(q.Base()), old(SnapOf(q)), Write(offset, data), reply, done, SnapOf(q))
  {
    var w;
    w, done := q.WriteAt(offset, data);
    reply := Reply(w == WriteResult.Written, [], w);
  }

  /** The image r continues one with geometry g. */
  ghost predicate Continues(g: Geometry, r: Qcow2File)
    reads r, r.Repr
  {
    r.Valid() && Created(r.header, r.path) && r.g.u == g.u && r.g.limit == g.limit
  }

  method AnswerSync(q: Qcow2File) returns (reply: Reply)
    requires q.Valid() && Created(q.header, q.path)
    modifies q
    ensures Continues(old(q.g), q) && q.Base() == old(q.Base())
    ensures Answers(q.g.u, q.g.limit, old(q.Base()), old(SnapOf(q)), Sync, reply, 0, SnapOf(q))
  {
    var ok := Flush(q);
    MovedCreated(old(q.g), old(q.header), q.g, q.header, q.path);
    reply := Reply(ok, [], WriteResult.Written);
  }

  lemma Restarted(u: Sectors, limit: nat, base: Base, s: Snap, s1: Snap, s': Snap)
    requires Settles(u, limit, s) && Flushed(u, limit, s, s1) && OpenedAgain(limit, s1, s')
    ensures Answers(u, limit, base, s, Restart, Reply(true, [], WriteResult.Written), 0, s')
  {
  }

  method AnswerRestart(q: Qcow2File) returns (r: Qcow2File, reply: Reply)
    requires q.Valid() && Created(q.header, q.path)
    modifies q.Repr
    ensures Continues(old(q.g), r) && fresh(r.Repr - q.Repr) && r.Base() == old(q.Base())
    ensures Answers(r.g.u, r.g.limit, old(q.Base()), old(SnapOf(q)), Restart, reply, 0, SnapOf(r))
  {
    r := q;
    var image := Reopen(q);
    reply := Reply(image.Some?, [], WriteResult.Written);
    if image.Some? {
      r := image.value;
      CursorAtEnd(q.g, q.S());
      Restarted(q.g.u, q.g.limit, old(q.Base()), old(SnapOf(q)), SnapOf(q), SnapOf(r));
    }
  }

  method Answer(q: Qcow2File, req: Request) returns (r: Qcow2File, reply: Reply, ghost done: nat)
    requires q.Valid() && Created(q.header, q.path)
    modifies q.Repr
    ensures Continues(old(q.g), r) && fresh(r.Repr - q.Repr) && r.Base() == old(q.Base())
    ensures Answers(r.g.u, r.g.limit, old(q.Base()), old(SnapOf(q)), req, reply, done, SnapOf(r))
  {
    done, r := 0, q;
    match req
    case Read(offset, len) =>
      reply := AnswerRead(q, offset, len);
    case Write(offset, data) =>
      reply, done := AnswerWrite(q, offset, data);
    case Sync =>
      reply := AnswerSync(q);
    case Restart =>
      r, reply := AnswerRestart(q);
  }

  ghost predicate Chained(u: Sectors, limit: nat, base: Base, snaps: seq<Snap>, reqs: seq<Request>,
                          replies: seq<Reply>, dones: seq<nat>) {
    && |replies| == |dones| == |reqs| && |snaps| == |reqs| + 1
    && forall k :: 0 <= k < |reqs| ==> Answers(u, limit, base, snaps[k], reqs[k], replies[k], dones[k], snaps[k + 1])
  }

  /** A run of any requests, restarts included. */
  method Serve(q: Qcow2File, reqs: seq<Request>)
    returns (r: Qcow2File, replies: seq<Reply>, ghost dones: seq<nat>, ghost snaps: seq<Snap>)
    requires q.Valid() && Created(q.header, q.path)
    modifies q.Repr
    ensures Continues(old(q.g), r) && fresh(r.Repr - q.Repr) && r.Base() == old(q.Base())
    ensures Chained(r.g.u, r.g.limit, old(q.Base()), snaps, reqs, replies, dones)
    ensures snaps[0] == old(SnapOf(q)) && snaps[|reqs|] == SnapOf(r)
  {
    r, replies, dones, snaps := q, [], [], [SnapOf(q)];
    ghost var g, base := q.g, q.Base();
    for n := 0 to |reqs|
      invariant Continues(g, r) && fresh(r.Repr - q.Repr)
      invariant r.Base() == base && Chained(g.u, g.limit, base, snaps, reqs[..n], replies, dones)
      invariant snaps[0] == old(SnapOf(q)) && snaps[n] == SnapOf(r)
    {
      var reply;
      ghost var done;
      r, reply, done := Answer(r, reqs[n]);
      ChainMore(g.u, g.limit, base, snaps, reqs, n, replies, dones, reply, done, SnapOf(r));
      replies, dones, snaps := replies + [reply], dones + [done], snaps + [SnapOf(r)];
    }
    assert reqs[..|reqs|] == reqs;
  }

  lemma ChainMore(u: Sectors, limit: nat, base: Base, snaps: seq<Snap>, reqs: seq<Request>, n: nat, replies: seq<Reply>,
                  dones: seq<nat>, reply: Reply, done: nat, s: Snap)
    requires n < |reqs| && Chained(u, limit, base, snaps, reqs[..n], replies, dones)
    requires Answers(u, limit, base, snaps[n], reqs[n], reply, done, s)
    ensures Chained(u, limit, base, snaps + [s], reqs[..n + 1], replies + [reply], dones + [done])
  {
    assert reqs[..n + 1] == reqs[..n] + [reqs[n]];
  }

  /** A run from `create`. */
  method Session(size: nat, bits: nat, path: seq<byte>, below: Backing, limit: nat, reqs: seq<Request>)
    returns (c: Creation, replies: seq<Reply>, ghost dones: seq<nat>, ghost snaps: seq<Snap>, ghost base: Base)
    requires size < 0x1_0000_0000_0000_0000 && limit <= REACH
    requires below.Layer? ==> below.image.Valid()
    modifies Footprint(below)
    ensures c.Refused? <==> CreateRefused(size, bits, path, limit)
    ensures c.Made? <==> !CreateRefused(size, bits, path, limit) && WellPlanned(size, SectorsFor(bits))
    ensures c.Made? ==> c.image.Valid() && c.image.Base() == base
    ensures c.Made? ==> Chained(SectorsFor(bits), limit, base, snaps, reqs, replies, dones)
    ensures c.Made? ==> snaps[|reqs|] == SnapOf(c.image) && snaps[0].tables == map[] && |snaps[0].disk| == size
    ensures c.Made? ==> snaps[0].next == PlanFor(size, SectorsFor(bits)).End()
    ensures c.Made? ==> 8 * |snaps[0].table| == snaps[0].room == TableRoom(PlanFor(size, SectorsFor(bits)))
    ensures c.Made? ==> forall x: nat :: x < size ==> snaps[0].disk[x] == BaseByte(base, x)
    ensures c.Made? && below.NoBacking? ==> base == NoBase && forall x: nat :: x < size ==> snaps[0].disk[x] == Some(0)
    ensures c.Made? && below.Raw? ==> base == RawBase(below.bytes) && forall x: nat :: x < size ==>
      snaps[0].disk[x] == if x < |below.bytes| then Some(below.bytes[x]) else Some(0)
    ensures c.Made? && below.Layer? ==> forall x: nat :: x < size ==>
      snaps[0].disk[x] == if x < |old(below.image.Contents())| then old(below.image.Contents())[x] else None
  {
    replies, dones, snaps, base := [], [], [], NoBase;
    c := CreateImage(size, bits, path, below, limit);
    if c.Made? {
      base := c.image.Base();
      var image;
      image, replies, dones, snaps := Serve(c.image, reqs);
      c := Made(image);
    }
  }

  // ----- reading what was written

  /** A write that succeeds is read back. */
  method WriteThenRead(q: Qcow2File, offset: nat, data: seq<byte>) returns (r: WriteResult, ok: bool, buf: seq<byte>)
    requires q.Valid()
    modifies q.Repr
    ensures q.Valid() && (r == WriteResult.Written ==> ok && buf == data)
  {
    ghost var done;
    r, done := q.WriteAt(offset, data);
    ghost var disk := q.Contents();
    ok, buf := q.ReadAt(offset, |data|);
    if r == WriteResult.Written {
      assert data[..|data|] == data;
      assert forall x :: offset <= x < offset + |data| ==> disk[x] == Some(data[x - offset]);
      assert forall x :: 0 <= x < |buf| ==> disk[offset + x] == Some(buf[x]);
    }
  }

  /** What lies apart from a write reads as before, whether the write succeeds or not. */
  method ReadApart(q: Qcow2File, offset: nat, data: seq<byte>, pos: nat, n: nat)
    returns (before: bool, was: seq<byte>, after: bool, buf: seq<byte>)
    requires q.Valid() && (pos + n <= offset || offset + |data| <= pos)
    modifies q.Repr
    ensures q.Valid() && before == after && was == buf
  {
    before, was := q.ReadAt(pos, n);
    ghost var disk := q.Contents();
    ghost var done;
    var r;
    r, done := q.WriteAt(offset, data);
    ghost var disk' := q.Contents();
    after, buf := q.ReadAt(pos, n);
    ApartKept(disk, disk', pos, n, was, buf, before, after);
  }

  lemma ApartKept(disk: GuestDisk, disk': GuestDisk, pos: nat, n: nat, was: seq<byte>, buf: seq<byte>, before: bool,
                  after: bool)
    requires |disk'| == |disk| && forall x :: pos <= x < pos + n && x < |disk| ==> disk'[x] == disk[x]
    requires (before <==> Readable(disk, pos, n)) && (after <==> Readable(disk', pos, n))
    requires before ==> |was| == n && Holds(disk, pos, was)
    requires after ==> |buf| == n && Holds(disk', pos, buf)
    requires (!before ==> was == []) && (!after ==> buf == [])
    ensures before == after && was == buf
  {
    if before && after {
      forall x | 0 <= x < n ensures was[x] == buf[x] {
        assert Some(was[x]) == disk[pos + x] == Some(buf[x]);
      }
    }
  }

  lemma SmallClusters(bits: nat)
    requires bits == 9
    ensures SectorsFor(bits) == 1 && Pow2(bits) == 512
  {
    assert Pow2(3) == 8;
    assert Pow2(6) == 64;
  }

  lemma SmallNeeds(u: Sectors)
    requires u == 1
    ensures Needed(700, u) == 1
  {
    DivUpIs(700, 512, 2, 187);
    DivUpIs(2, 64, 1, 1);
  }

  lemma SmallPlan(u: Sectors)
    requires u == 1
    ensures PlanFor(700, u) == Plan(u, 1, 1, 1, 1)
  {
    SmallNeeds(u);
    DivUpIs(8, 512, 1, 7);
    DivUpIs(4, 256, 1, 3);
  }

  lemma SmallFits(p: Plan)
    requires p == Plan(1, 1, 1, 1, 1)
    ensures p.End() == 2048 && BlocksSuffice(p)
  {
    TimesIs(1, 512);
    TimesIs(4, 512);
  }

  method SmallOverlay(below: Qcow2File, path: seq<byte>, limit: nat, size: nat, bits: nat) returns (q: Qcow2File)
    requires size == 700 && bits == 9 && below.Valid() && |path| <= 400 && 2048 <= limit <= REACH
    ensures fresh(q) && q.Valid() && q.backing == Layer(below) && q.Repr == {q} + below.Repr
    ensures q.tables == map[] && q.g.u == 1 && |q.Contents()| == 700 && q.next == 2048 && q.g.limit == limit
  {
    SmallClusters(bits);
    SmallNeeds(SectorsFor(bits));
    SmallPlan(SectorsFor(bits));
    SmallFits(PlanFor(size, SectorsFor(bits)));
    var c := CreateImage(size, bits, path, Layer(below), limit);
    q := c.image;
  }

  lemma OneTouched(u: Sectors)
    requires u == 1
    ensures Times(4 * Touched(u, 600, 1), Cs(u)) == 2048
  {
    QuotRem(600, 512, 1, 88);
    TimesIs(4, 512);
  }

  /** A disk of 700 bytes over an image of 700 bytes, with 512-byte clusters: writing
      byte 600 alone fails, though it lies in the disk and though there is room. */
  method ShortBackingRefused(below: Qcow2File, path: seq<byte>, limit: nat) returns (r: WriteResult)
    requires below.Valid() && |below.Contents()| == 700 && |path| <= 400 && 2048 <= limit <= REACH
    modifies below.Repr
    ensures r == NoSpace || r == BackingUnreadable
    ensures 4096 <= limit ==> r == BackingUnreadable
  {
    OneTouched(1);
    var q := SmallOverlay(below, path, limit, 700, 9);
    ShortBase(below.Contents());
    ghost var done;
    r, done := q.WriteAt(600, [1]);
  }
}
