/** Runs without obstacles: an image whose host has room is a flat disk. */
module Qcow2Runs {
  import opened Bytes
  import opened Qcow2Image
  import opened Qcow2Persist
  import opened Qcow2File
  import opened Qcow2Correct
  import opened Qcow2Create
  import opened Qcow2Writes
  import opened Qcow2Move
  import opened Qcow2Relocate
  import opened Qcow2Life

  /** What a flat disk does with a request. */
  function FlatStep(disk: GuestDisk, req: Request): GuestDisk {
    if req.Write? && req.offset + |req.data| <= |disk| then Patched(disk, req.offset, req.data) else disk
  }

  function FlatRun(disk: GuestDisk, reqs: seq<Request>): GuestDisk {
    if reqs == [] then disk else FlatStep(FlatRun(disk, reqs[..|reqs| - 1]), reqs[|reqs| - 1])
  }

  predicate InRange(req: Request, size: nat) {
    match req
    case Read(offset, len) => offset + len <= size
    case Write(offset, data) => offset + |data| <= size
    case _ => true
  }

  predicate Complete(disk: GuestDisk) { forall p :: 0 <= p < |disk| ==> disk[p].Some? }

  /** No cluster can be in the way of a write to a disk of this size. */
  predicate Sufficient(base: Base, u: Sectors, size: nat) {
    base.LayerBase? ==> size <= |base.disk| && Rem(|base.disk|, Cs(u)) == 0 && Complete(base.disk)
  }

  // ----- how much room a run needs

  /** Upper bounds for the cursor, the length of the refcount table and its room. */
  datatype Ledger = Ledger(next: nat, entries: nat, room: nat)

  predicate Within(l: Ledger, s: Snap) { s.next <= l.next && |s.table| <= l.entries && s.room <= l.room }

  /** The bounds after a request: a write takes at most four clusters for each that it
      touches, and a move of the refcount table at most two for each that the table
      fills.  A table that fits `floor`, the room at the beginning, does not move. */
  function Charge(u: Sectors, floor: nat, l: Ledger, req: Request): Ledger {
    match req
    case Read(_, _) => l
    case Write(offset, data) =>
      var n := WriteEnd(u, l.next, offset, |data|);
      l.(next := n, entries := Max(l.entries, RangesTo(u, n)))
    case Sync => AfterFlush(u, floor, l)
    case Restart => AfterOpen(AfterFlush(u, floor, l))
  }

  function AfterFlush(u: Sectors, floor: nat, l: Ledger): Ledger {
    if 8 * l.entries <= floor then l else
    var m := DivUp(8 * l.entries, Cs(u));
    var n := l.next + Times(2 * m, Cs(u));
    Ledger(n, Max(l.entries, RangesTo(u, n)), Max(l.room, Times(m, Cs(u))))
  }

  function AfterOpen(l: Ledger): Ledger { l.(entries := Max(l.entries, l.room / 8)) }

  function ChargeAll(u: Sectors, floor: nat, l: Ledger, reqs: seq<Request>): Ledger {
    if reqs == [] then l else Charge(u, floor, ChargeAll(u, floor, l, reqs[..|reqs| - 1]), reqs[|reqs| - 1])
  }

  lemma ChargeMore(u: Sectors, floor: nat, l: Ledger, req: Request)
    ensures l.next <= Charge(u, floor, l, req).next
  {
  }

  lemma RangesMore(u: Sectors, n: nat, n': nat)
    requires n <= n'
    ensures RangesTo(u, n) <= RangesTo(u, n')
  {
    QuotMono(n, n', Cs(u));
    QuotMono(Quot(n, Cs(u)), Quot(n', Cs(u)), PerBlock(u));
  }

  /** A move of m clusters adds at most m blocks. */
  lemma {:induction false} UptoWithin(n0: nat, m: nat, b: nat)
    requires b > 0
    ensures Upto(n0, m, b) <= Quot(n0, b) + m
  {
    if m > 0 {
      UptoWithin(n0, m - 1, b);
      UptoNext(n0, m - 1, b);
    }
  }

  lemma ExtraWithin(rt: seq<nat>, n0: nat, m: nat, b: nat)
    requires b > 0
    ensures Extra(rt, n0, m, b) <= m
  {
    UptoWithin(n0, m, b);
    if Quot(n0, b) <= Upto(n0, m, b) {
      LackingMore(rt, Quot(n0, b), Quot(n0, b), Upto(n0, m, b));
    }
  }

  /** What a move costs at most, in terms of a bound on the table. */
  lemma MoveWithin(u: Sectors, s: Snap, entries: nat)
    requires |s.table| <= entries
    ensures TableClusters(u, s.table) <= DivUp(8 * entries, Cs(u))
    ensures EndAfterMove(u, s) <= s.next + Times(2 * DivUp(8 * entries, Cs(u)), Cs(u))
    ensures Times(TableClusters(u, s.table), Cs(u)) <= Times(DivUp(8 * entries, Cs(u)), Cs(u))
  {
    var m, m' := TableClusters(u, s.table), DivUp(8 * entries, Cs(u));
    QuotMono(8 * |s.table| + Cs(u) - 1, 8 * entries + Cs(u) - 1, Cs(u));
    ExtraWithin(s.table, Quot(s.next, Cs(u)), m, PerBlock(u));
    TimesMono(MoveCost(u, s.next, s.table), 2 * m', Cs(u));
    TimesMono(m, m', Cs(u));
  }

  /** The reserved clusters lie in ranges below that of the bound. */
  lemma ReachingWithin(u: Sectors, next: nat, m: nat, n: nat)
    requires m > 0 && next + Times(m, Cs(u)) <= n
    ensures Reaching(u, next, m) <= RangesTo(u, n)
  {
    var c := Cs(u);
    DivMod(next, c);
    TimesIs(Quot(next, c), c);
    Commute(Quot(next, c), c);
    NumberOf(Quot(next, c), m, c);
    QuotMono(Times(Quot(next, c), c) + Times(m, c), n, c);
    QuotMono(Quot(next, c) + m - 1, Quot(n, c), PerBlock(u));
  }

  lemma FlushWithin(u: Sectors, limit: nat, floor: nat, l: Ledger, s: Snap, s': Snap)
    requires Within(l, s) && floor <= s.room && Flushed(u, limit, s, s')
    ensures Within(AfterFlush(u, floor, l), s') && floor <= s'.room
  {
    if Moves(u, s) {
      var m, m' := TableClusters(u, s.table), DivUp(8 * l.entries, Cs(u));
      MoveWithin(u, s, l.entries);
      TimesMono(m', 2 * m', Cs(u));
      ReachingWithin(u, s.next, m, l.next + Times(2 * m', Cs(u)));
      TableCovered(u, |s.table|, m);
    }
  }

  /** The bounds hold after a request if they held before. */
  lemma ChargeWithin(u: Sectors, limit: nat, base: Base, floor: nat, l: Ledger, s: Snap, req: Request, reply: Reply,
                     done: nat, s': Snap)
    requires Answers(u, limit, base, s, req, reply, done, s') && Within(l, s) && floor <= s.room
    ensures Within(Charge(u, floor, l, req), s') && floor <= s'.room
  {
    match req
    case Read(_, _) =>
    case Write(offset, data) =>
      RangesMore(u, s'.next, WriteEnd(u, l.next, offset, |data|));
    case Sync =>
      FlushWithin(u, limit, floor, l, s, s');
    case Restart =>
      if reply.ok {
        var s1 :| Flushed(u, limit, s, s1) && OpenedAgain(limit, s1, s');
        FlushWithin(u, limit, floor, l, s, s1);
      } else {
        FlushWithin(u, limit, floor, l, s, s');
      }
  }

  /** What writes need at most: four bytes of the host for one of the guest, and eight
      clusters for their ends. */
  function Needed(u: Sectors, reqs: seq<Request>): nat {
    if reqs == [] then 0 else
    var req := reqs[|reqs| - 1];
    Needed(u, reqs[..|reqs| - 1]) + if req.Write? then 4 * |req.data| + 8 * (512 * u) else 0
  }

  lemma TouchedBytes(u: Sectors, offset: nat, len: nat)
    ensures Times(4 * Touched(u, offset, len), Cs(u)) <= 4 * len + 8 * (512 * u)
  {
    if len > 0 {
      var c := Cs(u);
      DivMod(offset, c);
      DivMod(offset + len - 1, c);
      var t := Touched(u, offset, len);
      TimesIs(4 * t, c);
      Spread(c, Quot(offset, c), Quot(offset + len - 1, c), t);
    }
  }

  lemma Spread(c: nat, a: nat, b: nat, t: nat)
    requires t + a == b + 1
    ensures 4 * t * c == 4 * (c * b) - 4 * (c * a) + 4 * c
  {
  }

  /** As long as the refcount table need not grow past its room, a run needs no more room
      than its writes do. */
  lemma {:induction false} NeededSuffices(u: Sectors, floor: nat, l: Ledger, reqs: seq<Request>)
    requires l.room <= floor && 8 * l.entries <= floor && 8 * RangesTo(u, l.next + Needed(u, reqs)) <= floor
    ensures ChargeAll(u, floor, l, reqs).next <= l.next + Needed(u, reqs)
    ensures 8 * ChargeAll(u, floor, l, reqs).entries <= floor && ChargeAll(u, floor, l, reqs).room <= floor
    decreases |reqs|
  {
    if reqs != [] {
      var n := |reqs| - 1;
      var m := ChargeAll(u, floor, l, reqs[..n]);
      RangesMore(u, l.next + Needed(u, reqs[..n]), l.next + Needed(u, reqs));
      NeededSuffices(u, floor, l, reqs[..n]);
      if reqs[n].Write? {
        TouchedBytes(u, reqs[n].offset, |reqs[n].data|);
        RangesMore(u, Charge(u, floor, m, reqs[n]).next, l.next + Needed(u, reqs));
      }
    }
  }

  // ----- the run of a flat disk

  lemma FlatAnswer(u: Sectors, limit: nat, base: Base, s: Snap, req: Request, reply: Reply, done: nat, s': Snap)
    requires Answers(u, limit, base, s, req, reply, done, s') && Complete(s.disk) && Sufficient(base, u, |s.disk|)
    requires req.Write? ==> WriteEnd(u, s.next, req.offset, |req.data|) <= limit
    ensures s'.disk == FlatStep(s.disk, req) && Complete(s'.disk) && |s'.disk| == |s.disk|
    ensures (req.Read? || req.Write?) ==> (reply.ok <==> InRange(req, |s.disk|))
  {
    if req.Write? && InRange(req, |s.disk|) {
      ReadableBase(s.tables, u, base, req.offset, |req.data|);
      assert req.data[..|req.data|] == req.data;
    }
  }

  lemma ChainedPrefix(u: Sectors, limit: nat, base: Base, snaps: seq<Snap>, reqs: seq<Request>, replies: seq<Reply>,
                      dones: seq<nat>, n: nat)
    requires Chained(u, limit, base, snaps, reqs, replies, dones) && n < |reqs|
    ensures Chained(u, limit, base, snaps[..n + 1], reqs[..n], replies[..n], dones[..n])
    ensures Answers(u, limit, base, snaps[n], reqs[n], replies[n], dones[n], snaps[n + 1])
  {
  }

  /** Exactly the reads and writes within the disk are carried out. */
  predicate AllDone(reqs: seq<Request>, replies: seq<Reply>, size: nat) {
    |replies| == |reqs| && forall k :: 0 <= k < |reqs| && (reqs[k].Read? || reqs[k].Write?) ==>
      (replies[k].ok <==> InRange(reqs[k], size))
  }

  lemma AllDoneMore(reqs: seq<Request>, replies: seq<Reply>, size: nat, n: nat)
    requires |replies| == |reqs| == n + 1 && AllDone(reqs[..n], replies[..n], size)
    requires (reqs[n].Read? || reqs[n].Write?) ==> (replies[n].ok <==> InRange(reqs[n], size))
    ensures AllDone(reqs, replies, size)
  {
    forall k | 0 <= k < |reqs| && (reqs[k].Read? || reqs[k].Write?) ensures replies[k].ok <==> InRange(reqs[k], size) {
      assert k < n ==> reqs[..n][k] == reqs[k] && replies[..n][k] == replies[k];
    }
  }

  /** A run for which there is room, on a complete disk whose base suffices, is the run
      of a flat disk: every request within the disk is carried out, and the disk is
      what the writes make of it.  Whether there is room can be computed from the
      requests and from bounds for the cursor, the refcount table and its room at
      the beginning. */
  lemma {:induction false} RunIsFlat(u: Sectors, limit: nat, base: Base, snaps: seq<Snap>, reqs: seq<Request>,
                                     replies: seq<Reply>, dones: seq<nat>, l: Ledger, floor: nat)
    requires Chained(u, limit, base, snaps, reqs, replies, dones) && Complete(snaps[0].disk)
    requires Sufficient(base, u, |snaps[0].disk|) && Within(l, snaps[0]) && floor <= snaps[0].room
    requires ChargeAll(u, floor, l, reqs).next <= limit
    ensures snaps[|reqs|].disk == FlatRun(snaps[0].disk, reqs) && Complete(snaps[|reqs|].disk)
    ensures |snaps[|reqs|].disk| == |snaps[0].disk| && AllDone(reqs, replies, |snaps[0].disk|)
    ensures Within(ChargeAll(u, floor, l, reqs), snaps[|reqs|]) && floor <= snaps[|reqs|].room
    decreases |reqs|
  {
    if reqs != [] {
      var n := |reqs| - 1;
      var l1 := ChargeAll(u, floor, l, reqs[..n]);
      ChargeMore(u, floor, l1, reqs[n]);
      ChainedPrefix(u, limit, base, snaps, reqs, replies, dones, n);
      RunIsFlat(u, limit, base, snaps[..n + 1], reqs[..n], replies[..n], dones[..n], l, floor);
      LastAnswer(u, limit, base, snaps[n], reqs[n], replies[n], dones[n], snaps[n + 1], l1, floor);
      AllDoneMore(reqs, replies, |snaps[0].disk|, n);
    }
  }

  lemma LastAnswer(u: Sectors, limit: nat, base: Base, s: Snap, req: Request, reply: Reply, done: nat, s': Snap,
                   l: Ledger, floor: nat)
    requires Answers(u, limit, base, s, req, reply, done, s') && Complete(s.disk) && Sufficient(base, u, |s.disk|)
    requires Within(l, s) && floor <= s.room && Charge(u, floor, l, req).next <= limit
    ensures s'.disk == FlatStep(s.disk, req) && Complete(s'.disk) && |s'.disk| == |s.disk|
    ensures (req.Read? || req.Write?) ==> (reply.ok <==> InRange(req, |s.disk|))
    ensures Within(Charge(u, floor, l, req), s') && floor <= s'.room
  {
    ChargeWithin(u, limit, base, floor, l, s, req, reply, done, s');
    FlatAnswer(u, limit, base, s, req, reply, done, s');
  }

  // ----- from the beginning

  /** The bounds for a new image. */
  function NewLedger(p: Plan): Ledger { Ledger(p.End(), TableRoom(p) / 8, TableRoom(p)) }

  /** The host has room for these requests to a new image. */
  predicate HasRoom(size: nat, u: Sectors, limit: nat, reqs: seq<Request>) {
    ChargeAll(u, TableRoom(PlanFor(size, u)), NewLedger(PlanFor(size, u)), reqs).next <= limit
  }

  /** A disk that shows these bytes, and zeros behind them. */
  function PlainDisk(bytes: seq<byte>, size: nat): (d: GuestDisk)
    ensures |d| == size && forall x :: 0 <= x < size ==> d[x] == if x < |bytes| then Some(bytes[x]) else Some(0)
  {
    seq(size, x requires 0 <= x < size => if x < |bytes| then Some(bytes[x]) else Some(0))
  }

  /** A new disk over a raw backing file, which may be absent, for which the host has
      room, under any requests: exactly those within the disk are carried out, and the
      disk is that of a flat file with the backing file's bytes, or zeros behind them,
      to which the writes were made. */
  method FlatSession(size: nat, bits: nat, path: seq<byte>, bytes: Option<seq<byte>>, limit: nat, reqs: seq<Request>)
    returns (c: Creation, replies: seq<Reply>)
    requires size < 0x1_0000_0000_0000_0000 && limit <= REACH
    requires !CreateRefused(size, bits, path, limit) && WellPlanned(size, SectorsFor(bits))
    requires HasRoom(size, SectorsFor(bits), limit, reqs)
    ensures c.Made? && c.image.Valid()
    ensures c.image.Contents() == FlatRun(PlainDisk(if bytes.Some? then bytes.value else [], size), reqs)
    ensures AllDone(reqs, replies, size)
  {
    ghost var dones, snaps, base;
    ghost var plain := PlainDisk(if bytes.Some? then bytes.value else [], size);
    var below := if bytes.Some? then Raw(bytes.value) else NoBacking;
    c, replies, dones, snaps, base := Session(size, bits, path, below, limit, reqs);
    ghost var u := SectorsFor(bits);
    assert snaps[0].disk == plain;
    RunIsFlat(u, limit, base, snaps, reqs, replies, dones, NewLedger(PlanFor(size, u)), TableRoom(PlanFor(size, u)));
  }
}
