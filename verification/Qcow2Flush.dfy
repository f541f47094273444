/** Flushing an image, with the move of a refcount table that has outgrown its place
    (`flush` and `write_refcount_table` in src/storage/qcow2.rs). */
module Qcow2Flush {
  import opened Bytes
  import opened Qcow2Header
  import opened Qcow2Image
  import opened Qcow2State
  import opened Qcow2Persist
  import opened Qcow2Create
  import opened Qcow2Move
  import opened Qcow2Relocate
  import opened Qcow2File

  /** Flush all metadata to disk.  A refcount table that has outgrown the clusters
      that the header reserves for it moves to the end of the file; if the host
      lets it grow, which can be told beforehand.  The move keeps the refcounts
      if and only if it is tidy and roomy, and the guest disk in any case.  A
      move that cannot be followed is not made. */
  method Flush(q: Qcow2File) returns (done: bool)
    requires q.Valid()
    modifies q
    ensures q.Valid() && q.Base() == old(q.Base()) && q.Contents() == old(q.Contents()) && q.tables == old(q.tables)
    ensures q.l1 == old(q.l1) && Clean(q.cache) && L1OnDisk(q.g, q.S()) && Moved(old(q.g), old(q.header), q.g, q.header)
    ensures done ==> Persistent(q.g, q.S())
    ensures done <==>
      || TableFitsHeader(old(q.g), old(q.S()))
      || (Relocatable(q.g.u, old(q.next), old(q.refcountTable)) && MoveEnd(old(q.g), old(q.S())) <= q.g.limit)
    ensures Relocates(old(q.g), old(q.S()), q.g, q.S(), done)
  {
    q.FlushL2AndL1();
    done := FlushCounts(q);
    assert Look(Key);
  }

  /** Write the refcount table, to a new place if need be. */
  method FlushCounts(q: Qcow2File) returns (done: bool)
    requires Sound(q.g, q.S()) && L1OnDisk(q.g, q.S()) && Headed(q.g, q.header, q.path)
    modifies q`file, q`refcountTable, q`next, q`own, q`g, q`header
    ensures Settled(old(q.g), old(q.header), old(q.S()), q.g, q.header, q.S(), q.path, done)
  {
    done := true;
    if 8 * |q.refcountTable| <= q.g.rcBytes {
      WriteRefcountTable(q);
      WrittenSettled(q.g, q.header, old(q.S()), q.S(), q.path);
    } else if Relocatable(q.g.u, q.next, q.refcountTable) {
      done := MoveTable(q);
    } else {
      done := false;
      UnmovedSettled(q.g, q.header, q.S(), q.path);
    }
  }

  // ----- moving the refcount table

  /** Set the refcounts of the m clusters at `at`. */
  method CountClusters(q: Qcow2File, at: nat, m: nat, ghost n0: nat) returns (ok: bool)
    requires m > 0 && Pending(q.g, q.S(), q.S(), at, n0, 0, m)
    modifies q`file, q`refcountTable, q`next, q`own
    ensures Grew(q.g, old(q.S()), q.S()) && (!ok ==> Sound(q.g, q.S()) && q.next > q.g.limit)
    ensures ok ==> Pending(q.g, old(q.S()), q.S(), at, n0, m, m)
    ensures |q.refcountTable| <= Max(|old(q.refcountTable)|, Upto(n0, m, PerBlock(q.g.u)))
    ensures q.next <= old(q.next) + Times(Extra(old(q.refcountTable), n0, m, PerBlock(q.g.u)), Cs(q.g.u))
    ensures ok ==> q.next == old(q.next) + Times(Extra(old(q.refcountTable), n0, m, PerBlock(q.g.u)), Cs(q.g.u))
  {
    GrewNot(q.g, q.S());
    PendingStart(q.g, q.S(), at, n0, m);
    ok := true;
    var i := 0;
    while ok && i < m
      invariant i <= m && Grew(q.g, old(q.S()), q.S()) && (!ok ==> Sound(q.g, q.S()) && q.next > q.g.limit)
      invariant ok ==> Pending(q.g, old(q.S()), q.S(), at, n0, i, m)
      invariant |q.refcountTable| <= Max(|old(q.refcountTable)|, Upto(n0, i, PerBlock(q.g.u)))
      invariant q.next == old(q.next) + Times(Extra(old(q.refcountTable), n0, i, PerBlock(q.g.u)), Cs(q.g.u))
      decreases ok, m - i
    {
      ok := CountNext(q, at, m, i, n0, old(q.S()));
      i := i + 1;
    }
    ExtraMore(old(q.refcountTable), n0, i, m, PerBlock(q.g.u), Cs(q.g.u));
  }

  method CountCluster(q: Qcow2File, offset: nat) returns (ok: bool)
    modifies q`file, q`refcountTable, q`next, q`own
    ensures Did(q.g, old(q.S()), offset, q.S(), ok)
  {
    ok := q.SetRefcount(offset);
    Seal(q.g, old(q.S()), offset, q.S(), ok);
  }

  method CountNext(q: Qcow2File, at: nat, m: nat, i: nat, ghost n0: nat, ghost r: State) returns (ok: bool)
    requires i < m && Pending(q.g, r, q.S(), at, n0, i, m) && Grew(q.g, r, q.S())
    modifies q`file, q`refcountTable, q`next, q`own
    ensures Grew(q.g, r, q.S()) && (!ok ==> Sound(q.g, q.S()) && q.next > q.g.limit)
    ensures ok ==> Pending(q.g, r, q.S(), at, n0, i + 1, m)
    ensures q.next == r.next + Times(Extra(r.refcountTable, n0, i + 1, PerBlock(q.g.u)), Cs(q.g.u))
    ensures |q.refcountTable| <= Max(|r.refcountTable|, Upto(n0, i + 1, PerBlock(q.g.u)))
  {
    ok := CountCluster(q, at + Times(i, Cs(q.g.u)));
    CountOne(q.g, r, old(q.S()), q.S(), at, i, m, n0, ok);
    GrewTwice(q.g, r, old(q.S()), q.S());
  }

  /** Reserve m clusters at the end of the file and count them, with x blocks that
      they lack. */
  method ReserveTable(q: Qcow2File, m: nat, ghost x: nat) returns (ok: bool)
    requires Sound(q.g, q.S()) && m > 0 && x == Extra(q.refcountTable, Quot(q.next, Cs(q.g.u)), m, PerBlock(q.g.u))
    modifies q`file, q`refcountTable, q`next, q`own, q`g
    ensures ok <==> old(q.next) + Times(m, Cs(q.g.u)) + Times(x, Cs(q.g.u)) <= q.g.limit
    ensures old(q.next) <= q.next <= old(q.next) + Times(m, Cs(q.g.u)) + Times(x, Cs(q.g.u))
    ensures |q.refcountTable| <= Max(|old(q.refcountTable)|, Reaching(q.g.u, old(q.next), m))
    ensures q.g == Afterwards(old(q.g), !ok || Tidy(q.g.u, old(q.next), m)) && Sound(q.g, q.S())
    ensures if ok then Provided(q.g, old(q.S()), q.S(), m, x) else Grew(q.g, old(q.S()), q.S()) && q.next > q.g.limit
    ensures ok && old(q.g).counts != Lost && !Tidy(q.g.u, old(q.next), m) ==>
      Missed(q.g, q.S(), Quot(old(q.next), Cs(q.g.u)) + m)
  {
    var at := q.next;
    ok := ReserveSpace(q, m);
    if ok {
      ok := CountReserved(q, at, m, x, old(q.S()));
    }
  }

  /** The first half: grow the file by m clusters. */
  method ReserveSpace(q: Qcow2File, m: nat) returns (ok: bool)
    requires Sound(q.g, q.S()) && m > 0
    modifies q`file, q`next, q`own
    ensures ok <==> q.next <= q.g.limit
    ensures q.next == old(q.next) + Times(m, Cs(q.g.u)) && Grew(q.g, old(q.S()), q.S()) && (!ok ==> Sound(q.g, q.S()))
    ensures ok ==>
      Vacant(old(q.S()), q.S(), m, q.g.u) && Pending(q.g, q.S(), q.S(), old(q.next), Quot(old(q.next), Cs(q.g.u)), 0, m)
  {
    q.next := q.next + Times(m, Cs(q.g.u));
    ok := q.next <= q.g.limit;
    if ok {
      q.file := q.file + Zeros(Times(m, Cs(q.g.u)));
      q.own := Reserved(q.g, old(q.S()), m).own;
      ReserveGranted(q.g, old(q.S()), q.S(), m, Quot(old(q.next), Cs(q.g.u)));
    } else {
      ReserveRefused(q.g, old(q.S()), q.S(), m);
    }
  }

  /** The second half: count the clusters that were reserved since s0. */
  method CountReserved(q: Qcow2File, at: nat, m: nat, ghost x: nat, ghost s0: State) returns (ok: bool)
    requires m > 0 && at == s0.next && Pending(q.g, q.S(), q.S(), at, Quot(at, Cs(q.g.u)), 0, m)
    requires Grew(q.g, s0, q.S()) && Vacant(s0, q.S(), m, q.g.u) && q.next == at + Times(m, Cs(q.g.u))
    requires q.refcountTable == s0.refcountTable && x == Extra(q.refcountTable, Quot(at, Cs(q.g.u)), m, PerBlock(q.g.u))
    modifies q`file, q`refcountTable, q`next, q`own, q`g
    ensures ok <==> at + Times(m, Cs(q.g.u)) + Times(x, Cs(q.g.u)) <= q.g.limit
    ensures at <= q.next <= at + Times(m, Cs(q.g.u)) + Times(x, Cs(q.g.u))
    ensures |q.refcountTable| <= Max(|s0.refcountTable|, Reaching(q.g.u, at, m))
    ensures q.g == Afterwards(old(q.g), !ok || Tidy(q.g.u, at, m)) && Sound(q.g, q.S())
    ensures if ok then Provided(q.g, s0, q.S(), m, x) else Grew(q.g, s0, q.S()) && q.next > q.g.limit
    ensures ok && old(q.g).counts != Lost && !Tidy(q.g.u, at, m) ==> Missed(q.g, q.S(), Quot(at, Cs(q.g.u)) + m)
  {
    ghost var n0 := Quot(at, Cs(q.g.u));
    ok := CountClusters(q, at, m, n0);
    GrewTwice(q.g, s0, old(q.S()), q.S());
    GrewNext(q.g, s0, q.S());
    if ok {
      VacantKept(q.g, s0, old(q.S()), q.S(), m);
      LoopCounts(q.g, old(q.S()), q.S(), at, n0, m);
      LoopEnds(q.g, old(q.S()), q.S(), at, n0, m);
      q.g := Afterwards(q.g, Tidy(q.g.u, at, m));
      GrewStill(old(q.g), s0, q.S(), q.g);
      WithinLimit(q.g, q.S());
    }
  }

  /** Move the refcount table to new clusters at the end of the file and write it. */
  method MoveTable(q: Qcow2File) returns (ok: bool)
    requires Sound(q.g, q.S()) && L1OnDisk(q.g, q.S()) && Headed(q.g, q.header, q.path)
    requires !TableFitsHeader(q.g, q.S()) && Relocatable(q.g.u, q.next, q.refcountTable)
    modifies q`file, q`refcountTable, q`next, q`own, q`g, q`header
    ensures Settled(old(q.g), old(q.header), old(q.S()), q.g, q.header, q.S(), q.path, ok)
  {
    var at, m := q.next, TableClusters(q.g.u, q.refcountTable);
    ghost var x := Extra(q.refcountTable, Quot(q.next, Cs(q.g.u)), m, PerBlock(q.g.u));
    CostIs(q.g, q.S(), m, x);
    ok := ReserveTable(q, m, x);
    if ok {
      NextAligned(old(q.g), old(q.S()));
      FinishMove(q, at, m, x, old(q.g), old(q.S()));
    } else {
      RefusedSettled(q.g, q.header, old(q.S()), q.S(), q.path, m, x);
    }
  }

  /** The second half, after the clusters have been reserved. */
  method FinishMove(q: Qcow2File, at: nat, m: nat, ghost x: nat, ghost g0: Geometry, ghost s0: State)
    requires Multiple(at, Cs(q.g.u)) && L1OnDisk(q.g, s0) && Headed(g0, q.header, q.path)
    requires Provided(q.g, s0, q.S(), m, x)
    requires at + Times(m, Cs(q.g.u)) + Times(x, Cs(q.g.u)) <= q.g.limit
    requires at == s0.next < 0x1_0000_0000_0000_0000 && q.g == Afterwards(g0, Tidy(q.g.u, at, m))
    requires !TableFitsHeader(g0, s0) && Relocatable(g0.u, at, s0.refcountTable)
    requires m == TableClusters(g0.u, s0.refcountTable)
    requires x == Extra(s0.refcountTable, Quot(at, Cs(q.g.u)), m, PerBlock(q.g.u))
    requires g0.counts != Lost && !Tidy(q.g.u, at, m) ==> Missed(q.g, q.S(), Quot(at, Cs(q.g.u)) + m)
    modifies q`file, q`own, q`g, q`header
    ensures Settled(g0, old(q.header), s0, q.g, q.header, q.S(), q.path, true)
  {
    StillHeaded(g0, q.header, q.path, q.g);
    ProvidedEnd(q.g, s0, q.S(), m, x);
    CostIs(g0, s0, m, x);
    AdoptTable(q, at, m, x, s0);
    MoveSettled(g0, old(q.header), s0, old(q.g), old(q.S()), q.g, q.header, q.S(), q.path, m, x);
  }

  /** Make the m clusters at `at`, which were reserved since s0, the place of the
      refcount table. */
  method PlaceTable(q: Qcow2File, at: nat, m: nat, ghost x: nat, ghost s0: State)
    requires Multiple(at, Cs(q.g.u)) && L1OnDisk(q.g, s0) && Headed(q.g, q.header, q.path)
    requires Provided(q.g, s0, q.S(), m, x) && at == s0.next < 0x1_0000_0000_0000_0000
    requires 8 * |s0.refcountTable| <= Times(m, Cs(q.g.u)) && m < 0x1_0000_0000
    modifies q`file, q`own, q`g, q`header
    ensures Sound(q.g, q.S()) && L1OnDisk(q.g, q.S()) && Headed(q.g, q.header, q.path)
    ensures Moved(old(q.g), old(q.header), q.g, q.header)
    ensures q.g.rcOffset == at && q.g.rcBytes == Times(m, Cs(q.g.u)) && q.g.counts == old(q.g).counts
    ensures |q.file| == |old(q.file)|
    ensures forall base :: DiskOf(q.g, q.S(), base) == DiskOf(old(q.g), s0, base)
    ensures TableFitsHeader(q.g, q.S()) <==> Roomy(q.g.u, at, m)
    ensures Fenced(q.own, q.g.rcOffset + q.g.rcBytes, x, q.g.u)
    ensures forall c: nat ::
      Refcount(q.refcountTable, q.file, q.g.u, c) == old(Refcount(q.refcountTable, q.file, q.g.u, c))
  {
    q.own := Retag(q.own, at, m, q.g.u);
    q.g := Relocated(q.g, q.header, q.path, at, m);
    q.header := MovedHeader(q.header, at, m);
    q.file := WriteFile(q.file, 0, WriteHeader(q.header));
    PlaceMeans(old(q.g), s0, old(q.S()), old(q.header), q.path, m, x, q.g, q.S());
  }

  /** The same, and the table is written there. */
  method AdoptTable(q: Qcow2File, at: nat, m: nat, ghost x: nat, ghost s0: State)
    requires Multiple(at, Cs(q.g.u)) && L1OnDisk(q.g, s0) && Headed(q.g, q.header, q.path)
    requires Provided(q.g, s0, q.S(), m, x) && at == s0.next < 0x1_0000_0000_0000_0000
    requires 8 * |s0.refcountTable| <= Times(m, Cs(q.g.u)) && m < 0x1_0000_0000
    requires 8 * |q.refcountTable| <= Times(m, Cs(q.g.u)) + Times(x, Cs(q.g.u))
    modifies q`file, q`own, q`g, q`header
    ensures Sound(q.g, q.S()) && L1OnDisk(q.g, q.S()) && Headed(q.g, q.header, q.path)
    ensures Moved(old(q.g), old(q.header), q.g, q.header)
    ensures RefcountTableOnDisk(q.g, q.S()) && forall base :: DiskOf(q.g, q.S(), base) == DiskOf(old(q.g), s0, base)
    ensures q.g.rcOffset == at && q.g.rcBytes == Times(m, Cs(q.g.u)) && |q.file| == |old(q.file)|
    ensures q.g.counts == if Roomy(q.g.u, at, m) then old(q.g).counts else Lost
    ensures forall c: nat :: Roomy(q.g.u, at, m) && Missed(old(q.g), old(q.S()), c) ==> Missed(q.g, q.S(), c)
  {
    ProvidedEnd(q.g, s0, q.S(), m, x);
    PlaceTable(q, at, m, x, s0);
    if 8 * |q.refcountTable| <= q.g.rcBytes {
      WriteRefcountTable(q);
    } else {
      SpillTable(q, x);
    }
  }

  /** Write a refcount table that runs over the blocks behind its place. */
  method SpillTable(q: Qcow2File, ghost x: nat)
    requires Sound(q.g, q.S()) && L1OnDisk(q.g, q.S()) && Headed(q.g, q.header, q.path) && !TableFitsHeader(q.g, q.S())
    requires 8 * |q.refcountTable| <= q.g.rcBytes + Times(x, Cs(q.g.u))
    requires q.g.rcOffset + 8 * |q.refcountTable| <= |q.file|
    requires Fenced(q.own, q.g.rcOffset + q.g.rcBytes, x, q.g.u)
    modifies q`file, q`g
    ensures Sound(q.g, q.S()) && L1OnDisk(q.g, q.S()) && RefcountTableOnDisk(q.g, q.S()) && |q.file| == |old(q.file)|
    ensures q.g == old(q.g).(counts := Lost) && Headed(q.g, q.header, q.path)
    ensures forall base :: DiskOf(q.g, q.S(), base) == DiskOf(q.g, old(q.S()), base)
  {
    q.g := q.g.(counts := Lost);
    LostSound(old(q.g), q.S(), q.g);
    q.file := WriteFile(q.file, q.g.rcOffset, EncodeTable(q.refcountTable));
    SpillSound(q.g, old(q.S()), q.S(), x);
    StillHeaded(old(q.g), q.header, q.path, q.g);
  }

  method WriteRefcountTable(q: Qcow2File)
    requires Sound(q.g, q.S()) && TableFitsHeader(q.g, q.S()) && L1OnDisk(q.g, q.S())
    modifies q`file
    ensures Sound(q.g, q.S()) && L1OnDisk(q.g, q.S()) && RefcountTableOnDisk(q.g, q.S()) && |q.file| == |old(q.file)|
    ensures forall base :: DiskOf(q.g, q.S(), base) == DiskOf(q.g, old(q.S()), base)
    ensures forall c: nat ::
      Refcount(q.refcountTable, q.file, q.g.u, c) == old(Refcount(q.refcountTable, q.file, q.g.u, c))
  {
    q.file := WriteFile(q.file, q.g.rcOffset, EncodeTable(q.refcountTable));
    WriteRefcounts(q.g, old(q.S()), q.S());
    WrittenCounts(q.g, old(q.S()), q.S());
  }
}
