/** The rounds of the protocol against the round of the sender: between two fetches of
    the bitmap a run sends what `SendRound` sends. */
module MigrationRounds {
  import opened Bytes
  import opened MigrationWire
  import opened Migration
  import opened MigrationLoops
  import opened MigrationStream

  /** An action that does not end a round. */
  predicate InRound(a: Action) { !a.NextRound? && !a.Pause? && !a.FetchFinal? && !a.Finish? }

  predicate AllInRound(acts: seq<Action>) { forall k :: 0 <= k < |acts| ==> InRound(acts[k]) }

  function Messages(bs: seq<seq<PageRecord>>): seq<Message> {
    seq(|bs|, k requires 0 <= k < |bs| => Batch(bs[k]))
  }

  predicate Ascends(ps: seq<nat>) { forall i, j :: 0 <= i < j < |ps| ==> ps[i] < ps[j] }

  /** The records belong to these pages, in this order. */
  predicate RecordsOf(rs: seq<PageRecord>, ps: seq<nat>) {
    |rs| == |ps| && forall i :: 0 <= i < |rs| ==> rs[i].offset == 4096 * ps[i]
  }

  /** In a round whose scan has come to the cursor, ps are the pages picked so far, and bs
      the batches sent: the last pages wait in the batch, of which some are read. */
  ghost predicate Scanned(c: Config, s: State, bs: seq<seq<PageRecord>>, ps: seq<nat>) {
    forall k {:trigger Look(k)} :: Look(k) ==> Passing(c, s, bs, ps)
  }

  ghost predicate Passing(c: Config, s: State, bs: seq<seq<PageRecord>>, ps: seq<nat>) {
    && Scanning(s) && |s.src| == c.pages && s.cursor <= c.pages && Chosen(s, ps) && Waiting(s, bs, ps)
    && Portions(c, s, bs)
  }

  /** The pages are ascending, and those of the bitmap that the scan has passed. */
  ghost predicate Chosen(s: State, ps: seq<nat>) {
    && Ascends(ps) && (forall i :: 0 <= i < |ps| ==> ps[i] < s.cursor)
    && (!s.phase.Initial? ==> forall p: nat :: p < s.cursor ==> (p in ps <==> p in s.bitmap))
  }

  ghost predicate Waiting(s: State, bs: seq<seq<PageRecord>>, ps: seq<nat>) {
    && |s.batch| <= |ps| && s.batch == ps[|ps| - |s.batch|..] && RecordsOf(Flat(bs), ps[..|ps| - |s.batch|])
    && |s.out| <= |s.batch| && RecordsOf(s.out, s.batch[..|s.out|])
  }

  ghost predicate Portions(c: Config, s: State, bs: seq<seq<PageRecord>>) {
    && |s.batch| <= BATCH_SIZE && Full(bs)
    && (bs != [] && |bs[|bs| - 1]| < BATCH_SIZE ==> s.cursor == c.pages && s.batch == [])
  }

  lemma SkipScanned(c: Config, s: State, s': State, bs: seq<seq<PageRecord>>, ps: seq<nat>)
    requires Scanned(c, s, bs, ps) && Do(c, s, Skip) == Some(s')
    ensures Scanned(c, s', bs, ps)
  {
    assert Look(Key);
    forall p: nat | p < s'.cursor && !s.phase.Initial? ensures p in ps <==> p in s.bitmap {
      if p == s.cursor {
        assert forall i :: 0 <= i < |ps| ==> ps[i] != p;
      }
    }
  }

  lemma SelectScanned(c: Config, s: State, s': State, bs: seq<seq<PageRecord>>, ps: seq<nat>, ps': seq<nat>)
    requires Scanned(c, s, bs, ps) && Do(c, s, Select) == Some(s') && ps' == ps + [s.cursor]
    ensures Scanned(c, s', bs, ps')
  {
    assert Look(Key);
    SelectChosen(s, s', ps, ps');
    assert s'.batch == ps'[|ps'| - |s'.batch|..];
    assert ps'[..|ps'| - |s'.batch|] == ps[..|ps| - |s.batch|];
    assert s'.batch[..|s.out|] == s.batch[..|s.out|];
  }

  lemma SelectChosen(s: State, s': State, ps: seq<nat>, ps': seq<nat>)
    requires Chosen(s, ps) && ps' == ps + [s.cursor] && s'.cursor == s.cursor + 1 && s'.phase == s.phase
    requires s'.bitmap == s.bitmap
    requires !s.phase.Initial? ==> s.cursor in s.bitmap
    ensures Chosen(s', ps')
  {
    forall p: nat | p < s'.cursor && !s.phase.Initial? ensures p in ps' <==> p in s.bitmap {
      if p < s.cursor && p in ps {
        var i :| 0 <= i < |ps| && ps[i] == p;
        assert ps'[i] == p;
      } else if p == s.cursor {
        assert ps'[|ps|] == p;
      }
    }
  }

  lemma ReadScanned(c: Config, s: State, s': State, d: Page, bs: seq<seq<PageRecord>>, ps: seq<nat>)
    requires Scanned(c, s, bs, ps) && Do(c, s, Read(d)) == Some(s')
    ensures Scanned(c, s', bs, ps)
  {
    assert Look(Key);
    var n := |s.out|;
    assert s'.batch[..n + 1] == s.batch[..n] + [s.batch[n]];
  }

  lemma FlushScanned(c: Config, s: State, s': State, bs: seq<seq<PageRecord>>, ps: seq<nat>)
    requires Scanned(c, s, bs, ps) && Do(c, s, Flush) == Some(s')
    ensures Scanned(c, s', bs + [s.out], ps)
  {
    assert Look(Key);
    FlushWaiting(s, s', bs, ps);
    FlushPortions(c, s, s', bs);
    FlushChosen(s, s', ps);
  }

  lemma FlushChosen(s: State, s': State, ps: seq<nat>)
    requires Chosen(s, ps) && s'.cursor == s.cursor && s'.phase == s.phase && s'.bitmap == s.bitmap
    ensures Chosen(s', ps)
  {
  }

  lemma FlushPortions(c: Config, s: State, s': State, bs: seq<seq<PageRecord>>)
    requires Portions(c, s, bs) && |s.out| == |s.batch| > 0 && MustSend(c, s)
    requires s'.batch == [] && s'.cursor == s.cursor
    ensures Portions(c, s', bs + [s.out])
  {
    assert bs != [] ==> |bs[|bs| - 1]| == BATCH_SIZE;
  }

  lemma FlushWaiting(s: State, s': State, bs: seq<seq<PageRecord>>, ps: seq<nat>)
    requires Waiting(s, bs, ps) && |s.out| == |s.batch| && s'.batch == [] && s'.out == []
    ensures Waiting(s', bs + [s.out], ps)
  {
    FlatBatch(bs, s.out);
    assert s.batch[..|s.out|] == s.batch;
    assert ps[..|ps|] == ps[..|ps| - |s.batch|] + s.batch;
  }

  lemma OtherScanned(c: Config, s: State, a: Action, s': State, bs: seq<seq<PageRecord>>, ps: seq<nat>)
    requires Scanned(c, s, bs, ps) && Do(c, s, a) == Some(s') && (a.GuestWrite? || a.GuestRun? || a.Deliver?)
    ensures Scanned(c, s', bs, ps)
  {
    assert Look(Key);
  }

  /** One step of a round. */
  lemma StepScanned(c: Config, s: State, a: Action, s': State, bs: seq<seq<PageRecord>>, ps: seq<nat>)
    returns (bs': seq<seq<PageRecord>>, ps': seq<nat>)
    requires Scanned(c, s, bs, ps) && Do(c, s, a) == Some(s') && InRound(a)
    ensures Scanned(c, s', bs', ps') && Messages(bs') == Messages(bs) + Sent(s, a)
    ensures s'.phase == s.phase && s'.bitmap == s.bitmap
  {
    bs', ps' := bs, ps;
    match a
    case Skip => SkipScanned(c, s, s', bs, ps);
    case Select =>
      ps' := ps + [s.cursor];
      SelectScanned(c, s, s', bs, ps, ps');
    case Read(d) => ReadScanned(c, s, s', d, bs, ps);
    case Flush =>
      bs' := bs + [s.out];
      FlushScanned(c, s, s', bs, ps);
    case _ => OtherScanned(c, s, a, s', bs, ps);
  }

  lemma {:induction false} RunScanned(c: Config, s: State, acts: seq<Action>, s': State, bs: seq<seq<PageRecord>>,
                                      ps: seq<nat>)
    returns (bs': seq<seq<PageRecord>>, ps': seq<nat>)
    requires Scanned(c, s, bs, ps) && Run(c, s, acts) == Some(s') && AllInRound(acts)
    ensures Scanned(c, s', bs', ps') && Messages(bs') == Messages(bs) + Log(c, s, acts)
    ensures s'.phase == s.phase && s'.bitmap == s.bitmap
    decreases |acts|
  {
    if acts == [] {
      bs', ps' := bs, ps;
      assert Messages(bs) + [] == Messages(bs);
    } else {
      var m := Do(c, s, acts[0]).value;
      var bs1, ps1 := StepScanned(c, s, acts[0], m, bs, ps);
      bs', ps' := RunScanned(c, m, acts[1..], s', bs1, ps1);
      Regroup(Messages(bs), Sent(s, acts[0]), Log(c, m, acts[1..]));
    }
  }

  /** A round has just begun. */
  predicate RoundStarts(c: Config, s: State) {
    Scanning(s) && |s.src| == c.pages && s.cursor == 0 && s.batch == [] && s.out == []
  }

  /** Each round after the first starts with the step that fetches
      the bitmap. */
  lemma RoundBegins(c: Config, s: State, a: Action, s': State)
    requires Inv(c, s) && Do(c, s, a) == Some(s') && (a.NextRound? || a.FetchFinal?)
    ensures s'.phase.Converged? || RoundStarts(c, s')
    ensures a.NextRound? ==>
      (s'.phase.Converged? <==> |set p | p in s.dirty && p < c.pages| < c.threshold || s.round + 1 >= c.maxRounds)
    ensures a.NextRound? && s'.phase.Sending? ==> s'.bitmap == s.dirty
    ensures a.FetchFinal? ==> s'.bitmap == if c.carry then s.dirty + s.discarded else s.dirty
  {
    if a.NextRound? {
      NextRoundDecides(c, s);
    }
  }

  // ----- the list of the sender's round

  /** What was read of page p. */
  function SeenOf(rs: seq<PageRecord>, ps: seq<nat>, p: nat): Page
    requires |rs| == |ps|
  {
    if ps == [] then ZeroPage() else if ps[|ps| - 1] == p then rs[|ps| - 1].data
      else SeenOf(rs[..|ps| - 1], ps[..|ps| - 1], p)
  }

  lemma {:induction false} SeenAt(rs: seq<PageRecord>, ps: seq<nat>, i: nat)
    requires |rs| == |ps| && Ascends(ps) && i < |ps|
    ensures SeenOf(rs, ps, ps[i]) == rs[i].data
  {
    if i < |ps| - 1 {
      SeenAt(rs[..|ps| - 1], ps[..|ps| - 1], i);
    }
  }

  lemma LastBelow(ps: seq<nat>, n: nat, k: nat)
    requires Ascends(ps) && k <= |ps| && n > 0 && n - 1 in ps
    requires (forall i :: 0 <= i < k ==> ps[i] < n) && (forall i :: k <= i < |ps| ==> n <= ps[i])
    ensures k > 0 && ps[k - 1] == n - 1
  {
    var i :| 0 <= i < |ps| && ps[i] == n - 1;
    assert i < k;
    assert ps[k - 1] < n;
  }

  /** The first k of the records are those of the pages below n. */
  lemma {:induction false} ListedFrom(rs: seq<PageRecord>, ps: seq<nat>, selected: seq<bool>, seen: seq<Page>,
                                      n: nat, k: nat)
    requires RecordsOf(rs, ps) && Ascends(ps) && n <= |selected| == |seen| && k <= |ps|
    requires forall p: nat :: p < |selected| ==> (selected[p] <==> p in ps) && seen[p] == SeenOf(rs, ps, p)
    requires (forall i :: 0 <= i < k ==> ps[i] < n) && (forall i :: k <= i < |ps| ==> n <= ps[i])
    ensures Listed(selected, seen, n) == rs[..k]
    decreases n
  {
    if n == 0 {
      assert k == 0;
    } else if selected[n - 1] {
      LastBelow(ps, n, k);
      ListedFrom(rs, ps, selected, seen, n - 1, k - 1);
      SeenAt(rs, ps, k - 1);
      assert rs[..k] == rs[..k - 1] + [rs[k - 1]];
    } else {
      assert forall i :: 0 <= i < k ==> ps[i] != n - 1 && ps[i] in ps;
      ListedFrom(rs, ps, selected, seen, n - 1, k);
    }
  }

  /** Every round of a run, whatever the guest does meanwhile, sends what the sender's
      round sends: batches of 64 of which only the last may be smaller, with one
      record for each selected page, in ascending order.  After the first round
      the selected pages are exactly those of the bitmap. */
  lemma RoundSends(c: Config, s: State, acts: seq<Action>, s': State)
    returns (bs: seq<seq<PageRecord>>, selected: seq<bool>, seen: seq<Page>)
    requires RoundStarts(c, s) && Run(c, s, acts) == Some(s') && AllInRound(acts) && ScanDone(c, s')
    ensures Log(c, s, acts) == Messages(bs) && Full(bs)
    ensures |selected| == |seen| == c.pages && Flat(bs) == Listed(selected, seen, c.pages)
    ensures !s.phase.Initial? ==> forall p: nat :: p < c.pages ==> (selected[p] <==> p in s.bitmap)
  {
    var ps;
    bs, ps := RoundScanned(c, s, acts, s');
    var rs := Flat(bs);
    selected := seq(c.pages, p requires 0 <= p < c.pages => p in ps);
    seen := seq(c.pages, p requires 0 <= p < c.pages => SeenOf(rs, ps, p));
    ListedFrom(rs, ps, selected, seen, c.pages, |ps|);
    assert rs[..|ps|] == rs;
  }

  /** A whole round: what it has sent, and for which pages. */
  lemma RoundScanned(c: Config, s: State, acts: seq<Action>, s': State) returns (bs: seq<seq<PageRecord>>, ps: seq<nat>)
    requires RoundStarts(c, s) && Run(c, s, acts) == Some(s') && AllInRound(acts) && ScanDone(c, s')
    ensures Log(c, s, acts) == Messages(bs) && Full(bs) && RecordsOf(Flat(bs), ps) && Ascends(ps)
    ensures (forall i :: 0 <= i < |ps| ==> ps[i] < c.pages)
    ensures !s.phase.Initial? ==> forall p: nat :: p < c.pages ==> (p in ps <==> p in s.bitmap)
  {
    StartScanned(c, s);
    bs, ps := RunScanned(c, s, acts, s', [], []);
    EndScanned(c, s', bs, ps);
    assert Messages([]) + Log(c, s, acts) == Log(c, s, acts);
  }

  lemma StartScanned(c: Config, s: State)
    requires RoundStarts(c, s)
    ensures Scanned(c, s, [], [])
  {
  }

  lemma EndScanned(c: Config, s: State, bs: seq<seq<PageRecord>>, ps: seq<nat>)
    requires Scanned(c, s, bs, ps) && ScanDone(c, s)
    ensures Full(bs) && RecordsOf(Flat(bs), ps) && Ascends(ps) && forall i :: 0 <= i < |ps| ==> ps[i] < c.pages
    ensures !s.phase.Initial? ==> forall p: nat :: p < c.pages ==> (p in ps <==> p in s.bitmap)
  {
    assert Look(Key);
    assert ps[..|ps|] == ps;
  }

  // ----- the batches are determined by the list

  predicate AllFull(bs: seq<seq<PageRecord>>) { forall k :: 0 <= k < |bs| ==> |bs[k]| == BATCH_SIZE }

  lemma {:induction false} FlatLength(bs: seq<seq<PageRecord>>)
    requires AllFull(bs)
    ensures |Flat(bs)| == BATCH_SIZE * |bs|
  {
    if bs != [] {
      FlatLength(bs[..|bs| - 1]);
    }
  }

  lemma {:induction false} AllFullUnique(a: seq<seq<PageRecord>>, b: seq<seq<PageRecord>>)
    requires AllFull(a) && AllFull(b) && Flat(a) == Flat(b)
    ensures a == b
  {
    FlatLength(a);
    FlatLength(b);
    if a != [] {
      var n := |a| - 1;
      FlatLength(a[..n]);
      FlatLength(b[..n]);
      assert Flat(a)[..BATCH_SIZE * n] == Flat(a[..n]);
      assert Flat(b)[..BATCH_SIZE * n] == Flat(b[..n]);
      assert Flat(a)[BATCH_SIZE * n..] == a[n];
      assert Flat(b)[BATCH_SIZE * n..] == b[n];
      AllFullUnique(a[..n], b[..n]);
      assert a == a[..n] + [a[n]] && b == b[..n] + [b[n]];
    }
  }

  /** Two ways to cut a list into full batches and a last one are the same. */
  lemma FullUnique(a: seq<seq<PageRecord>>, b: seq<seq<PageRecord>>)
    requires Full(a) && Full(b) && Flat(a) == Flat(b)
    ensures a == b
  {
    if a == [] || b == [] {
      return;
    }
    var m, n := |a| - 1, |b| - 1;
    FlatLength(a[..m]);
    FlatLength(b[..n]);
    assert |Flat(a)| == BATCH_SIZE * m + |a[m]| && |Flat(b)| == BATCH_SIZE * n + |b[n]|;
    assert m == n;
    assert Flat(a)[..BATCH_SIZE * m] == Flat(a[..m]);
    assert Flat(b)[..BATCH_SIZE * m] == Flat(b[..m]);
    assert Flat(a)[BATCH_SIZE * m..] == a[m];
    assert Flat(b)[BATCH_SIZE * m..] == b[m];
    AllFullUnique(a[..m], b[..m]);
    assert a == a[..m] + [a[m]] && b == b[..m] + [b[m]];
  }

  /** The sender's loop, on what a round of a run selected and read, puts the very
      messages of that round on the wire. */
  method SendRoundOf(c: Config, ghost s: State, ghost acts: seq<Action>, ghost s': State,
                     ghost logged: seq<seq<PageRecord>>,
                     selected: seq<bool>, seen: seq<Page>, sent0: nat) returns (fs: seq<Frame>, sent: nat)
    requires Log(c, s, acts) == Messages(logged) && Full(logged)
    requires |selected| == |seen| == c.pages && Flat(logged) == Listed(selected, seen, c.pages)
    ensures |fs| == |Log(c, s, acts)| && forall k :: 0 <= k < |fs| ==> fs[k] == FrameOf(Log(c, s, acts)[k])
    ensures sent == sent0 + |Listed(selected, seen, c.pages)|
  {
    var bs;
    fs, sent, bs := SendRound(selected, seen, sent0);
    FullUnique(bs, logged);
  }
}
