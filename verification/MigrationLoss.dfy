/** The converging round fetches and clears the dirty log and then sends nothing.
    Hence migration is exact in every run precisely when that bitmap is carried
    over into the final round. */
module MigrationLoss {
  import opened Bytes
  import opened MigrationWire
  import opened Migration

  ghost predicate Completed(c: Config, s0: State, acts: seq<Action>, s: State) {
    Start(c, s0) && Run(c, s0, acts) == Some(s) && s.dst.done
  }

  ghost predicate SameMemory(c: Config, s: State) {
    |s.src| == c.pages && forall p: nat :: p < c.pages ==> PageOf(s.dst.memory, p) == s.src[p]
  }

  /** Every completed run moves the memory exactly, if and only if the pages that the
      converging round fetched are carried over, or there is no memory. */
  lemma ExactIffCarried(c: Config)
    ensures (forall s0, acts, s :: Completed(c, s0, acts, s) ==> SameMemory(c, s)) <==> c.carry || c.pages == 0
  {
    forall s0, acts, s | Completed(c, s0, acts, s) && (c.carry || c.pages == 0) ensures SameMemory(c, s) {
      Migrated(c, s0, acts, s);
      StartInv(c, s0);
      RunInv(c, s0, acts, s);
    }
    if !c.carry && c.pages > 0 {
      var s0, acts, s := LosingRun(c);
      assert Completed(c, s0, acts, s) && !SameMemory(c, s);
    }
  }

  // ----- a run that loses page 0

  lemma {:induction false} RunTwice(c: Config, s: State, a: seq<Action>, m: State, b: seq<Action>, t: State)
    requires Run(c, s, a) == Some(m) && Run(c, m, b) == Some(t)
    ensures Run(c, s, a + b) == Some(t)
    decreases |a|
  {
    if a == [] {
      assert a + b == b;
    } else {
      assert (a + b)[1..] == a[1..] + b;
      RunTwice(c, Do(c, s, a[0]).value, a[1..], m, b, t);
    }
  }

  lemma RunOne(c: Config, s: State, acts: seq<Action>, m: State, a: Action, t: State)
    requires Run(c, s, acts) == Some(m) && Do(c, m, a) == Some(t)
    ensures Run(c, s, acts + [a]) == Some(t)
  {
    assert [a][1..] == [];
    assert Run(c, m, [a]) == Some(t);
    RunTwice(c, s, acts, m, [a], t);
  }

  function Filled(x: byte): Page { seq(4096, _ => x) }

  lemma {:induction false} SkipRest(c: Config, s: State) returns (acts: seq<Action>)
    requires Scanning(s) && |s.batch| < BATCH_SIZE && |s.src| == c.pages && s.cursor <= c.pages
    requires forall p: nat :: s.cursor <= p < c.pages ==> MaySkip(s, p)
    ensures Run(c, s, acts) == Some(s.(cursor := c.pages))
    decreases c.pages - s.cursor
  {
    if s.cursor == c.pages {
      acts := [];
      assert s == s.(cursor := c.pages);
    } else {
      var s1 := s.(cursor := s.cursor + 1);
      assert Do(c, s, Skip) == Some(s1);
      forall p: nat | s1.cursor <= p < c.pages ensures MaySkip(s1, p) {
        assert MaySkip(s, p);
      }
      var rest := SkipRest(c, s1);
      acts := [Skip] + rest;
      assert acts[1..] == rest;
    }
  }

  /** The scan is over and nothing is dirty. */
  predicate Idle(c: Config, s: State) {
    && (s.phase.Initial? || s.phase.Sending?) && ScanDone(c, s) && s.out == [] && s.dirty == {}
    && |s.src| == c.pages > 0
  }

  /** The guest fills page 0 with ones, and the next round selects it. */
  lemma SelectPageZero(c: Config, s: State, t: State) returns (acts: seq<Action>)
    requires Idle(c, s) && !Converges(c, {0}, s.round + 1)
    requires t == s.(src := s.src[0 := Filled(1)], phase := Sending, round := s.round + 1, bitmap := {0},
      cursor := 1, batch := [0])
    ensures Run(c, s, acts) == Some(t)
  {
    var s1 := s.(src := s.src[0 := Filled(1)], dirty := {0});
    assert s.dirty + {0} == {0};
    assert Do(c, s, GuestWrite(0, Filled(1))) == Some(s1);
    var s2 := s1.(phase := Sending, round := s.round + 1, bitmap := {0}, dirty := {}, cursor := 0);
    assert Do(c, s1, NextRound) == Some(s2);
    assert s2.batch + [0] == [0];
    assert Do(c, s2, Select) == Some(t);
    assert Run(c, s, []) == Some(s);
    acts := [];
    RunOne(c, s, acts, s, GuestWrite(0, Filled(1)), s1);
    acts := acts + [GuestWrite(0, Filled(1))];
    RunOne(c, s, acts, s1, NextRound, s2);
    acts := acts + [NextRound];
    RunOne(c, s, acts, s2, Select, t);
    acts := acts + [Select];
  }

  /** A round that sends page 0, which the guest has just filled with ones. */
  lemma SendPageZero(c: Config, s: State) returns (acts: seq<Action>, s': State)
    requires Idle(c, s) && !Converges(c, {0}, s.round + 1)
    ensures Run(c, s, acts) == Some(s') && Idle(c, s') && s'.round == s.round + 1
    ensures Target(s') == ApplyPage(Target(s), PageRecord(0, Filled(1)))
  {
    var s3 := s.(src := s.src[0 := Filled(1)], phase := Sending, round := s.round + 1, bitmap := {0}, cursor := 1,
      batch := [0]);
    acts := SelectPageZero(c, s, s3);
    var skips := SkipRest(c, s3);
    var s4 := s3.(cursor := c.pages);
    var s5 := s4.(out := [PageRecord(0, Filled(1))]);
    assert s4.out + [PageRecord(0, Filled(1))] == s5.out;
    assert Do(c, s4, Read(Filled(1))) == Some(s5);
    s' := s5.(wire := s.wire + [Batch(s5.out)], sent := s.sent + 1, batch := [], out := []);
    assert Do(c, s5, Flush) == Some(s');
    TargetRead(s4, s5, PageRecord(0, Filled(1)));
    TargetFlush(s5, s');
    RunTwice(c, s, acts, s3, skips, s4);
    RunOne(c, s, acts + skips, s4, Read(Filled(1)), s5);
    RunOne(c, s, acts + skips + [Read(Filled(1))], s5, Flush, s');
    acts := acts + skips + [Read(Filled(1))] + [Flush];
  }

  /** Rounds until one converges, just after the guest has filled page 0 with twos. */
  lemma {:induction false} UntilConverged(c: Config, s: State) returns (acts: seq<Action>, s': State)
    requires Idle(c, s) && Inv(c, s) && PageOf(Target(s).memory, 0) != Filled(2)
    ensures Run(c, s, acts) == Some(s') && s'.phase.Converged? && s'.dirty == {} && s'.discarded == {0}
    ensures s'.out == [] && s'.batch == [] && |s'.src| == c.pages && s'.src[0] == Filled(2)
    ensures PageOf(Target(s').memory, 0) != Filled(2)
    decreases c.maxRounds - s.round
  {
    if Converges(c, {0}, s.round + 1) {
      var s1 := s.(src := s.src[0 := Filled(2)], dirty := {0});
      assert s.dirty + {0} == {0};
      assert Do(c, s, GuestWrite(0, Filled(2))) == Some(s1);
      s' := s1.(phase := Converged, round := s.round + 1, discarded := {0}, dirty := {});
      assert Do(c, s1, NextRound) == Some(s');
      assert Target(s') == Target(s);
      assert Run(c, s, []) == Some(s);
      RunOne(c, s, [], s, GuestWrite(0, Filled(2)), s1);
      acts := [] + [GuestWrite(0, Filled(2))];
      RunOne(c, s, acts, s1, NextRound, s');
      acts := acts + [NextRound];
    } else {
      var first, m := SendPageZero(c, s);
      RunInv(c, s, first, m);
      PageWritten(Target(s).memory, 0, Filled(1), 0);
      assert Filled(1)[0] != Filled(2)[0];
      var rest;
      rest, s' := UntilConverged(c, m);
      RunTwice(c, s, first, m, rest, s');
      acts := first + rest;
    }
  }

  /** Everything on the wire arrives. */
  lemma {:induction false} DeliverRest(c: Config, s: State) returns (acts: seq<Action>, s': State)
    requires Inv(c, s)
    ensures Run(c, s, acts) == Some(s') && Inv(c, s') && s'.wire == [] && s' == s.(wire := [], dst := s'.dst)
    ensures Target(s') == Target(s)
    decreases |s.wire|
  {
    if s.wire == [] {
      acts, s' := [], s;
    } else {
      var s1 := s.(wire := s.wire[1..], dst := Receive(s.dst, s.wire[0]));
      assert Do(c, s, Deliver) == Some(s1);
      Step(c, s, s1, Deliver);
      TargetDeliver(s, s1);
      var rest;
      rest, s' := DeliverRest(c, s1);
      acts := [Deliver] + rest;
      assert acts[1..] == rest;
    }
  }

  /** From convergence to the end, with nothing written in between. */
  lemma ToTheEnd(c: Config, s: State) returns (acts: seq<Action>, s': State)
    requires !c.carry && s.phase.Converged? && s.dirty == {} && s.out == [] && s.batch == [] && |s.src| == c.pages
    requires Inv(c, s)
    ensures Run(c, s, acts) == Some(s') && s'.dst.done && s'.src == s.src && s'.dst.memory == Target(s).memory
  {
    var s1 := s.(phase := Paused, wire := s.wire + [FinalRound]);
    assert Do(c, s, Pause) == Some(s1);
    var s2 := s1.(phase := Final, bitmap := {}, dirty := {}, cursor := 0);
    assert Do(c, s1, FetchFinal) == Some(s2);
    var skips := SkipRest(c, s2);
    var s3 := s2.(cursor := c.pages);
    var s4 := s3.(phase := Finished, wire := s3.wire + VcpuMessages(s3.vcpus) + [Device(s3.device), Complete]);
    assert Do(c, s3, Finish) == Some(s4);
    assert Run(c, s, []) == Some(s);
    RunOne(c, s, [], s, Pause, s1);
    acts := [] + [Pause];
    RunOne(c, s, acts, s1, FetchFinal, s2);
    acts := acts + [FetchFinal];
    RunTwice(c, s, acts, s2, skips, s3);
    RunOne(c, s, acts + skips, s3, Finish, s4);
    acts := acts + skips + [Finish];
    RunInv(c, s, acts, s4);
    EndTarget(c, s, s1, s3, s4);
    var rest;
    rest, s' := DeliverRest(c, s4);
    RunTwice(c, s, acts, s4, rest, s');
    acts := acts + rest;
  }

  lemma EndTarget(c: Config, s: State, s1: State, s3: State, s4: State)
    requires Inv(c, s) && s.phase.Converged? && s.out == []
    requires s1 == s.(phase := Paused, wire := s.wire + [FinalRound])
    requires s3.wire == s1.wire && s3.dst == s1.dst && s3.out == []
    requires s4 == s3.(phase := Finished, wire := s3.wire + VcpuMessages(s3.vcpus) + [Device(s3.device), Complete])
    ensures Target(s4).memory == Target(s).memory
  {
    TargetSend(s, FinalRound);
    assert Target(s3) == Target(s.(wire := s.wire + [FinalRound]));
    TargetFinish(s3, s4);
  }

  /** Whatever the bounds of the iteration, without carrying there is a run that
      completes with a page different from the source's. */
  lemma LosingRun(c: Config) returns (s0: State, acts: seq<Action>, s: State)
    requires !c.carry && c.pages > 0
    ensures Completed(c, s0, acts, s) && |s.src| == c.pages && PageOf(s.dst.memory, 0) != s.src[0]
  {
    s0 := State(seq(c.pages, _ => ZeroPage()), {}, [], [], Initial, 0, {}, [], [], 0, 0, {}, [],
                Receiver(Zeros(4096 * (c.pages + c.guard)), 0, [], None, false, false));
    StartInv(c, s0);
    acts := SkipRest(c, s0);
    var s1 := s0.(cursor := c.pages);
    RunInv(c, s0, acts, s1);
    assert Target(s1) == Target(s0) == s0.dst;
    assert PageOf(s0.dst.memory, 0)[0] == 0 && Filled(2)[0] == 2;
    var more, s2 := UntilConverged(c, s1);
    RunInv(c, s1, more, s2);
    RunTwice(c, s0, acts, s1, more, s2);
    acts := acts + more;
    var rest;
    rest, s := ToTheEnd(c, s2);
    RunTwice(c, s0, acts, s2, rest, s);
    acts := acts + rest;
  }
}
