/** Pre-copy live migration (src/migration/mod.rs) as interleaved steps of the
    guest, the sender and the receiver.

    The guest writes whenever it is not paused, and every write is logged.  The
    sender selects pages into a batch, and reads them only when the batch is
    encoded.  A read that overlaps a guest write may return anything, but then the
    page is in the dirty log. */
module Migration {
  import opened Bytes
  import opened MigrationWire

  /** Pages of guest memory, extra pages that the receiver allocates, the two
      bounds of the iteration, and whether the pages that the converging round
      fetched are carried over into the final round.  The code does not. */
  datatype Config = Config(pages: nat, guard: nat, threshold: nat, maxRounds: nat, carry: bool)

  datatype Message =
    | Batch(pages: seq<PageRecord>) | FinalRound | Vcpu(id: nat,
      state: VcpuState) | Device(config: seq<byte>) | Complete

  const BATCH_SIZE := 64

  // ----- the receiver

  datatype Receiver = Receiver(
    memory: seq<byte>, pages: nat, vcpus: seq<VcpuState>, device: Option<seq<byte>>, gotFinal: bool, done: bool)

  /** A page that does not fit the memory is skipped. */
  function ApplyPage(r: Receiver, q: PageRecord): Receiver {
    if q.offset + 4096 <= |r.memory| then r.(memory := Splice(r.memory, q.offset, q.data), pages := r.pages + 1) else r
  }

  function ApplyPages(r: Receiver, qs: seq<PageRecord>): Receiver {
    if qs == [] then r else ApplyPage(ApplyPages(r, qs[..|qs| - 1]), qs[|qs| - 1])
  }

  function Receive(r: Receiver, m: Message): Receiver {
    match m
    case Batch(qs) => ApplyPages(r, qs)
    case FinalRound => r.(gotFinal := true)
    case Vcpu(_, v) => r.(vcpus := r.vcpus + [Registers(v.regs, v.sregs)])
    case Device(d) => r.(device := Some(d))
    case Complete => r.(done := true)
  }

  function ReceiveAll(r: Receiver, ms: seq<Message>): Receiver
    decreases |ms|
  {
    if ms == [] then r else ReceiveAll(Receive(r, ms[0]), ms[1..])
  }

  // ----- the whole system

  datatype Phase = Initial | Sending | Converged | Paused | Final | Finished

  datatype State = State(
    src: seq<Page>, dirty: set<nat>, vcpus: seq<VcpuState>, device: seq<byte>,
    phase: Phase, cursor: nat, bitmap: set<nat>, batch: seq<nat>, out: seq<PageRecord>,
    round: nat, sent: nat, discarded: set<nat>,
    wire: seq<Message>, dst: Receiver)

  datatype Action =
    | GuestWrite(page: nat, data: Page)
    | GuestRun(vcpus: seq<VcpuState>, device: seq<byte>)
    | Skip | Select | Read(value: Page) | Flush
    | NextRound | Pause | FetchFinal | Finish
    | Deliver

  function ZeroPage(): Page { Zeros(4096) }

  predicate Running(s: State) { s.phase.Initial? || s.phase.Sending? || s.phase.Converged? }

  predicate Scanning(s: State) { s.phase.Initial? || s.phase.Sending? || s.phase.Final? }

  /** The scan may find that page p is not to be sent, or that it is.  In the
      initial scan the test reads the page, so that either may happen while the
      guest writes it. */
  predicate MaySkip(s: State, p: nat)
    requires p < |s.src|
  {
    if s.phase.Initial? then s.src[p] == ZeroPage() || p in s.dirty else p !in s.bitmap
  }

  predicate MaySelect(s: State, p: nat)
    requires p < |s.src|
  {
    if s.phase.Initial? then s.src[p] != ZeroPage() || p in s.dirty else p in s.bitmap
  }

  /** The batch is full, or the scan is over. */
  predicate MustSend(c: Config, s: State) { |s.batch| >= BATCH_SIZE || s.cursor == c.pages }

  predicate ScanDone(c: Config, s: State) { s.cursor == c.pages && s.batch == [] }

  /** How many pages below n are in the bitmap. */
  function CountBelow(bitmap: set<nat>, n: nat): nat {
    if n == 0 then 0 else CountBelow(bitmap, n - 1) + if n - 1 in bitmap then 1 else 0
  }

  predicate Converges(c: Config, bitmap: set<nat>, round: nat) {
    CountBelow(bitmap, c.pages) < c.threshold || round >= c.maxRounds
  }

  function VcpuMessages(vs: seq<VcpuState>): seq<Message> {
    seq(|vs|, i requires 0 <= i < |vs| => Vcpu(i, vs[i]))
  }

  /** One step; None if it is not enabled. */
  function Do(c: Config, s: State, a: Action): Option<State> {
    match a
    case GuestWrite(p, d) =>
      if Running(s) && p < |s.src| then Some(s.(src := s.src[p := d], dirty := s.dirty + {p})) else None
    case GuestRun(v, d) =>
      if Running(s) then Some(s.(vcpus := v, device := d)) else None
    case Skip =>
      if Scanning(s) && s.cursor < |s.src| && |s.batch| < BATCH_SIZE && MaySkip(s, s.cursor)
      then Some(s.(cursor := s.cursor + 1)) else None
    case Select =>
      if Scanning(s) && s.cursor < |s.src| && |s.batch| < BATCH_SIZE && MaySelect(s, s.cursor)
      then Some(s.(cursor := s.cursor + 1, batch := s.batch + [s.cursor])) else None
    case Read(d) =>
      if Scanning(s) && MustSend(c, s) && |s.out| < |s.batch| && s.batch[|s.out|] < |s.src|
         && (d == s.src[s.batch[|s.out|]] || s.batch[|s.out|] in s.dirty)
      then Some(s.(out := s.out + [PageRecord(4096 * s.batch[|s.out|], d)])) else None
    case Flush =>
      if Scanning(s) && MustSend(c, s) && |s.out| == |s.batch| > 0
      then Some(s.(wire := s.wire + [Batch(s.out)], sent := s.sent + |s.batch|, batch := [], out := [])) else None
    case NextRound =>
      if (s.phase.Initial? || s.phase.Sending?) && ScanDone(c, s) then
        if Converges(c, s.dirty, s.round + 1)
        then Some(s.(phase := Converged, round := s.round + 1, discarded := s.dirty, dirty := {}))
        else Some(s.(phase := Sending, round := s.round + 1, bitmap := s.dirty, dirty := {}, cursor := 0))
      else None
    case Pause =>
      if s.phase.Converged? then Some(s.(phase := Paused, wire := s.wire + [FinalRound])) else None
    case FetchFinal =>
      if s.phase.Paused?
      then Some(s.(phase := Final, bitmap := if c.carry then s.dirty + s.discarded
        else s.dirty, dirty := {}, cursor := 0))
      else None
    case Finish =>
      if s.phase.Final? && ScanDone(c, s)
      then Some(s.(phase := Finished, wire := s.wire + VcpuMessages(s.vcpus) + [Device(s.device), Complete]))
      else None
    case Deliver =>
      if s.wire != [] && !s.dst.done then Some(s.(wire := s.wire[1..], dst := Receive(s.dst, s.wire[0]))) else None
  }

  /** A run: the actions one after the other. */
  function Run(c: Config, s: State, acts: seq<Action>): Option<State>
    decreases |acts|
  {
    if acts == [] then Some(s) else
    match Do(c, s, acts[0])
    case None => None
    case Some(s') => Run(c, s', acts[1..])
  }

  /** Just before the first page is sent: the receiver's memory is zero.  The dirty
      log may hold anything. */
  predicate Start(c: Config, s: State) {
    && |s.src| == c.pages && s.phase.Initial? && s.cursor == 0 && s.batch == [] && s.out == []
    && s.round == 0 && s.sent == 0 && s.discarded == {} && s.wire == []
    && s.dst == Receiver(Zeros(4096 * (c.pages + c.guard)), 0, [], None, false, false)
  }

  // ----- what the receiver will hold

  /** The receiver once everything on the wire and in the encoded part of the batch
      has arrived. */
  function Target(s: State): Receiver { ApplyPages(ReceiveAll(s.dst, s.wire), s.out) }

  lemma {:induction false} ReceiveLast(r: Receiver, ms: seq<Message>, m: Message)
    ensures ReceiveAll(r, ms + [m]) == Receive(ReceiveAll(r, ms), m)
    decreases |ms|
  {
    if ms == [] {
      assert ms + [m] == [m];
      assert ReceiveAll(Receive(r, m), [m][1..]) == Receive(r, m);
    } else {
      assert (ms + [m])[1..] == ms[1..] + [m];
      ReceiveLast(Receive(r, ms[0]), ms[1..], m);
    }
  }

  lemma TargetSend(s: State, m: Message)
    requires s.out == []
    ensures Target(s.(wire := s.wire + [m])) == Receive(Target(s), m)
  {
    ReceiveLast(s.dst, s.wire, m);
  }

  lemma TargetFlush(s: State, s': State)
    requires s'.wire == s.wire + [Batch(s.out)] && s'.out == [] && s'.dst == s.dst
    ensures Target(s') == Target(s)
  {
    ReceiveLast(s.dst, s.wire, Batch(s.out));
  }

  lemma TargetRead(s: State, s': State, q: PageRecord)
    requires s'.out == s.out + [q] && s'.wire == s.wire && s'.dst == s.dst
    ensures Target(s') == ApplyPage(Target(s), q)
  {
    assert (s.out + [q])[..|s.out + [q]| - 1] == s.out;
  }

  lemma TargetDeliver(s: State, s': State)
    requires s.wire != [] && s'.wire == s.wire[1..] && s'.dst == Receive(s.dst, s.wire[0]) && s'.out == s.out
    ensures Target(s') == Target(s)
  {
  }

  lemma PageWritten(m: seq<byte>, p: nat, d: Page, q: nat)
    requires 4096 * p + 4096 <= |m|
    ensures PageOf(Splice(m, 4096 * p, d), q) == if q == p then d else PageOf(m, q)
  {
  }

  // ----- the invariant

  /** Why the receiver's page p may yet differ from the source's. */
  predicate Stale(c: Config, s: State, p: nat) {
    || p in s.dirty
    || (|s.out| <= |s.batch| && p in s.batch[|s.out|..])
    || (s.phase.Initial? && s.cursor <= p)
    || ((s.phase.Sending? || s.phase.Final?) && s.cursor <= p && p in s.bitmap)
    || ((s.phase.Converged? || s.phase.Paused?) && p in s.discarded)
    || Lost(c, s, p)
  }

  /** Page p was in the bitmap that the converging round threw away, and was not
      dirtied again before the pause. */
  predicate Lost(c: Config, s: State, p: nat) {
    (s.phase.Final? || s.phase.Finished?) && !c.carry && p in s.discarded && p !in s.bitmap
  }

  predicate Batched(c: Config, s: State) {
    && |s.src| == c.pages && s.cursor <= c.pages && |s.out| <= |s.batch| <= BATCH_SIZE
    && (forall k :: 0 <= k < |s.batch| ==> s.batch[k] < s.cursor)
    && (!Scanning(s) ==> s.batch == [] && s.out == [])
  }

  ghost predicate Fresh(c: Config, s: State, t: Receiver) {
    |s.src| == c.pages && forall p: nat :: p < c.pages ==> PageOf(t.memory, p) == s.src[p] || Stale(c, s, p)
  }

  /** Pages that the initial scan has not reached were never sent. */
  ghost predicate Untouched(c: Config, s: State, t: Receiver) {
    s.phase.Initial? ==> forall p: nat :: s.cursor <= p < c.pages ==> PageOf(t.memory, p) == ZeroPage()
  }

  predicate Control(c: Config, s: State, t: Receiver) {
    && |t.memory| == 4096 * (c.pages + c.guard) && t.pages == s.sent + |s.out|
    && (s.phase.Final? || s.phase.Finished? ==> s.dirty == {} && (c.carry ==> s.discarded <= s.bitmap))
    && (t.gotFinal <==> s.phase.Paused? || s.phase.Final? || s.phase.Finished?)
    && (t.done <==> s.phase.Finished?)
    && (s.phase.Finished? ==> t.vcpus == Arrived(s.vcpus) && t.device == Some(s.device))
    && (!s.phase.Finished? ==> t.vcpus == [])
  }

  function Arrived(vs: seq<VcpuState>): seq<VcpuState> {
    seq(|vs|, i requires 0 <= i < |vs| => Registers(vs[i].regs, vs[i].sregs))
  }

  /** Complete is the last message. */
  ghost predicate Ordered(s: State) {
    && (forall k :: 0 <= k < |s.wire| && s.wire[k].Complete? ==> k == |s.wire| - 1 && s.phase.Finished?)
    && (s.dst.done ==> s.wire == [] && s.phase.Finished?)
  }

  predicate Bounded(c: Config, s: State) {
    && (s.phase.Initial? ==> s.round == 0) && (s.phase.Sending? ==> s.round < c.maxRounds)
    && s.round <= (if c.maxRounds > 1 then c.maxRounds else 1)
  }

  ghost predicate Inv(c: Config, s: State) {
    Batched(c, s) && Fresh(c, s, Target(s)) && Untouched(c, s, Target(s)) && Control(c, s, Target(s)) && Ordered(s) &&
      Bounded(c, s)
  }

  lemma StartInv(c: Config, s: State)
    requires Start(c, s)
    ensures Inv(c, s)
  {
    forall p: nat | p < c.pages ensures PageOf(Target(s).memory, p) == ZeroPage() {
    }
  }

  // ----- every step keeps it

  lemma GuestStep(c: Config, s: State, s': State, a: Action)
    requires Inv(c, s) && (a.GuestWrite? || a.GuestRun?) && Do(c, s, a) == Some(s')
    ensures Inv(c, s')
  {
    assert Target(s') == Target(s);
  }

  lemma ScanStep(c: Config, s: State, s': State, a: Action)
    requires Inv(c, s) && (a.Skip? || a.Select?) && Do(c, s, a) == Some(s')
    ensures Inv(c, s')
  {
    assert Target(s') == Target(s);
    forall p: nat | p < c.pages ensures PageOf(Target(s).memory, p) == s.src[p] || Stale(c, s', p) {
      if a.Select? {
        assert s'.batch[|s.out|..] == s.batch[|s.out|..] + [s.cursor];
      }
    }
  }

  /** The page that was read is up to date, or dirty; the others are as before. */
  lemma PageRead(c: Config, s: State, s': State, d: Page, b: nat, m: seq<byte>, p: nat)
    requires Batched(c, s) && |s.out| < |s.batch| && b == s.batch[|s.out|] && 4096 * b + 4096 <= |m| && p < c.pages
    requires s' == s.(out := s.out + [PageRecord(4096 * b, d)]) && (d == s.src[b] || b in s.dirty)
    requires PageOf(m, p) == s.src[p] || Stale(c, s, p)
    ensures PageOf(Splice(m, 4096 * b, d), p) == s.src[p] || Stale(c, s', p)
    ensures s.cursor <= p ==> PageOf(Splice(m, 4096 * b, d), p) == PageOf(m, p)
  {
    PageWritten(m, b, d, p);
    assert s.batch[|s.out|..] == [b] + s.batch[|s'.out|..];
  }

  lemma ReadStep(c: Config, s: State, s': State, d: Page)
    requires Inv(c, s) && Do(c, s, Read(d)) == Some(s')
    ensures Inv(c, s')
  {
    var t, b := Target(s), s.batch[|s.out|];
    TargetRead(s, s', PageRecord(4096 * b, d));
    forall p: nat | p < c.pages
      ensures PageOf(Target(s').memory, p) == s.src[p] || Stale(c, s', p)
      ensures s.cursor <= p ==> PageOf(Target(s').memory, p) == PageOf(t.memory, p)
    {
      PageRead(c, s, s', d, b, t.memory, p);
    }
  }

  lemma FlushStep(c: Config, s: State, s': State)
    requires Inv(c, s) && Do(c, s, Flush) == Some(s')
    ensures Inv(c, s')
  {
    TargetFlush(s, s');
  }

  lemma RoundStep(c: Config, s: State, s': State)
    requires Inv(c, s) && Do(c, s, NextRound) == Some(s')
    ensures Inv(c, s')
  {
    assert Target(s') == Target(s);
  }

  lemma PauseStep(c: Config, s: State, s': State)
    requires Inv(c, s) && Do(c, s, Pause) == Some(s')
    ensures Inv(c, s')
  {
    TargetSend(s, FinalRound);
    assert Target(s') == Target(s.(wire := s.wire + [FinalRound]));
  }

  lemma FetchStep(c: Config, s: State, s': State)
    requires Inv(c, s) && Do(c, s, FetchFinal) == Some(s')
    ensures Inv(c, s')
  {
    assert Target(s') == Target(s);
  }

  lemma {:induction false} ReceiveVcpus(r: Receiver, ms: seq<Message>, vs: seq<VcpuState>, n: nat)
    requires n <= |vs|
    ensures ReceiveAll(r, ms + VcpuMessages(vs)[..n]) ==
      ReceiveAll(r, ms).(vcpus := ReceiveAll(r, ms).vcpus + Arrived(vs)[..n])
    decreases n
  {
    var v := VcpuMessages(vs);
    if n == 0 {
      assert ms + v[..0] == ms;
      assert ReceiveAll(r, ms).vcpus + Arrived(vs)[..0] == ReceiveAll(r, ms).vcpus;
    } else {
      ReceiveVcpus(r, ms, vs, n - 1);
      assert ms + v[..n] == (ms + v[..n - 1]) + [v[n - 1]];
      ReceiveLast(r, ms + v[..n - 1], v[n - 1]);
      assert Arrived(vs)[..n] == Arrived(vs)[..n - 1] + [Registers(vs[n - 1].regs, vs[n - 1].sregs)];
    }
  }

  lemma TargetFinish(s: State, s': State)
    requires s.out == [] && s'.out == [] && s'.dst == s.dst && Target(s).vcpus == []
    requires s'.wire == s.wire + VcpuMessages(s.vcpus) + [Device(s.device), Complete]
    ensures Target(s') == Target(s).(vcpus := Arrived(s.vcpus), device := Some(s.device), done := true)
  {
    var v := VcpuMessages(s.vcpus);
    var w := s.wire + v;
    assert s'.wire == (w + [Device(s.device)]) + [Complete];
    ReceiveLast(s.dst, w + [Device(s.device)], Complete);
    ReceiveLast(s.dst, w, Device(s.device));
    ReceiveVcpus(s.dst, s.wire, s.vcpus, |s.vcpus|);
    assert v[..|s.vcpus|] == v && Arrived(s.vcpus)[..|s.vcpus|] == Arrived(s.vcpus);
  }

  lemma FinishStep(c: Config, s: State, s': State)
    requires Inv(c, s) && Do(c, s, Finish) == Some(s')
    ensures Inv(c, s')
  {
    TargetFinish(s, s');
  }

  lemma DeliverStep(c: Config, s: State, s': State)
    requires Inv(c, s) && Do(c, s, Deliver) == Some(s')
    ensures Inv(c, s')
  {
    TargetDeliver(s, s');
    OnlyCompleteEnds(s.dst, s.wire[0]);
  }

  lemma {:induction false} PagesNeverEnd(r: Receiver, qs: seq<PageRecord>)
    ensures ApplyPages(r, qs).done == r.done
  {
    if qs != [] {
      PagesNeverEnd(r, qs[..|qs| - 1]);
    }
  }

  lemma OnlyCompleteEnds(r: Receiver, m: Message)
    ensures Receive(r, m).done <==> r.done || m.Complete?
  {
    if m.Batch? {
      PagesNeverEnd(r, m.pages);
    }
  }

  lemma Step(c: Config, s: State, s': State, a: Action)
    requires Inv(c, s) && Do(c, s, a) == Some(s')
    ensures Inv(c, s')
  {
    match a
    case GuestWrite(_, _) => GuestStep(c, s, s', a);
    case GuestRun(_, _) => GuestStep(c, s, s', a);
    case Skip => ScanStep(c, s, s', a);
    case Select => ScanStep(c, s, s', a);
    case Read(d) => ReadStep(c, s, s', d);
    case Flush => FlushStep(c, s, s');
    case NextRound => RoundStep(c, s, s');
    case Pause => PauseStep(c, s, s');
    case FetchFinal => FetchStep(c, s, s');
    case Finish => FinishStep(c, s, s');
    case Deliver => DeliverStep(c, s, s');
  }

  lemma {:induction false} RunInv(c: Config, s: State, acts: seq<Action>, s': State)
    requires Inv(c, s) && Run(c, s, acts) == Some(s')
    ensures Inv(c, s')
    decreases |acts|
  {
    if acts != [] {
      Step(c, s, Do(c, s, acts[0]).value, acts[0]);
      RunInv(c, Do(c, s, acts[0]).value, acts[1..], s');
    }
  }

  // ----- when the rounds end

  /** The pages of a bitmap that lie in memory. */
  function Inside(bitmap: set<nat>, pages: nat): set<nat> { set p | p in bitmap && p < pages }

  lemma {:induction false} CountIsSize(bitmap: set<nat>, n: nat)
    ensures CountBelow(bitmap, n) == |Inside(bitmap, n)|
  {
    if n == 0 {
      assert Inside(bitmap, 0) == {};
    } else {
      CountIsSize(bitmap, n - 1);
      if n - 1 in bitmap {
        assert Inside(bitmap, n) == Inside(bitmap, n - 1) + {n - 1};
      } else {
        assert Inside(bitmap, n) == Inside(bitmap, n - 1);
      }
    }
  }

  predicate RoundsOver(s: State) { s.phase.Converged? || s.phase.Paused? || s.phase.Final? || s.phase.Finished? }

  /** While the sender iterates, the bitmap that it sends is not below the threshold, and
      there are rounds left; when it has stopped, the bitmap that it threw away is
      below the threshold, or the rounds are used up. */
  predicate Paced(c: Config, s: State) {
    && (s.phase.Sending? ==> |set p | p in s.bitmap && p < c.pages| >= c.threshold && s.round < c.maxRounds)
    && (RoundsOver(s) ==> |set p | p in s.discarded && p < c.pages| < c.threshold || s.round >= c.maxRounds)
  }

  lemma PacedStep(c: Config, s: State, s': State, a: Action)
    requires Paced(c, s) && Do(c, s, a) == Some(s')
    ensures Paced(c, s')
  {
    if a.NextRound? {
      CountIsSize(s.dirty, c.pages);
      assert (set p | p in s.dirty && p < c.pages) == Inside(s.dirty, c.pages);
    }
  }

  function Rounds(acts: seq<Action>): nat {
    if acts == [] then 0 else Rounds(acts[1..]) + if acts[0].NextRound? then 1 else 0
  }

  /** In every run the sender stops at the first fetch that finds fewer dirty pages than the
      threshold, or at the last round, and at no other; `round` counts the fetches. */
  lemma {:induction false} RunPaced(c: Config, s: State, acts: seq<Action>, s': State)
    requires Paced(c, s) && Run(c, s, acts) == Some(s')
    ensures Paced(c, s') && s'.round == s.round + Rounds(acts)
    decreases |acts|
  {
    if acts != [] {
      var m := Do(c, s, acts[0]).value;
      PacedStep(c, s, m, acts[0]);
      RunPaced(c, m, acts[1..], s');
    }
  }

  /** Where the scan of a round is done, the number of dirty pages and of rounds decide,
      and nothing else, whether another round follows. */
  lemma NextRoundDecides(c: Config, s: State)
    requires (s.phase.Initial? || s.phase.Sending?) && s.cursor == c.pages && s.batch == []
    ensures Do(c, s, NextRound).Some?
    ensures Do(c, s, NextRound).value.phase.Converged? <==>
      |set p | p in s.dirty && p < c.pages| < c.threshold || s.round + 1 >= c.maxRounds
    ensures !Do(c, s, NextRound).value.phase.Converged? ==>
      Do(c, s, NextRound).value.phase.Sending? && Do(c, s, NextRound).value.bitmap == s.dirty
  {
    CountIsSize(s.dirty, c.pages);
    assert (set p | p in s.dirty && p < c.pages) == Inside(s.dirty, c.pages);
  }

  /** What every completed migration guarantees: memory agrees on every page except
      those that were thrown away and not dirtied again, and on every page when
      the bitmap is carried over; fewer pages than the threshold differ, unless the
      rounds were used up; the page counts agree; the registers of every vCPU and the
      device state arrive; and the number of rounds is bounded. */
  lemma Migrated(c: Config, s0: State, acts: seq<Action>, s: State)
    requires Start(c, s0) && Run(c, s0, acts) == Some(s) && s.dst.done
    ensures |s.src| == c.pages
    ensures forall p: nat :: p < c.pages ==>
      PageOf(s.dst.memory, p) == s.src[p] || (!c.carry && p in s.discarded && p !in s.bitmap)
    ensures s.dst.pages == s.sent && s.dst.gotFinal && s.wire == []
    ensures s.dst.vcpus == Arrived(s.vcpus) && s.dst.device == Some(s.device)
    ensures s.round <= (if c.maxRounds > 1 then c.maxRounds else 1)
    ensures |set p: nat | p < c.pages && PageOf(s.dst.memory, p) != s.src[p]| < c.threshold || s.round >= c.maxRounds
  {
    StartInv(c, s0);
    RunInv(c, s0, acts, s);
    RunPaced(c, s0, acts, s);
    var lost := set p: nat | p < c.pages && PageOf(s.dst.memory, p) != s.src[p];
    var thrown := set p | p in s.discarded && p < c.pages;
    FewerLost(lost, thrown);
  }

  lemma FewerLost(a: set<nat>, b: set<nat>)
    requires a <= b
    ensures |a| <= |b|
    decreases |a|
  {
    if a != {} {
      var x :| x in a;
      FewerLost(a - {x}, b - {x});
    }
  }
}
