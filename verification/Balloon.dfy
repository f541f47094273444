/** The balloon policy over time (`BalloonPolicy` in src/memory/balloon.rs). */
module Balloon {

  /** Nanoseconds in a second; instants are counted in nanoseconds. */
  const SECOND := 1_000_000_000

  datatype Action = Inflate(pages: nat) | Deflate(pages: nat) | Hold

  datatype Policy = Policy(
    pages: nat, max: nat, floor: nat, lastActive: nat, lastDeflate: nat, transitions: seq<nat>, active: bool)

  datatype Report = Report(active: bool, available: real, now: nat)

  /** `duration_since`, which is zero for a later instant. */
  function Since(now: nat, then_: nat): nat { if now >= then_ then now - then_ else 0 }

  /** `retain(|t| *t > cutoff)` */
  function Recent(ts: seq<nat>, cutoff: int): seq<nat> {
    if ts == [] then [] else Recent(ts[..|ts| - 1], cutoff) + if ts[|ts| - 1] > cutoff then [ts[|ts| - 1]] else []
  }

  function Cooldown(p: Policy): nat { if |p.transitions| >= 3 then 180 * SECOND else 60 * SECOND }

  /** The pages to reclaim after being idle for so long, if any. */
  function TargetPages(max: nat, idle: nat): nat {
    if idle > 300 * SECOND then max
    else if idle > 120 * SECOND then max / 2
    else if idle > 30 * SECOND then max / 4
    else 0
  }

  /** The policy after the transition, if there is one, has been recorded. */
  function Noted(p: Policy, active: bool, now: nat): Policy {
    p.(transitions := if active == p.active then p.transitions else Recent(p.transitions + [now], now - 300 * SECOND),
       active := active)
  }

  /** The idle guest's balloon grows to this size. */
  function Grown(p: Policy, r: Report): nat {
    if Since(r.now, p.lastDeflate) < Cooldown(p) || r.available < 25.0 then p.pages
    else
      var target := TargetPages(p.max, Since(r.now, p.lastActive));
      if target > p.pages then target else p.pages
  }

  function Next(p: Policy, r: Report): Policy {
    var q := Noted(p, r.active, r.now);
    if r.active then q.(lastActive := r.now, pages := 0, lastDeflate := if p.pages > 0 then r.now else p.lastDeflate)
    else q.(pages := Grown(q, r))
  }

  function ActionOf(p: Policy, r: Report): Action {
    var n := Next(p, r).pages;
    if n > p.pages then Inflate(n - p.pages) else if n < p.pages then Deflate(p.pages - n) else Hold
  }

  function Fresh(total: nat, floorMb: nat, now: nat): Policy {
    var floor := floorMb * 256;
    Policy(0, if total > floor then total - floor else 0, floor, now, now, [], true)
  }

  class BalloonPolicy {
    var balloonPages: nat
    var maxReclaimable: nat
    var floorPages: nat
    var lastActive: nat
    var lastDeflate: nat
    var transitions: seq<nat>
    var active: bool

    ghost function P(): Policy
      reads this
    {
      Policy(balloonPages, maxReclaimable, floorPages, lastActive, lastDeflate, transitions, active)
    }

    constructor (total: nat, floorMb: nat, now: nat)
      ensures P() == Fresh(total, floorMb, now)
    {
      floorPages := (floorMb * 1024 * 1024) / 4096;
      maxReclaimable := if total > (floorMb * 1024 * 1024) / 4096 then total - (floorMb * 1024 * 1024) / 4096 else 0;
      balloonPages, lastActive, lastDeflate, transitions, active := 0, now, now, [], true;
    }

    /** Drop the transitions up to the cutoff. */
    method Retain(cutoff: int)
      modifies this`transitions
      ensures transitions == Recent(old(transitions), cutoff)
    {
      ghost var ts := transitions;
      var kept: seq<nat> := [];
      for k := 0 to |transitions|
        invariant transitions == ts && kept == Recent(ts[..k], cutoff)
      {
        assert ts[..k + 1][..k] == ts[..k];
        if transitions[k] > cutoff {
          kept := kept + [transitions[k]];
        }
      }
      assert ts[..|ts|] == ts;
      transitions := kept;
    }

    method CooldownDuration() returns (d: nat)
      ensures d == Cooldown(P())
    {
      d := if |transitions| >= 3 then 180 * SECOND else 60 * SECOND;
    }

    /** Record a change of state. */
    method Note(nowActive: bool, now: nat)
      modifies this`transitions, this`active
      ensures P() == Noted(old(P()), nowActive, now)
    {
      if nowActive != active {
        transitions := transitions + [now];
        Retain(now - 300 * SECOND);
      }
      active := nowActive;
    }

    /** `report_activity_with_mem` at instant `now` */
    method ReportActivity(nowActive: bool, available: real, now: nat) returns (a: Action)
      modifies this
      ensures P() == Next(old(P()), Report(nowActive, available, now))
      ensures a == ActionOf(old(P()), Report(nowActive, available, now))
    {
      Note(nowActive, now);
      if active {
        lastActive := now;
        if balloonPages > 0 {
          var deflate := balloonPages;
          balloonPages := 0;
          lastDeflate := now;
          return Deflate(deflate);
        }
        return Hold;
      }
      a := Grow(available, now);
    }

    /** The part for an idle guest. */
    method Grow(available: real, now: nat) returns (a: Action)
      modifies this`balloonPages
      ensures balloonPages == Grown(old(P()), Report(false, available, now)) >= old(balloonPages)
      ensures a == if balloonPages > old(balloonPages) then Inflate(balloonPages - old(balloonPages)) else Hold
    {
      var idle := Since(now, lastActive);
      var cooldown := CooldownDuration();
      if Since(now, lastDeflate) < cooldown {
        return Hold;
      }
      if available < 25.0 {
        return Hold;
      }
      var target;
      if idle > 300 * SECOND {
        target := maxReclaimable;
      } else if idle > 120 * SECOND {
        target := maxReclaimable / 2;
      } else if idle > 30 * SECOND {
        target := maxReclaimable / 4;
      } else {
        return Hold;
      }
      if target > balloonPages {
        var inflate := target - balloonPages;
        balloonPages := target;
        return Inflate(inflate);
      }
      return Hold;
    }
  }

  // ----- runs

  /** The policy after a run of reports. */
  function After(p: Policy, rs: seq<Report>): Policy {
    if rs == [] then p else Next(After(p, rs[..|rs| - 1]), rs[|rs| - 1])
  }

  /** The action that the last report of a run causes. */
  function LastAction(p: Policy, rs: seq<Report>): Action
    requires rs != []
  {
    ActionOf(After(p, rs[..|rs| - 1]), rs[|rs| - 1])
  }

  /** What an action adds to the balloon. */
  function Change(a: Action): int {
    if a.Inflate? then a.pages else if a.Deflate? then 0 - a.pages else 0
  }

  /** Pages inflated minus pages deflated. */
  function Balance(p: Policy, rs: seq<Report>): int {
    if rs == [] then 0 else Balance(p, rs[..|rs| - 1]) + Change(LastAction(p, rs))
  }

  /** When the balloon was last deflated: the instant of the last Deflate action, or the
      beginning. */
  function LastDeflation(p: Policy, rs: seq<Report>, start: nat): nat {
    if rs == [] then start
    else if LastAction(p, rs).Deflate? then rs[|rs| - 1].now
    else LastDeflation(p, rs[..|rs| - 1], start)
  }

  /** When the guest last reported activity. */
  function LastActivity(rs: seq<Report>, start: nat): nat {
    if rs == [] then start
    else if rs[|rs| - 1].active then rs[|rs| - 1].now
    else LastActivity(rs[..|rs| - 1], start)
  }

  /** The last reported state; a guest starts active. */
  function LastState(rs: seq<Report>): bool { if rs == [] then true else rs[|rs| - 1].active }

  /** The instants at which the reported state changed. */
  function Changes(rs: seq<Report>): seq<nat> {
    if rs == [] then [] else
    Changes(rs[..|rs| - 1]) + if rs[|rs| - 1].active != LastState(rs[..|rs| - 1]) then [rs[|rs| - 1].now] else []
  }

  ghost predicate Ordered(rs: seq<Report>, start: nat) {
    && (forall i :: 0 <= i < |rs| ==> start <= rs[i].now)
    && forall i, j :: 0 <= i < j < |rs| ==> rs[i].now <= rs[j].now
  }

  predicate Level(pages: nat, max: nat) { pages == 0 || pages == max / 4 || pages == max / 2 || pages == max }

  lemma {:induction false} RecentAgain(ts: seq<nat>, c: int, c': int)
    requires c <= c'
    ensures Recent(Recent(ts, c), c') == Recent(ts, c')
  {
    if ts != [] {
      var n, x := |ts| - 1, ts[|ts| - 1];
      RecentAgain(ts[..n], c, c');
      if x > c {
        RecentLast(Recent(ts[..n], c), x, c');
      } else {
        assert Recent(ts, c) == Recent(ts[..n], c);
      }
    }
  }

  lemma RecentLast(ts: seq<nat>, x: nat, c: int)
    ensures Recent(ts + [x], c) == Recent(ts, c) + if x > c then [x] else []
  {
    assert (ts + [x])[..|ts|] == ts;
  }

  lemma {:induction false} ChangesBelow(rs: seq<Report>, start: nat, k: nat)
    requires Ordered(rs, start) && k < |Changes(rs)|
    ensures rs != [] && Changes(rs)[k] <= rs[|rs| - 1].now
  {
    var n := |rs| - 1;
    if k < |Changes(rs[..n])| {
      ChangesBelow(rs[..n], start, k);
    }
  }

  /** A run from a fresh policy: what its fields mean in terms of the reports. */
  lemma {:induction false} RunMeans(total: nat, floorMb: nat, start: nat, rs: seq<Report>)
    requires Ordered(rs, start)
    ensures var p := After(Fresh(total, floorMb, start), rs);
      && p.pages == Balance(Fresh(total, floorMb, start), rs) && Level(p.pages, p.max)
      && p.max == Fresh(total, floorMb, start).max && p.active == LastState(rs)
      && (LastState(rs) ==> p.pages == 0)
      && p.lastDeflate == LastDeflation(Fresh(total, floorMb, start), rs, start)
      && p.lastActive == LastActivity(rs, start)
  {
    if rs != [] {
      RunMeans(total, floorMb, start, rs[..|rs| - 1]);
    }
  }

  /** Of a list of instants, those within five minutes before the last one. */
  function Kept(cs: seq<nat>): seq<nat> {
    if cs == [] then [] else Recent(cs, cs[|cs| - 1] - 300 * SECOND)
  }

  lemma KeptNext(cs: seq<nat>, now: nat)
    requires cs != [] ==> cs[|cs| - 1] <= now
    ensures Recent(Kept(cs) + [now], now - 300 * SECOND) == Kept(cs + [now])
  {
    var c := now - 300 * SECOND;
    RecentLast(Kept(cs), now, c);
    RecentLast(cs, now, c);
    if cs != [] {
      RecentAgain(cs, cs[|cs| - 1] - 300 * SECOND, c);
    }
    KeptLast(cs, now);
  }

  lemma KeptLast(cs: seq<nat>, now: nat)
    ensures Kept(cs + [now]) == Recent(cs + [now], now - 300 * SECOND)
  {
    assert (cs + [now])[|cs + [now]| - 1] == now;
  }

  /** The recorded transitions of a run: the changes of state within five minutes
      before the last one. */
  lemma {:induction false} RunRecords(total: nat, floorMb: nat, start: nat, rs: seq<Report>)
    requires Ordered(rs, start)
    ensures After(Fresh(total, floorMb, start), rs).transitions == Kept(Changes(rs))
  {
    if rs != [] {
      var n, r := |rs| - 1, rs[|rs| - 1];
      var p, cs := After(Fresh(total, floorMb, start), rs[..n]), Changes(rs[..n]);
      RunMeans(total, floorMb, start, rs[..n]);
      RunRecords(total, floorMb, start, rs[..n]);
      if cs != [] {
        ChangesBelow(rs[..n], start, |cs| - 1);
      }
      NotedKeeps(p, r, cs);
    }
  }

  lemma NotedKeeps(p: Policy, r: Report, cs: seq<nat>)
    requires p.transitions == Kept(cs) && (cs != [] ==> cs[|cs| - 1] <= r.now)
    ensures Next(p, r).transitions == Kept(cs + if r.active != p.active then [r.now] else [])
  {
    if r.active != p.active {
      KeptNext(cs, r.now);
    } else {
      assert cs + [] == cs;
    }
  }

  /** Over every run of reports with a clock that does not go back: inflations minus
      deflations are the balloon; its size is zero, a quarter, a half or all of what
      may be reclaimed, and zero after an active report; the guest keeps its floor. */
  lemma BalloonRun(total: nat, floorMb: nat, start: nat, rs: seq<Report>)
    requires Ordered(rs, start)
    ensures var p := After(Fresh(total, floorMb, start), rs);
      && p.pages == Balance(Fresh(total, floorMb, start), rs) && Level(p.pages, p.max)
      && (rs != [] && rs[|rs| - 1].active ==> p.pages == 0)
      && (total >= 256 * floorMb ==> total - p.pages >= 256 * floorMb)
  {
    RunMeans(total, floorMb, start, rs);
  }

  /** An inflation happens only on an idle report with a quarter of memory available,
      more than 30 seconds after the last activity and at least 60 seconds after
      the last deflation, or 180 if three or more transitions are recorded. */
  lemma InflationRule(total: nat, floorMb: nat, start: nat, rs: seq<Report>)
    requires Ordered(rs, start) && rs != [] && LastAction(Fresh(total, floorMb, start), rs).Inflate?
    ensures var r, before := rs[|rs| - 1], rs[..|rs| - 1];
      && !r.active && r.available >= 25.0
      && r.now - LastActivity(before, start) > 30 * SECOND
      && r.now - LastDeflation(Fresh(total, floorMb, start), before, start) >= 60 * SECOND
      && (|Kept(Changes(rs))| >= 3 ==>
            r.now - LastDeflation(Fresh(total, floorMb, start), before, start) >= 180 * SECOND)
  {
    var n := |rs| - 1;
    RunMeans(total, floorMb, start, rs[..n]);
    RunRecords(total, floorMb, start, rs);
  }

  // ----- how large the balloon is

  /** The changes of state later than the cutoff, by position. */
  function Later(cs: seq<nat>, cutoff: int): set<nat> { set k: nat | k < |cs| && cs[k] > cutoff }

  lemma {:induction false} RecentCount(cs: seq<nat>, cutoff: int)
    ensures |Recent(cs, cutoff)| == |Later(cs, cutoff)|
  {
    if cs == [] {
      assert Later(cs, cutoff) == {};
    } else {
      var n := |cs| - 1;
      RecentCount(cs[..n], cutoff);
      if cs[n] > cutoff {
        assert Later(cs, cutoff) == Later(cs[..n], cutoff) + {n};
      } else {
        assert Later(cs, cutoff) == Later(cs[..n], cutoff);
      }
    }
  }

  /** How many changes of state lie within five minutes before the last one. */
  function Burst(cs: seq<nat>): nat {
    if cs == [] then 0 else |set k: nat | k < |cs| && cs[k] + 300_000_000_000 > cs[|cs| - 1]|
  }

  lemma BurstIs(cs: seq<nat>)
    ensures |Kept(cs)| == Burst(cs)
  {
    if cs != [] {
      var c := cs[|cs| - 1] - 300 * SECOND;
      RecentCount(cs, c);
      assert Later(cs, c) == set k: nat | k < |cs| && cs[k] + 300_000_000_000 > cs[|cs| - 1];
    }
  }

  /** The size of the balloon after every report of a run, in nanoseconds and pages of 4096
      bytes: zero after an active one; as before after an idle one within a minute of the
      last deflation, or within three if three changes of state lie close together, or
      with less than a quarter of memory available; and otherwise at least a quarter, a
      half or all of what lies above the floor, when the guest has been idle for more
      than 30, 120 or 300 seconds. */
  lemma BalloonSize(total: nat, floorMb: nat, start: nat, before: seq<Report>, r: Report, was: nat, max: nat, idle: int,
                    quiet: int, wait: int)
    requires Ordered(before + [r], start) && was == After(Fresh(total, floorMb, start), before).pages
    requires max == if total > 256 * floorMb then total - 256 * floorMb else 0
    requires idle == r.now - LastActivity(before, start)
    requires quiet == r.now - LastDeflation(Fresh(total, floorMb, start), before, start)
    requires wait == if Burst(Changes(before + [r])) >= 3 then 180_000_000_000 else 60_000_000_000
    ensures After(Fresh(total, floorMb, start), before + [r]).pages ==
      if r.active then 0
      else if quiet < wait || r.available < 25.0 then was
      else if idle > 300_000_000_000 then (if max > was then max else was)
      else if idle > 120_000_000_000 then (if max / 2 > was then max / 2 else was)
      else if idle > 30_000_000_000 then (if max / 4 > was then max / 4 else was)
      else was
  {
    var p := After(Fresh(total, floorMb, start), before);
    Recorded(total, floorMb, start, before, r);
    NextSize(p, r, was, max, idle, quiet, Burst(Changes(before + [r])));
  }

  /** The fields on which a report's effect depends. */
  lemma Recorded(total: nat, floorMb: nat, start: nat, before: seq<Report>, r: Report)
    requires Ordered(before + [r], start)
    ensures var p := After(Fresh(total, floorMb, start), before);
      && After(Fresh(total, floorMb, start), before + [r]) == Next(p, r)
      && p.lastActive == LastActivity(before, start) <= r.now
      && p.lastDeflate == LastDeflation(Fresh(total, floorMb, start), before, start) <= r.now
      && p.max == (if total > 256 * floorMb then total - 256 * floorMb else 0)
      && |Next(p, r).transitions| == Burst(Changes(before + [r]))
  {
    var rs := before + [r];
    assert rs[..|before|] == before;
    Earlier(before, r, start);
    RunMeans(total, floorMb, start, before);
    RunRecords(total, floorMb, start, rs);
    BurstIs(Changes(rs));
    InstantsBefore(total, floorMb, start, rs, |before|);
  }

  lemma Earlier(before: seq<Report>, r: Report, start: nat)
    requires Ordered(before + [r], start)
    ensures Ordered(before, start)
  {
    forall i | 0 <= i < |before| ensures start <= before[i].now {
      assert (before + [r])[i] == before[i];
    }
    forall i, j | 0 <= i < j < |before| ensures before[i].now <= before[j].now {
      assert (before + [r])[i] == before[i] && (before + [r])[j] == before[j];
    }
  }

  lemma NextSize(p: Policy, r: Report, was: nat, max: nat, idle: int, quiet: int, burst: nat)
    requires was == p.pages && max == p.max && idle == r.now - p.lastActive >= 0 && quiet == r.now - p.lastDeflate >= 0
    requires |Next(p, r).transitions| == burst
    ensures Next(p, r).pages ==
      if r.active then 0
      else if quiet < (if burst >= 3 then 180_000_000_000 else 60_000_000_000) || r.available < 25.0 then was
      else if idle > 300_000_000_000 then (if max > was then max else was)
      else if idle > 120_000_000_000 then (if max / 2 > was then max / 2 else was)
      else if idle > 30_000_000_000 then (if max / 4 > was then max / 4 else was)
      else was
  {
  }

  /** The last activity and the last deflation lie in the past. */
  lemma {:induction false} InstantsBefore(total: nat, floorMb: nat, start: nat, rs: seq<Report>, n: nat)
    requires Ordered(rs, start) && n < |rs|
    ensures LastActivity(rs[..n], start) <= rs[n].now
    ensures LastDeflation(Fresh(total, floorMb, start), rs[..n], start) <= rs[n].now
    decreases n
  {
    if n > 0 {
      InstantsBefore(total, floorMb, start, rs, n - 1);
      assert rs[..n][..n - 1] == rs[..n - 1];
    }
  }

  /** The example of a minute's idleness: with 1000 pages to reclaim, the first report after
      61 seconds inflates a quarter of them. */
  lemma FirstInflation(start: nat, r: Report)
    requires r == Report(false, 100.0, start + 61_000_000_000)
    ensures LastAction(Fresh(1000, 0, start), [r]) == Inflate(250)
  {
    var p := Fresh(1000, 0, start);
    assert [] + [r] == [r] && [r][..0] == [];
    assert After(p, []) == p && LastActivity([], start) == start && LastDeflation(p, [], start) == start;
    assert Changes([r]) == [r.now];
    OneBurst([r.now]);
    BalloonSize(1000, 0, start, [], r, 0, 1000, 61_000_000_000, 61_000_000_000, 60_000_000_000);
  }

  lemma OneBurst(cs: seq<nat>)
    requires |cs| == 1
    ensures Burst(cs) == 1
  {
    assert (set k: nat | k < |cs| && cs[k] + 300_000_000_000 > cs[|cs| - 1]) == {0};
  }
}
