/** Descriptor chains in a table (section 2.6.5 of VIRTIO 1.1): what the bounded walk
    of `pop_avail` (src/virtio/queue.rs) accepts. */
module VirtqueueChains {
  import opened Bytes

  datatype Descriptor = Descriptor(addr: nat, len: nat, flags: nat, next: nat)

  type Table = seq<Descriptor>

  /** VRING_DESC_F_NEXT and VRING_DESC_F_WRITE */
  predicate HasNext(flags: nat) { flags % 2 == 1 }
  predicate Writable(flags: nat) { flags / 2 % 2 == 1 }

  /** The two flags are the two lowest bits. */
  lemma FlagBits(next: nat, write: nat, others: nat)
    requires next < 2 && write < 2
    ensures HasNext(next + 2 * write + 4 * others) <==> next == 1
    ensures Writable(next + 2 * write + 4 * others) <==> write == 1
  {
    assert next + 2 * write + 4 * others == 2 * (write + 2 * others) + next;
    assert (next + 2 * write + 4 * others) / 2 == write + 2 * others;
  }

  /** The indices of the chain from idx on, if it ends within `budget` descriptors and
      stays in the table. */
  function Walk(t: Table, idx: nat, budget: nat): Option<seq<nat>>
    decreases budget
  {
    if idx >= |t| || budget == 0 then None
    else if !HasNext(t[idx].flags) then Some([idx]) else
    match Walk(t, t[idx].next, budget - 1)
    case None => None
    case Some(p) => Some([idx] + p)
  }

  /** The k-th index when `next` is followed from the head without any bound; None
      once the chain has ended or has left the table. */
  function Visit(t: Table, head: nat, k: nat): Option<nat>
    decreases k
  {
    if k == 0 then Some(head)
    else if head < |t| && HasNext(t[head].flags) then Visit(t, t[head].next, k - 1)
    else None
  }

  predicate Outside(t: Table, head: nat, k: nat) {
    Visit(t, head, k).Some? && Visit(t, head, k).value >= |t|
  }

  /** Following `next` leaves the table. */
  ghost predicate Leaves(t: Table, head: nat) {
    exists k: nat :: Outside(t, head, k)
  }

  predicate Repeats(t: Table, head: nat, i: nat, j: nat) {
    i < j && Visit(t, head, i).Some? && Visit(t, head, i) == Visit(t, head, j)
  }

  /** Following `next` comes back to a descriptor. */
  ghost predicate Cyclic(t: Table, head: nat) {
    exists i: nat, j: nat :: Repeats(t, head, i, j)
  }

  lemma {:induction false} VisitFrom(t: Table, head: nat, i: nat, j: nat)
    ensures Visit(t, head, i + j) == if Visit(t, head, i).Some? then Visit(t, Visit(t, head, i).value, j) else None
    decreases i
  {
    if i > 0 && head < |t| && HasNext(t[head].flags) {
      VisitFrom(t, t[head].next, i - 1, j);
    }
  }

  /** p is the chain from head: every visit, and no more. */
  ghost predicate IsChain(t: Table, head: nat, p: seq<nat>) {
    && p != [] && Visit(t, head, |p|) == None
    && forall k :: 0 <= k < |p| ==> p[k] < |t| && Visit(t, head, k) == Some(p[k])
  }

  lemma {:induction false} WalkAccepts(t: Table, idx: nat, budget: nat)
    ensures Walk(t, idx, budget).Some? ==>
      IsChain(t, idx, Walk(t, idx, budget).value) && |Walk(t, idx, budget).value| <= budget
    decreases budget
  {
    if idx < |t| && budget > 0 && HasNext(t[idx].flags) {
      var next := t[idx].next;
      WalkAccepts(t, next, budget - 1);
      if Walk(t, next, budget - 1).Some? {
        var p := Walk(t, next, budget - 1).value;
        forall k | 0 <= k < |p| + 1 ensures ([idx] + p)[k] < |t| && Visit(t, idx, k) == Some(([idx] + p)[k]) {
        }
      }
    }
  }

  lemma {:induction false} WalkRejects(t: Table, idx: nat, budget: nat) returns (k: nat)
    requires Walk(t, idx, budget) == None
    ensures k <= budget && Visit(t, idx, k).Some? && (k == budget || Outside(t, idx, k))
    decreases budget
  {
    k := 0;
    if idx < |t| && budget > 0 {
      k := WalkRejects(t, t[idx].next, budget - 1);
      k := k + 1;
    }
  }

  /** Distinct numbers below n are at most n. */
  lemma {:induction false} Distinct(s: seq<nat>, n: nat)
    requires forall k :: 0 <= k < |s| ==> s[k] < n
    requires forall i, j :: 0 <= i < j < |s| ==> s[i] != s[j]
    ensures |s| <= n
  {
    if s != [] {
      assert s[0] < n;
      if k :| 0 <= k < |s| && s[k] == n - 1 {
        Distinct(s[..k] + s[k + 1..], n - 1);
      } else {
        Distinct(s, n - 1);
      }
    }
  }

  lemma {:induction false} EarlierVisits(t: Table, head: nat, k: nat, n: nat)
    requires k <= n && Visit(t, head, n).Some?
    ensures Visit(t, head, k).Some?
  {
    VisitFrom(t, head, k, n - k);
  }

  /** A chain that is still running after |t| steps has left the table or is cyclic. */
  lemma Pigeonhole(t: Table, head: nat)
    requires Visit(t, head, |t|).Some?
    ensures Leaves(t, head) || Cyclic(t, head)
  {
    if !Leaves(t, head) && !Cyclic(t, head) {
      forall k: nat | k <= |t| ensures Visit(t, head, k).Some? && Visit(t, head, k).value < |t| {
        EarlierVisits(t, head, k, |t|);
        assert !Outside(t, head, k);
      }
      var s := seq(|t| + 1, k requires 0 <= k <= |t| => Visit(t, head, k).value);
      forall i, j | 0 <= i < j < |s| ensures s[i] != s[j] {
        assert !Repeats(t, head, i, j);
      }
      Distinct(s, |t|);
    }
  }

  lemma ChainEnds(t: Table, head: nat, p: seq<nat>, k: nat)
    requires IsChain(t, head, p) && k >= |p|
    ensures Visit(t, head, k) == None
  {
    VisitFrom(t, head, |p|, k - |p|);
  }

  /** No accepted chain visits a descriptor twice. */
  lemma ChainDistinct(t: Table, head: nat, p: seq<nat>, i: nat, j: nat)
    requires IsChain(t, head, p) && i < j < |p|
    ensures p[i] != p[j]
  {
    if p[i] == p[j] {
      var m := |p| - j;
      VisitFrom(t, head, i, m);
      VisitFrom(t, head, j, m);
    }
  }

  /** The walk with a budget of |t| steps accepts exactly the chains that stay in the
      table and are acyclic: the bound never rejects a good chain. */
  lemma AcceptsGoodChains(t: Table, head: nat)
    ensures Walk(t, head, |t|).Some? <==> !Leaves(t, head) && !Cyclic(t, head)
  {
    if Walk(t, head, |t|).Some? {
      WalkAccepts(t, head, |t|);
      var p := Walk(t, head, |t|).value;
      forall k: nat ensures !Outside(t, head, k) {
        if k >= |p| {
          ChainEnds(t, head, p, k);
        }
      }
      forall i: nat, j: nat ensures !Repeats(t, head, i, j) {
        if i < j && j >= |p| {
          ChainEnds(t, head, p, j);
        } else if i < j {
          ChainDistinct(t, head, p, i, j);
        }
      }
    } else {
      var k := WalkRejects(t, head, |t|);
      if k == |t| {
        Pigeonhole(t, head);
      }
    }
  }

  /** A walk without a bound ends exactly when the chain is acyclic, as long as it
      stays in the table. */
  lemma EndsIffAcyclic(t: Table, head: nat)
    requires !Leaves(t, head)
    ensures (exists k: nat :: Visit(t, head, k) == None) <==> !Cyclic(t, head)
  {
    AcceptsGoodChains(t, head);
    if !Cyclic(t, head) {
      WalkAccepts(t, head, |t|);
      assert Visit(t, head, |Walk(t, head, |t|).value|) == None;
    } else {
      var i: nat, j: nat :| Repeats(t, head, i, j);
      forall k: nat ensures Visit(t, head, k).Some? {
        NeverEnds(t, head, i, j, k);
      }
    }
  }

  lemma {:induction false} NeverEnds(t: Table, head: nat, i: nat, j: nat, k: nat)
    requires Repeats(t, head, i, j)
    ensures Visit(t, head, k).Some?
    decreases k
  {
    if k <= j {
      EarlierVisits(t, head, k, j);
    } else {
      VisitFrom(t, head, i, k - j);
      VisitFrom(t, head, j, k - j);
      NeverEnds(t, head, i, j, i + (k - j));
    }
  }

  /** A table with one descriptor that points to itself: following `next` never ends,
      while the bounded walk rejects it. */
  lemma SelfLoop(t: Table, k: nat)
    requires t == [Descriptor(0, 0, 1, 0)]
    ensures Visit(t, 0, k) == Some(0) && Cyclic(t, 0) && !Leaves(t, 0) && Walk(t, 0, |t|) == None
  {
    LoopVisits(t, k);
    LoopVisits(t, 1);
    assert Repeats(t, 0, 0, 1);
    forall n: nat ensures !Outside(t, 0, n) {
      LoopVisits(t, n);
    }
  }

  lemma {:induction false} LoopVisits(t: Table, k: nat)
    requires t == [Descriptor(0, 0, 1, 0)]
    ensures Visit(t, 0, k) == Some(0)
  {
    if k > 0 {
      LoopVisits(t, k - 1);
    }
  }
}
