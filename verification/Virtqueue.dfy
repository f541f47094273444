/** The split virtqueue in guest memory (src/virtio/queue.rs; section 2.6 of VIRTIO
    1.1): the available ring, the descriptor table and the used ring. */
module Virtqueue {
  import opened Bytes
  import opened GuestMemory
  import opened VirtqueueChains

  /** Whether a write succeeded, and the memory after it. */
  datatype Outcome = Outcome(ok: bool, mem: seq<byte>)

  /** How a device reaches guest memory: reading the n-byte little-endian number at a
      guest address, and writing one. */
  datatype Access = Access(read: (seq<byte>, nat, nat) -> Option<nat>, write: (seq<byte>, nat, nat, nat) -> Outcome)

  /** Access through the translation around the hole. */
  function GuestAccess(l: Layout): Access {
    Access((mem: seq<byte>, gpa: nat, n: nat) => ReadNumber(l, mem, gpa, n),
           (mem: seq<byte>, gpa: nat, v: nat, n: nat) => WriteNumber(l, mem, gpa, v, n))
  }

  function ReadNumber(l: Layout, mem: seq<byte>, gpa: nat, n: nat): Option<nat> {
    if |mem| != l.size then None else
    match ReadMem(l, mem, gpa, n)
    case Some(b) => Some(FromLE(b))
    case None => None
  }

  function WriteNumber(l: Layout, mem: seq<byte>, gpa: nat, v: nat, n: nat): Outcome {
    if |mem| != l.size then Outcome(false, mem) else
    match WriteMem(l, mem, gpa, ToLE(v, n))
    case Some(m) => Outcome(true, m)
    case None => Outcome(false, mem)
  }

  /** A queue: how it reaches memory, its number of descriptors, and the guest
      addresses of its areas. */
  datatype Queue = Queue(io: Access, size: nat, desc: nat, avail: nat, used: nat)

  datatype Chain = Chain(head: nat, descriptors: seq<Descriptor>)

  /** The size of a queue fits 16 bits and is not zero. */
  predicate Sized(q: Queue) { 0 < q.size < 0x1_0000 }

  function ReadDesc(q: Queue, mem: seq<byte>, idx: nat): Option<Descriptor> {
    var at := q.desc + 16 * idx;
    match (q.io.read(mem, at, 8), q.io.read(mem, at + 8, 4), q.io.read(mem, at + 12, 2), q.io.read(mem, at + 14, 2))
    case (Some(addr), Some(len), Some(flags), Some(next)) => Some(Descriptor(addr, len, flags, next))
    case _ => None
  }

  /** What can be read of the descriptor table. */
  type Readings = seq<Option<Descriptor>>

  function Descriptors(q: Queue, mem: seq<byte>): (rs: Readings)
    ensures |rs| == q.size
  {
    seq(q.size, i requires 0 <= i => ReadDesc(q, mem, i))
  }

  /** The descriptors of the chain from idx on, in at most `budget` steps. */
  function ReadChain(rs: Readings, idx: nat, budget: nat): Option<seq<Descriptor>>
    decreases budget
  {
    if idx >= |rs| || budget == 0 then None else
    match rs[idx]
    case None => None
    case Some(d) =>
      if !HasNext(d.flags) then Some([d]) else
      match ReadChain(rs, d.next, budget - 1)
      case None => None
      case Some(ds) => Some([d] + ds)
  }

  /** The head of the next available chain. */
  function NextHead(q: Queue, mem: seq<byte>, last: nat): Option<nat>
    requires Sized(q)
  {
    match q.io.read(mem, q.avail + 2, 2)
    case None => None
    case Some(idx) =>
      if idx == last then None else q.io.read(mem, q.avail + 4 + 2 * Rem(last, q.size), 2)
  }

  /** `pop_avail` with cursor `last` */
  function Pop(q: Queue, mem: seq<byte>, ready: bool, last: nat): Option<Chain>
    requires Sized(q)
  {
    if !ready then None else
    match NextHead(q, mem, last)
    case None => None
    case Some(head) =>
      match ReadChain(Descriptors(q, mem), head, q.size)
      case None => None
      case Some(ds) => Some(Chain(head, ds))
  }

  /** Write a used element. */
  function PutElem(io: Access, mem: seq<byte>, at: nat, head: nat, len: nat): Outcome
  {
    var o := io.write(mem, at, head, 4);
    if o.ok then io.write(o.mem, at + 4, len, 4) else o
  }

  /** Write the used element of a slot, and then the index. */
  function Post(io: Access, mem: seq<byte>, used: nat, slot: nat, idx: nat, head: nat, len: nat): Outcome
  {
    var o := PutElem(io, mem, used + 4 + 8 * slot, head, len);
    if o.ok then io.write(o.mem, used + 2, idx, 2) else o
  }

  /** `push_used`: three writes, of which a later one may fail. */
  function Push(q: Queue, mem: seq<byte>, ready: bool, head: nat, len: nat): Outcome
    requires Sized(q)
  {
    if !ready then Outcome(false, mem) else
    match q.io.read(mem, q.used + 2, 2)
    case None => Outcome(false, mem)
    case Some(idx) => Post(q.io, mem, q.used, Rem(idx, q.size), (idx + 1) % 0x1_0000, head, len)
  }

  /** Whether the driver is to be interrupted, in case of doubt yes. */
  predicate Notifies(q: Queue, mem: seq<byte>) {
    q.io.read(mem, q.avail, 2).Some? ==> q.io.read(mem, q.avail, 2).value % 2 == 0
  }

  class Virtqueue {
    const io: Access
    const size: nat
    var ready: bool
    var desc: nat
    var avail: nat
    var used: nat
    var lastAvail: nat
    var mem: seq<byte>

    function Q(): Queue
      reads this
    {
      Queue(io, size, desc, avail, used)
    }

    predicate Valid()
      reads this
    {
      Sized(Q()) && lastAvail < 0x1_0000
    }

    method HasAvailable() returns (b: bool)
      requires Valid()
      ensures b <==> ready && io.read(mem, avail + 2, 2).Some? && io.read(mem, avail + 2, 2).value != lastAvail
    {
      if !ready {
        return false;
      }
      var idx := io.read(mem, avail + 2, 2);
      return idx.Some? && idx.value != lastAvail;
    }

    method ReadHead() returns (head: Option<nat>)
      requires Valid()
      ensures head == NextHead(Q(), mem, lastAvail)
    {
      var idx := io.read(mem, avail + 2, 2);
      if idx == None || idx.value == lastAvail {
        return None;
      }
      head := io.read(mem, avail + 4 + 2 * Rem(lastAvail, size), 2);
    }

    /** Pop the next available chain. */
    method PopAvail() returns (r: Option<Chain>)
      requires Valid()
      modifies this`lastAvail
      ensures Valid() && r == Pop(Q(), mem, ready, old(lastAvail))
      ensures lastAvail == if r.Some? then (old(lastAvail) + 1) % 0x1_0000 else old(lastAvail)
    {
      if !ready {
        return None;
      }
      var head := ReadHead();
      if head == None {
        return None;
      }
      var ds := CollectChain(Descriptors(Q(), mem), head.value);
      if ds == None {
        return None;
      }
      lastAvail := (lastAvail + 1) % 0x1_0000;
      return Some(Chain(head.value, ds.value));
    }

    /** Push a completion entry. */
    method PushUsed(head: nat, len: nat) returns (ok: bool)
      requires Valid()
      modifies this`mem
      ensures Valid() && Outcome(ok, mem) == Push(Q(), old(mem), ready, head, len)
    {
      if !ready {
        return false;
      }
      var idx := io.read(mem, used + 2, 2);
      if idx == None {
        return false;
      }
      var elem := used + 4 + 8 * Rem(idx.value, size);
      var o := io.write(mem, elem, head, 4);
      mem := o.mem;
      if !o.ok {
        return false;
      }
      o := io.write(mem, elem + 4, len, 4);
      mem := o.mem;
      if !o.ok {
        return false;
      }
      o := io.write(mem, used + 2, (idx.value + 1) % 0x1_0000, 2);
      mem := o.mem;
      ok := o.ok;
    }

    /** Whether the driver wants an interrupt. */
    method NeedsNotification() returns (b: bool)
      requires Valid()
      ensures b <==> ready && Notifies(Q(), mem)
    {
      if !ready {
        return false;
      }
      var flags := io.read(mem, avail, 2);
      return flags == None || flags.value % 2 == 0;
    }
  }

  /** Walk the chain from `head`, in at most as many steps as there are descriptors. */
  method CollectChain(rs: Readings, head: nat) returns (r: Option<seq<Descriptor>>)
    ensures r == ReadChain(rs, head, |rs|)
  {
    var descriptors: seq<Descriptor> := [];
    var idx, seen := head, 0;
    Begin(ReadChain(rs, head, |rs|));
    while true
      invariant seen == |descriptors| <= |rs| && idx >= 0
      invariant ReadChain(rs, head, |rs|) == Continued(descriptors, ReadChain(rs, idx, |rs| - seen))
      decreases |rs| - seen
    {
      if idx >= |rs| || seen >= |rs| {
        return None;
      }
      var d := rs[idx];
      if d == None {
        return None;
      }
      Continue(descriptors, d.value, ReadChain(rs, d.value.next, |rs| - seen - 1));
      descriptors, seen := descriptors + [d.value], seen + 1;
      if HasNext(d.value.flags) {
        idx := d.value.next;
      } else {
        return Some(descriptors);
      }
    }
  }

  function Continued(ds: seq<Descriptor>, rest: Option<seq<Descriptor>>): Option<seq<Descriptor>> {
    match rest
    case None => None
    case Some(r) => Some(ds + r)
  }

  lemma Begin(rest: Option<seq<Descriptor>>)
    ensures rest == Continued([], rest)
  {
    if rest.Some? {
      assert [] + rest.value == rest.value;
    }
  }

  lemma Continue(ds: seq<Descriptor>, d: Descriptor, rest: Option<seq<Descriptor>>)
    ensures Continued(ds, Some([d])) == Some(ds + [d])
    ensures rest.Some? ==> Continued(ds, Some([d] + rest.value)) == Continued(ds + [d], rest)
  {
    if rest.Some? {
      assert ds + ([d] + rest.value) == (ds + [d]) + rest.value;
    }
  }

  // ----- the chain in memory and the chain in the table

  /** The descriptor table can be read, and holds t. */
  ghost predicate Holds(rs: Readings, t: Table) {
    |rs| == |t| && forall i :: 0 <= i < |t| ==> rs[i] == Some(t[i])
  }

  /** The descriptors at the given indices. */
  function Pick(t: Table, p: seq<nat>): seq<Descriptor> {
    seq(|p|, k requires 0 <= k < |p| => if p[k] < |t| then t[p[k]] else Descriptor(0, 0, 0, 0))
  }

  /** Reading a chain with a budget is walking it in the table. */
  lemma {:induction false} ChainInTable(rs: Readings, t: Table, idx: nat, budget: nat)
    requires Holds(rs, t)
    ensures ReadChain(rs, idx, budget).Some? <==> Walk(t, idx, budget).Some?
    ensures Walk(t, idx, budget).Some? ==> ReadChain(rs, idx, budget) == Some(Pick(t, Walk(t, idx, budget).value))
    decreases budget
  {
    if idx < |t| && budget > 0 {
      var next := t[idx].next;
      if HasNext(t[idx].flags) {
        ChainInTable(rs, t, next, budget - 1);
        if Walk(t, next, budget - 1).Some? {
          var p := Walk(t, next, budget - 1).value;
          assert Pick(t, [idx] + p) == [t[idx]] + Pick(t, p);
        }
      } else {
        assert Pick(t, [idx]) == [t[idx]];
      }
    }
  }

  /** Reading a chain succeeds exactly when following `next` from the head stays in
      the table and is acyclic; it gives the descriptors that are visited, none
      of them twice. */
  lemma ReadChainExact(rs: Readings, t: Table, head: nat)
    requires Holds(rs, t)
    ensures ReadChain(rs, head, |t|).Some? <==> !Leaves(t, head) && !Cyclic(t, head)
    ensures ReadChain(rs, head, |t|).Some? ==> exists p ::
      && IsChain(t, head, p) && (forall i, j :: 0 <= i < j < |p| ==> p[i] != p[j])
      && ReadChain(rs, head, |t|) == Some(Pick(t, p))
  {
    ChainInTable(rs, t, head, |t|);
    AcceptsGoodChains(t, head);
    WalkAccepts(t, head, |t|);
    if Walk(t, head, |t|).Some? {
      var p := Walk(t, head, |t|).value;
      forall i, j | 0 <= i < j < |p| ensures p[i] != p[j] {
        ChainDistinct(t, head, p, i, j);
      }
    }
  }

  /** A pop from a ready queue succeeds exactly when there is an available entry and
      its chain stays in the table and is acyclic. */
  lemma PopExact(q: Queue, mem: seq<byte>, t: Table, last: nat)
    requires Sized(q) && Holds(Descriptors(q, mem), t)
    ensures Pop(q, mem, true, last).Some? <==>
      NextHead(q, mem, last).Some? && !Leaves(t, NextHead(q, mem, last).value) &&
        !Cyclic(t, NextHead(q, mem, last).value)
    ensures Pop(q, mem, true, last).Some? ==> NextHead(q, mem, last) == Some(Pop(q, mem, true, last).value.head)
  {
    if NextHead(q, mem, last).Some? {
      ReadChainExact(Descriptors(q, mem), t, NextHead(q, mem, last).value);
    }
  }
}
