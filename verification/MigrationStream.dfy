/** From the protocol to the bytes: the messages that a run sends, as a byte stream, and
    the receiver's loop on that stream. */
module MigrationStream {
  import opened Bytes
  import opened MigrationWire
  import opened Migration
  import opened MigrationLoops

  /** The messages that a step puts on the wire. */
  function Sent(s: State, a: Action): seq<Message> {
    match a
    case Flush => [Batch(s.out)]
    case Pause => [FinalRound]
    case Finish => VcpuMessages(s.vcpus) + [Device(s.device), Complete]
    case _ => []
  }

  /** The messages of a run. */
  function Log(c: Config, s: State, acts: seq<Action>): seq<Message>
    decreases |acts|
  {
    if acts == [] then [] else
    match Do(c, s, acts[0])
    case None => []
    case Some(s') => Sent(s, acts[0]) + Log(c, s', acts[1..])
  }

  lemma {:induction false} ReceiveBoth(r: Receiver, a: seq<Message>, b: seq<Message>)
    ensures ReceiveAll(r, a + b) == ReceiveAll(ReceiveAll(r, a), b)
    decreases |a|
  {
    if a == [] {
      assert a + b == b;
    } else {
      assert (a + b)[1..] == a[1..] + b;
      ReceiveBoth(Receive(r, a[0]), a[1..], b);
    }
  }

  lemma StepSends(c: Config, s: State, a: Action, s': State)
    requires Do(c, s, a) == Some(s')
    ensures ReceiveAll(s'.dst, s'.wire) == ReceiveAll(ReceiveAll(s.dst, s.wire), Sent(s, a))
  {
    if !a.Deliver? {
      StepWire(c, s, a, s');
      ReceiveBoth(s.dst, s.wire, Sent(s, a));
    }
  }

  lemma StepWire(c: Config, s: State, a: Action, s': State)
    requires Do(c, s, a) == Some(s') && !a.Deliver?
    ensures s'.dst == s.dst && s'.wire == s.wire + Sent(s, a)
  {
    assert a.Finish? ==> s.wire + VcpuMessages(s.vcpus) + [Device(s.device), Complete] == s.wire + Sent(s, a);
  }

  /** What is on its way at the end is what was on its way, and the messages sent. */
  lemma {:induction false} RunSends(c: Config, s: State, acts: seq<Action>, s': State)
    requires Run(c, s, acts) == Some(s')
    ensures ReceiveAll(s'.dst, s'.wire) == ReceiveAll(ReceiveAll(s.dst, s.wire), Log(c, s, acts))
    decreases |acts|
  {
    if acts != [] {
      var m := Do(c, s, acts[0]).value;
      StepSends(c, s, acts[0], m);
      RunSends(c, m, acts[1..], s');
      ReceiveBoth(ReceiveAll(s.dst, s.wire), Sent(s, acts[0]), Log(c, m, acts[1..]));
    }
  }

  // ----- where Complete comes

  /** Complete is the last message, if it comes at all. */
  ghost predicate EndsOnce(log: seq<Message>, finished: bool) {
    && (forall k :: 0 <= k < |log| - 1 ==> !log[k].Complete?)
    && (finished <==> log != [] && log[|log| - 1].Complete?)
  }

  lemma {:induction false} NothingAfter(c: Config, s: State, acts: seq<Action>, s': State)
    requires s.phase.Finished? && Run(c, s, acts) == Some(s')
    ensures Log(c, s, acts) == [] && s'.phase.Finished?
    decreases |acts|
  {
    if acts != [] {
      NothingAfter(c, Do(c, s, acts[0]).value, acts[1..], s');
    }
  }

  lemma {:induction false} CompleteLast(c: Config, s: State, acts: seq<Action>, s': State)
    requires !s.phase.Finished? && Run(c, s, acts) == Some(s')
    ensures EndsOnce(Log(c, s, acts), s'.phase.Finished?)
    decreases |acts|
  {
    if acts != [] {
      var m := Do(c, s, acts[0]).value;
      if m.phase.Finished? {
        NothingAfter(c, m, acts[1..], s');
        assert Log(c, s, acts) == Sent(s, acts[0]);
        LastIsComplete(s);
      } else {
        CompleteLast(c, m, acts[1..], s');
        NotYet(c, s, acts[0], m);
        EndsLater(Sent(s, acts[0]), Log(c, m, acts[1..]), s'.phase.Finished?);
      }
    }
  }

  lemma EndsLater(a: seq<Message>, b: seq<Message>, finished: bool)
    requires EndsOnce(b, finished) && forall k :: 0 <= k < |a| ==> !a[k].Complete?
    ensures EndsOnce(a + b, finished)
  {
  }

  lemma LastIsComplete(s: State)
    ensures EndsOnce(Sent(s, Finish), true)
  {
  }

  lemma NotYet(c: Config, s: State, a: Action, s': State)
    requires Do(c, s, a) == Some(s') && !s'.phase.Finished?
    ensures forall k :: 0 <= k < |Sent(s, a)| ==> !Sent(s, a)[k].Complete?
  {
  }

  // ----- every message fits its frame

  /** The pages that have been read lie in memory. */
  predicate OutFits(c: Config, s: State) {
    forall k :: 0 <= k < |s.out| ==> s.out[k].offset < 4096 * c.pages
  }

  /** The machine state that is sent at the end fits 32-bit lengths. */
  predicate StateFits(s: State) {
    && |s.device| < 0x1_0000_0000
    && forall i :: 0 <= i < |s.vcpus| ==> 12 + |s.vcpus[i].regs| + |s.vcpus[i].sregs| < 0x1_0000_0000
  }

  ghost predicate AllSendable(log: seq<Message>) { forall k :: 0 <= k < |log| ==> Sendable(log[k]) }

  lemma OutStep(c: Config, s: State, a: Action, s': State)
    requires Inv(c, s) && OutFits(c, s) && Do(c, s, a) == Some(s')
    ensures OutFits(c, s')
  {
  }

  lemma BatchFits(c: Config, s: State)
    requires Inv(c, s) && OutFits(c, s) && 4096 * c.pages < 0x1_0000_0000_0000_0000
    ensures Sendable(Batch(s.out))
  {
  }

  lemma FinishFits(s: State)
    requires StateFits(s)
    ensures AllSendable(Sent(s, Finish))
  {
    var v := VcpuMessages(s.vcpus);
    forall k | 0 <= k < |Sent(s, Finish)| ensures Sendable(Sent(s, Finish)[k]) {
      if k < |v| {
        assert Sent(s, Finish)[k] == Vcpu(k, s.vcpus[k]);
      }
    }
  }

  /** Once the guest is paused, its state does not change. */
  lemma {:induction false} StateKept(c: Config, s: State, acts: seq<Action>, s': State)
    requires !Running(s) && Run(c, s, acts) == Some(s')
    ensures s'.vcpus == s.vcpus && s'.device == s.device && s'.src == s.src
    decreases |acts|
  {
    if acts != [] {
      StateKept(c, Do(c, s, acts[0]).value, acts[1..], s');
    }
  }

  lemma BothSendable(a: seq<Message>, b: seq<Message>)
    requires AllSendable(a) && AllSendable(b)
    ensures AllSendable(a + b)
  {
  }

  lemma StepSendable(c: Config, s: State, acts: seq<Action>, s': State)
    requires Inv(c, s) && OutFits(c, s) && acts != [] && Run(c, s, acts) == Some(s')
    requires 4096 * c.pages < 0x1_0000_0000_0000_0000 && StateFits(s')
    ensures AllSendable(Sent(s, acts[0]))
  {
    if acts[0].Flush? {
      BatchFits(c, s);
    } else if acts[0].Finish? {
      StateKept(c, s, acts, s');
      FinishFits(s);
    }
  }

  lemma {:induction false} LogSendable(c: Config, s: State, acts: seq<Action>, s': State)
    requires Inv(c, s) && OutFits(c, s) && Run(c, s, acts) == Some(s') && 4096 * c.pages < 0x1_0000_0000_0000_0000
    requires StateFits(s')
    ensures AllSendable(Log(c, s, acts))
    decreases |acts|
  {
    if acts != [] {
      var a, m := acts[0], Do(c, s, acts[0]).value;
      Step(c, s, m, a);
      OutStep(c, s, a, m);
      StepSendable(c, s, acts, s');
      LogSendable(c, m, acts[1..], s');
      BothSendable(Sent(s, a), Log(c, m, acts[1..]));
    }
  }

  /** The bytes of a completed run, whatever follows them, make the receiver's loop end
      with the memory, vCPUs and device state that `Migrated` is about. */
  lemma StreamMigrates(c: Config, s0: State, acts: seq<Action>, s: State, rest: seq<byte>)
    requires Start(c, s0) && Run(c, s0, acts) == Some(s) && s.dst.done
    requires 4096 * c.pages < 0x1_0000_0000_0000_0000 && StateFits(s)
    ensures Consume(s0.dst, StreamOf(Log(c, s0, acts)) + rest) == Some(s.dst) && s.dst.gotFinal
  {
    StartInv(c, s0);
    RunInv(c, s0, acts, s);
    Migrated(c, s0, acts, s);
    RunSends(c, s0, acts, s);
    CompleteLast(c, s0, acts, s);
    LogSendable(c, s0, acts, s);
    ConsumeSent(s0.dst, Log(c, s0, acts), rest);
  }

  /** The receiver on the bytes of a completed run: it succeeds, and its memory is the
      source's on every page that was not lost, or on all when none can be. */
  method ReceiveRun(t: MigrationTarget, stream: seq<byte>, ghost c: Config, ghost s0: State, ghost acts: seq<Action>,
                    ghost s: State, ghost rest: seq<byte>)
    returns (ok: bool)
    requires Start(c, s0) && Run(c, s0, acts) == Some(s) && s.dst.done && 4096 * c.pages < 0x1_0000_0000_0000_0000
    requires StateFits(s)
    requires t.R() == s0.dst && stream == StreamOf(Log(c, s0, acts)) + rest
    modifies t
    ensures ok && t.R() == s.dst && |s.src| == c.pages && t.pages == s.sent
    ensures forall p: nat :: p < c.pages ==>
      PageOf(t.memory, p) == s.src[p] || (!c.carry && p in s.discarded && p !in s.bitmap)
    ensures t.vcpus == Arrived(s.vcpus) && t.device == Some(s.device)
  {
    StreamMigrates(c, s0, acts, s, rest);
    Migrated(c, s0, acts, s);
    ok := t.Run(stream);
  }
}
