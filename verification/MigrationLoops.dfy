/** The loops of live migration (src/migration/mod.rs): one sending round, and the
    receiver's message loop over the byte stream. */
module MigrationLoops {
  import opened Bytes
  import opened DirtyPages
  import opened MigrationWire
  import opened Migration

  // ----- a sending round

  /** The numbers of the selected pages below n. */
  function Picked(selected: seq<bool>, n: nat): seq<nat>
    requires n <= |selected|
  {
    if n == 0 then [] else Picked(selected, n - 1) + if selected[n - 1] then [n - 1] else []
  }

  /** Every selected page occurs, and they occur in strictly ascending order. */
  lemma {:induction false} PickedAll(selected: seq<bool>, n: nat)
    requires n <= |selected|
    ensures forall p: nat :: p in Picked(selected, n) <==> p < n && selected[p]
    ensures forall i, k :: 0 <= i < k < |Picked(selected, n)| ==> Picked(selected, n)[i] < Picked(selected, n)[k]
  {
    if n > 0 {
      PickedAll(selected, n - 1);
      var was := Picked(selected, n - 1);
      forall i | 0 <= i < |was| ensures was[i] < n - 1 {
        assert was[i] in was;
      }
    }
  }

  function Record(seen: seq<Page>, p: nat): PageRecord
    requires p < |seen|
  {
    PageRecord(4096 * p, seen[p])
  }

  function Flat(bs: seq<seq<PageRecord>>): seq<PageRecord> {
    if bs == [] then [] else Flat(bs[..|bs| - 1]) + bs[|bs| - 1]
  }

  /** What was seen of the selected pages below n, in order. */
  function Listed(selected: seq<bool>, seen: seq<Page>, n: nat): seq<PageRecord>
    requires n <= |selected| == |seen|
  {
    if n == 0 then [] else Listed(selected, seen, n - 1) + if selected[n - 1] then [Record(seen, n - 1)] else []
  }

  /** The list has one record for each selected page, in ascending order. */
  lemma {:induction false} ListedIs(selected: seq<bool>, seen: seq<Page>, n: nat)
    requires n <= |selected| == |seen|
    ensures |Listed(selected, seen, n)| == |Picked(selected, n)|
    ensures forall k :: 0 <= k < |Picked(selected, n)| ==>
      Picked(selected, n)[k] < n && Listed(selected, seen, n)[k] == Record(seen, Picked(selected, n)[k])
  {
    if n > 0 {
      ListedIs(selected, seen, n - 1);
    }
  }

  /** Batches hold 64 pages each, except that the last may hold fewer; none is empty. */
  ghost predicate Full(bs: seq<seq<PageRecord>>) {
    && (forall k :: 0 <= k < |bs| ==> 0 < |bs[k]| <= BATCH_SIZE)
    && (forall k :: 0 <= k < |bs| - 1 ==> |bs[k]| == BATCH_SIZE)
  }

  ghost predicate Frames(fs: seq<Frame>, bs: seq<seq<PageRecord>>) {
    |fs| == |bs| && forall k :: 0 <= k < |fs| ==> fs[k] == FrameOf(Batch(bs[k]))
  }

  lemma FlatBatch(bs: seq<seq<PageRecord>>, b: seq<PageRecord>)
    ensures Flat(bs + [b]) == Flat(bs) + b
  {
    assert (bs + [b])[..|bs|] == bs;
  }

  /** Where the sender stands: batches sent, and one being filled. */
  ghost predicate Progress(fs: seq<Frame>, bs: seq<seq<PageRecord>>, batch: seq<PageRecord>, all: seq<PageRecord>,
                           sent0: nat, sent: nat) {
    forall k {:trigger Use(k)} :: Use(k) ==> Collecting(fs, bs, batch, all, sent0, sent)
  }

  ghost predicate Collecting(fs: seq<Frame>, bs: seq<seq<PageRecord>>, batch: seq<PageRecord>, all: seq<PageRecord>,
                             sent0: nat, sent: nat) {
    && Frames(fs, bs) && (forall k :: 0 <= k < |bs| ==> |bs[k]| == BATCH_SIZE)
    && all == Flat(bs) + batch && sent == sent0 + |Flat(bs)|
  }

  lemma Added(fs: seq<Frame>, bs: seq<seq<PageRecord>>, batch: seq<PageRecord>, all: seq<PageRecord>, sent0: nat,
              sent: nat, r: PageRecord)
    requires Progress(fs, bs, batch, all, sent0, sent)
    ensures Progress(fs, bs, batch + [r], all + [r], sent0, sent)
  {
    assert Use(Key);
    Regroup(Flat(bs), batch, [r]);
  }

  lemma FramesMore(fs: seq<Frame>, bs: seq<seq<PageRecord>>, batch: seq<PageRecord>, f: Frame)
    requires Frames(fs, bs) && f == FrameOf(Batch(batch))
    ensures Frames(fs + [f], bs + [batch])
  {
  }

  lemma FullLast(bs: seq<seq<PageRecord>>, batch: seq<PageRecord>)
    requires (forall k :: 0 <= k < |bs| ==> |bs[k]| == BATCH_SIZE) && 0 < |batch| <= BATCH_SIZE
    ensures Full(bs + [batch])
  {
  }

  lemma SentBatch(fs: seq<Frame>, fs': seq<Frame>, bs: seq<seq<PageRecord>>, batch: seq<PageRecord>,
                  all: seq<PageRecord>, sent0: nat, sent: nat)
    requires Progress(fs, bs, batch, all, sent0, sent) && fs' == fs + [FrameOf(Batch(batch))] && |batch| == BATCH_SIZE
    ensures Progress(fs', bs + [batch], [], all, sent0, sent + |batch|)
  {
    assert Use(Key);
    FramesMore(fs, bs, batch, FrameOf(Batch(batch)));
    FlatBatch(bs, batch);
    assert all + [] == all;
  }

  lemma LastBatch(fs: seq<Frame>, fs': seq<Frame>, bs: seq<seq<PageRecord>>, batch: seq<PageRecord>,
                  all: seq<PageRecord>, sent0: nat, sent: nat)
    requires Progress(fs, bs, batch, all, sent0, sent) && fs' == fs + [FrameOf(Batch(batch))]
    requires 0 < |batch| <= BATCH_SIZE
    ensures Frames(fs', bs + [batch]) && Full(bs + [batch]) && Flat(bs + [batch]) == all
    ensures sent + |batch| == sent0 + |all|
  {
    assert Use(Key);
    FramesMore(fs, bs, batch, FrameOf(Batch(batch)));
    FullLast(bs, batch);
    FlatBatch(bs, batch);
  }

  lemma NoBatch(fs: seq<Frame>, bs: seq<seq<PageRecord>>, all: seq<PageRecord>, sent0: nat, sent: nat)
    requires Progress(fs, bs, [], all, sent0, sent)
    ensures Frames(fs, bs) && Full(bs) && Flat(bs) == all && sent == sent0 + |all|
  {
    assert Use(Key);
    assert Flat(bs) + [] == Flat(bs);
  }

  /** One round of the sender over all pages.  `selected` says which pages the test of
      the round picks and `seen` what the sender reads of each; both may be
      anything, since the guest may be running.  Besides the frames it returns the
      batches that they carry. */
  method SendRound(selected: seq<bool>, seen: seq<Page>, sent0: nat)
    returns (fs: seq<Frame>, sent: nat, bs: seq<seq<PageRecord>>)
    requires |selected| == |seen|
    ensures Frames(fs, bs) && Full(bs) && Flat(bs) == Listed(selected, seen, |selected|)
    ensures sent == sent0 + |Flat(bs)|
  {
    fs, sent, bs := [], sent0, [];
    var batch: seq<PageRecord> := [];
    for p := 0 to |selected|
      invariant Progress(fs, bs, batch, Listed(selected, seen, p), sent0, sent) && |batch| < BATCH_SIZE
    {
      if selected[p] {
        Added(fs, bs, batch, Listed(selected, seen, p), sent0, sent, Record(seen, p));
        batch := batch + [Record(seen, p)];
        if |batch| >= BATCH_SIZE {
          ghost var was, n := fs, sent;
          fs, sent := SendBatch(fs, batch, sent);
          SentBatch(was, fs, bs, batch, Listed(selected, seen, p + 1), sent0, n);
          bs, batch := bs + [batch], [];
        }
      } else {
        assert Listed(selected, seen, p + 1) == Listed(selected, seen, p);
      }
    }
    if batch != [] {
      ghost var was, n := fs, sent;
      fs, sent := SendBatch(fs, batch, sent);
      LastBatch(was, fs, bs, batch, Listed(selected, seen, |selected|), sent0, n);
      bs := bs + [batch];
    } else {
      NoBatch(fs, bs, Listed(selected, seen, |selected|), sent0, sent);
    }
  }

  method SendBatch(fs: seq<Frame>, batch: seq<PageRecord>, sent: nat) returns (fs': seq<Frame>, sent': nat)
    ensures fs' == fs + [FrameOf(Batch(batch))] && sent' == sent + |batch|
  {
    var payload := EncodePageBatch(batch);
    fs', sent' := fs + [Frame(2, payload)], sent + |batch|;
  }

  /** The count of dirty pages that decides about convergence. */
  method CountDirty(bitmap: seq<byte>, pages: nat) returns (n: nat)
    ensures n == Rank(bitmap, pages)
  {
    n := 0;
    for p := 0 to pages
      invariant n == Rank(bitmap, p)
    {
      if p / 8 < |bitmap| && Bit(bitmap[p / 8], p % 8) {
        n := n + 1;
      }
    }
  }

  /** That count is the number of pages that the protocol's bitmap holds. */
  lemma {:induction false} CountAgrees(bitmap: seq<byte>, marked: set<nat>, n: nat)
    requires forall p: nat :: p in marked <==> Marked(bitmap, p)
    ensures Rank(bitmap, n) == CountBelow(marked, n)
  {
    if n > 0 {
      CountAgrees(bitmap, marked, n - 1);
    }
  }

  // ----- the receiver's loop

  function FrameOf(m: Message): Frame {
    match m
    case Batch(ps) => Frame(2, BatchBytes(ps))
    case FinalRound => Frame(3, [])
    case Vcpu(i, v) => Frame(4, EncodeVcpu(i, v))
    case Device(d) => Frame(5, d)
    case Complete => Frame(6, [])
  }

  /** One frame; None is an error. */
  function Handle(r: Receiver, f: Frame): Option<Receiver> {
    match f.kind
    case 2 => (match BatchOf(f.payload) case None => None case Some(ps) => Some(ApplyPages(r, ps)))
    case 3 => Some(r.(gotFinal := true))
    case 4 => (match DecodeVcpu(f.payload) case None => None case Some(v) => Some(r.(vcpus := r.vcpus + [v])))
    case 5 => Some(r.(device := Some(f.payload)))
    case 6 => Some(r.(done := true))
    case _ => Some(r)
  }

  lemma OnlySixEnds(r: Receiver, f: Frame)
    ensures Handle(r, f).Some? ==> (Handle(r, f).value.done <==> r.done || f.kind == 6)
  {
    if f.kind == 2 && BatchOf(f.payload).Some? {
      PagesNeverEnd(r, BatchOf(f.payload).value);
    }
  }

  /** The loop on a byte stream: frames up to the first Complete. */
  function Consume(r: Receiver, s: seq<byte>): Option<Receiver>
    decreases |s|
  {
    match ReadFrame(s)
    case None => None
    case Some((f, rest)) =>
      match Handle(r, f)
      case None => None
      case Some(r') => if f.kind == 6 then Some(r') else Consume(r', rest)
  }

  /** The field lengths fit their 32-bit prefixes. */
  predicate Sendable(m: Message) {
    && |FrameOf(m).payload| < 0x1_0000_0000
    && (m.Batch? ==> forall k :: 0 <= k < |m.pages| ==> m.pages[k].offset < 0x1_0000_0000_0000_0000)
  }

  lemma HandleSent(r: Receiver, m: Message)
    requires Sendable(m)
    ensures Handle(r, FrameOf(m)) == Some(Receive(r, m))
  {
    match m
    case Batch(ps) => BatchRoundTrip(ps);
    case Vcpu(i, v) => VcpuParts(i, v);
    case _ =>
  }

  function StreamOf(ms: seq<Message>): seq<byte> {
    if ms == [] then [] else WriteFrame(FrameOf(ms[0])) + StreamOf(ms[1..])
  }

  /** The receiver's loop on the bytes of a message sequence that ends with Complete
      does what the messages say, whatever follows. */
  lemma {:induction false} ConsumeSent(r: Receiver, ms: seq<Message>, rest: seq<byte>)
    requires ms != [] && ms[|ms| - 1].Complete? && forall k :: 0 <= k < |ms| ==> Sendable(ms[k])
    requires forall k :: 0 <= k < |ms| - 1 ==> !ms[k].Complete?
    ensures Consume(r, StreamOf(ms) + rest) == Some(ReceiveAll(r, ms))
    decreases |ms|
  {
    var f, tail := FrameOf(ms[0]), StreamOf(ms[1..]) + rest;
    assert StreamOf(ms) + rest == WriteFrame(f) + tail;
    FrameRoundTrip(f, tail);
    HandleSent(r, ms[0]);
    if |ms| > 1 {
      assert ms[1..][|ms| - 2] == ms[|ms| - 1];
      ConsumeSent(Receive(r, ms[0]), ms[1..], rest);
    } else {
      assert ms[1..] == [];
    }
  }

  class MigrationTarget {
    var memory: seq<byte>
    var pages: nat
    var vcpus: seq<VcpuState>
    var device: Option<seq<byte>>
    var gotFinal: bool
    var done: bool

    ghost function R(): Receiver
      reads this
    {
      Receiver(memory, pages, vcpus, device, gotFinal, done)
    }

    /** Copy each page of a batch that fits into memory. */
    method ApplyBatch(ps: seq<PageRecord>)
      modifies this`memory, this`pages
      ensures R() == ApplyPages(old(R()), ps)
    {
      for k := 0 to |ps|
        invariant R() == ApplyPages(old(R()), ps[..k])
      {
        assert ps[..k + 1][..k] == ps[..k];
        if ps[k].offset + 4096 <= |memory| {
          memory := Splice(memory, ps[k].offset, ps[k].data);
          pages := pages + 1;
        }
      }
      assert ps[..|ps|] == ps;
    }

    method HandleFrame(f: Frame) returns (ok: bool)
      modifies this
      ensures ok <==> Handle(old(R()), f).Some?
      ensures ok ==> Handle(old(R()), f) == Some(R())
    {
      match f.kind {
      case 2 =>
        var batch := DecodePageBatch(f.payload);
        if batch == None {
          return false;
        }
        ApplyBatch(batch.value);
      case 3 =>
        gotFinal := true;
      case 4 =>
        var v := DecodeVcpu(f.payload);
        if v == None {
          return false;
        }
        vcpus := vcpus + [v.value];
      case 5 =>
        device := Some(f.payload);
      case 6 =>
        done := true;
      case _ =>
      }
      ok := true;
    }

    /** `run_receiver`'s loop.  It fails on a malformed stream, on a malformed message,
        and when Complete comes without the final-round marker. */
    method Run(stream: seq<byte>) returns (ok: bool)
      requires !done
      modifies this
      ensures ok <==> Consume(old(R()), stream).Some? && Consume(old(R()), stream).value.gotFinal
      ensures ok ==> Consume(old(R()), stream) == Some(R()) && done
    {
      var rest := stream;
      while !done
        invariant !done ==> Consume(R(), rest) == Consume(old(R()), stream)
        invariant done ==> Consume(old(R()), stream) == Some(R())
        decreases !done, |rest|
      {
        var next := ReadFrame(rest);
        if next == None {
          return false;
        }
        OnlySixEnds(R(), next.value.0);
        ok := HandleFrame(next.value.0);
        if !ok {
          return false;
        }
        rest := next.value.1;
      }
      ok := gotFinal;
    }
  }
}
