/** The wire format of live migration (src/migration/mod.rs): framed messages,
    batches of memory pages and vCPU state records. */
module MigrationWire {
  import opened Bytes

  /** A page has 4096 bytes; encoded, with its offset, 4104. */
  type Page = d: seq<byte> | |d| == 4096 witness Zeros(4096)

  datatype PageRecord = PageRecord(offset: nat, data: Page)

  // ----- frames

  datatype Frame = Frame(kind: byte, payload: seq<byte>)

  function WriteFrame(m: Frame): (s: seq<byte>)
    ensures |s| == 5 + |m.payload|
  {
    [m.kind] + ToLE(|m.payload|, 4) + m.payload
  }

  /** The next frame of a byte stream and the rest of the stream; None when the
      stream ends inside it. */
  function ReadFrame(s: seq<byte>): (r: Option<(Frame, seq<byte>)>)
    ensures r.Some? ==> |r.value.1| < |s|
  {
    if |s| < 5 then None else
    var len := FromLE(s[1..5]);
    if |s| < 5 + len then None else Some((Frame(s[0], s[5..5 + len]), s[5 + len..]))
  }

  lemma {:induction false} LowBytes(n: nat, k: nat)
    ensures FromLE(ToLE(n, k)) == n % Radix(k)
    decreases k
  {
    if k > 0 {
      LowBytes(n / 256, k - 1);
      assert ToLE(n, k)[1..] == ToLE(n / 256, k - 1);
      SplitMod(n, Radix(k - 1));
    }
  }

  lemma SplitMod(n: nat, m: nat)
    requires m > 0
    ensures n % (256 * m) == n % 256 + 256 * (n / 256 % m)
  {
    DivMod(n / 256, m);
    var q, r := Quot(n / 256, m), Rem(n / 256, m);
    assert n == (256 * m) * q + (n % 256 + 256 * r) by {
      assert 256 * (m * q) == (256 * m) * q;
    }
    QuotRem(n, 256 * m, q, n % 256 + 256 * r);
  }

  /** A frame is read back as it was written, and the stream continues after it,
      exactly when the length of its payload fits 32 bits. */
  lemma FrameRoundTrip(m: Frame, rest: seq<byte>)
    ensures ReadFrame(WriteFrame(m) + rest) == Some((m, rest)) <==> |m.payload| < 0x1_0000_0000
  {
    var s := WriteFrame(m) + rest;
    assert s[1..5] == ToLE(|m.payload|, 4);
    LowBytes(|m.payload|, 4);
    RadixValues();
    if |m.payload| < 0x1_0000_0000 {
      assert s[5..5 + |m.payload|] == m.payload;
      assert s[5 + |m.payload|..] == rest;
    }
  }

  // ----- page batches

  function EncodePage(p: PageRecord): (s: seq<byte>)
    ensures |s| == 4104
  {
    ToLE(p.offset, 8) + p.data
  }

  function EncodePages(ps: seq<PageRecord>): (s: seq<byte>)
    ensures |s| == 4104 * |ps|
  {
    if ps == [] then [] else EncodePages(ps[..|ps| - 1]) + EncodePage(ps[|ps| - 1])
  }

  function BatchBytes(ps: seq<PageRecord>): (s: seq<byte>)
    ensures |s| == 4 + 4104 * |ps|
  {
    ToLE(|ps|, 4) + EncodePages(ps)
  }

  lemma EncodeNext(ps: seq<PageRecord>, k: nat)
    requires k < |ps|
    ensures EncodePages(ps[..k + 1]) == EncodePages(ps[..k]) + EncodePage(ps[k])
  {
    assert ps[..k + 1][..k] == ps[..k];
  }

  /** `encode_page_batch` */
  method EncodePageBatch(ps: seq<PageRecord>) returns (buf: seq<byte>)
    ensures buf == BatchBytes(ps)
  {
    buf := ToLE(|ps|, 4);
    for k := 0 to |ps|
      invariant buf == ToLE(|ps|, 4) + EncodePages(ps[..k])
    {
      EncodeNext(ps, k);
      Regroup(ToLE(|ps|, 4), EncodePages(ps[..k]), EncodePage(ps[k]));
      buf := buf + EncodePage(ps[k]);
    }
    assert ps[..|ps|] == ps;
  }

  function RecordFrom(b: seq<byte>, at: nat): PageRecord
    requires at + 4104 <= |b|
  {
    PageRecord(FromLE(b[at..at + 8]), b[at + 8..at + 4104])
  }

  /** Record k of a batch. */
  function RecordAt(b: seq<byte>, k: nat): PageRecord
    requires 4 + 4104 * k + 4104 <= |b|
  {
    RecordFrom(b, 4 + 4104 * k)
  }

  function CountOf(b: seq<byte>): nat
    requires |b| >= 4
  {
    FromLE(b[..4])
  }

  /** What a payload says as a page batch: it must hold the records that it
      announces; bytes after them are ignored. */
  function BatchOf(b: seq<byte>): Option<seq<PageRecord>> {
    if |b| < 4 || |b| < 4 + 4104 * CountOf(b) then None
    else Some(seq(CountOf(b), k requires 0 <= k < CountOf(b) => RecordAt(b, k)))
  }

  /** `decode_page_batch` */
  method DecodePageBatch(b: seq<byte>) returns (r: Option<seq<PageRecord>>)
    ensures r == BatchOf(b)
  {
    if |b| < 4 {
      return None;
    }
    var count := FromLE(b[0..4]);
    assert b[0..4] == b[..4];
    var offset := 4;
    var ps: seq<PageRecord> := [];
    var n := 0;
    while n < count
      invariant n <= count && n == |ps| && offset == 4 + 4104 * n <= |b|
      invariant forall k :: 0 <= k < n ==> ps[k] == RecordAt(b, k)
    {
      if offset + 8 + 4096 > |b| {
        return None;
      }
      assert b[offset + 8..offset + 8 + 4096] == b[offset + 8..offset + 4104];
      ps := ps + [PageRecord(FromLE(b[offset..offset + 8]), b[offset + 8..offset + 8 + 4096])];
      offset := offset + 8 + 4096;
      n := n + 1;
    }
    assert ps == BatchOf(b).value;
    return Some(ps);
  }

  lemma {:induction false} EncodedRecord(ps: seq<PageRecord>, k: nat, at: nat)
    requires k < |ps| && at == 4104 * k
    ensures EncodePages(ps)[at..at + 4104] == EncodePage(ps[k])
  {
    var last := |ps| - 1;
    var e, d := EncodePages(ps[..last]), EncodePage(ps[last]);
    assert EncodePages(ps) == e + d;
    if k < last {
      EncodedRecord(ps[..last], k, at);
      PrefixSlice(e, d, at, 4104);
    } else {
      SuffixSlice(e, d, at, 4104);
    }
  }

  lemma SuffixSlice(e: seq<byte>, d: seq<byte>, at: nat, n: nat)
    requires at == |e| && n == |d|
    ensures (e + d)[at..at + n] == d
  {
  }

  lemma PrefixSlice(e: seq<byte>, d: seq<byte>, at: nat, n: nat)
    requires at + n <= |e|
    ensures (e + d)[at..at + n] == e[at..at + n]
  {
  }

  lemma SameRecord(b: seq<byte>, at: nat, p: PageRecord)
    requires at + 4104 <= |b| && p.offset < 0x1_0000_0000_0000_0000 && b[at..at + 4104] == EncodePage(p)
    ensures RecordFrom(b, at) == p
  {
    SubSlice(b, at, 4104, 0, 8);
    SubSlice(b, at, 4104, 8, 4096);
    assert EncodePage(p)[0..8] == ToLE(p.offset, 8);
    assert EncodePage(p)[8..4104] == p.data;
    RadixValues();
    FromToLE(p.offset, 8);
  }

  lemma AfterCount(c: seq<byte>, e: seq<byte>, b: seq<byte>, at: nat, n: nat)
    requires |c| == 4 && at + n <= |e| && b == c + e
    ensures b[4 + at..4 + at + n] == e[at..at + n]
  {
  }

  lemma BatchRecord(ps: seq<PageRecord>, b: seq<byte>, e: seq<byte>, k: nat, at: nat)
    requires k < |ps| && ps[k].offset < 0x1_0000_0000_0000_0000 && at == 4104 * k && |b| == 4 + |e|
    requires e == EncodePages(ps) && b == ToLE(|ps|, 4) + e
    ensures RecordFrom(b, 4 + at) == ps[k]
  {
    EncodedRecord(ps, k, at);
    AfterCount(ToLE(|ps|, 4), e, b, at, 4104);
    SameRecord(b, 4 + at, ps[k]);
  }

  lemma LowCount(n: nat)
    ensures FromLE(ToLE(n, 4)) == n % 0x1_0000_0000
  {
    LowBytes(n, 4);
    RadixValues();
  }

  /** Decoding inverts encoding, exactly when the number of pages fits 32 bits. */
  lemma BatchRoundTrip(ps: seq<PageRecord>)
    requires forall k :: 0 <= k < |ps| ==> ps[k].offset < 0x1_0000_0000_0000_0000
    ensures BatchOf(BatchBytes(ps)) == Some(ps) <==> |ps| < 0x1_0000_0000
  {
    var b := BatchBytes(ps);
    assert b[..4] == ToLE(|ps|, 4);
    LowCount(|ps|);
    if |ps| < 0x1_0000_0000 {
      forall k | 0 <= k < |ps| ensures RecordAt(b, k) == ps[k] {
        BatchRecord(ps, b, EncodePages(ps), k, 4104 * k);
      }
      assert BatchOf(b).value == ps;
    }
  }

  // ----- vCPU state

  datatype VcpuState = VcpuState(
    regs: seq<byte>, sregs: seq<byte>, lapic: seq<byte>, fpu: seq<byte>, xsave: seq<byte>, xcrs: seq<byte>,
    mpState: seq<byte>, vcpuEvents: seq<byte>, debugRegs: seq<byte>, msrs: seq<byte>, tscKhz: nat, cpuid: seq<byte>)

  /** A state with general and special registers only. */
  function Registers(regs: seq<byte>, sregs: seq<byte>): VcpuState {
    VcpuState(regs, sregs, [], [], [], [], [], [], [], [], 0, [])
  }

  /** The payload that the sender makes for vCPU i. */
  function EncodeVcpu(i: nat, v: VcpuState): (s: seq<byte>)
    ensures |s| == 12 + |v.regs| + |v.sregs|
  {
    ToLE(i, 4) + ToLE(|v.regs|, 4) + v.regs + ToLE(|v.sregs|, 4) + v.sregs
  }

  /** `decode_vcpu_state` */
  function DecodeVcpu(b: seq<byte>): Option<VcpuState> {
    if |b| < 12 then None else
    var n := FromLE(b[4..8]);
    if 8 + n > |b| then None else
    if 8 + n + 4 > |b| then None else
    var m := FromLE(b[8 + n..8 + n + 4]);
    if 8 + n + 4 + m > |b| then None else
    Some(Registers(b[8..8 + n], b[8 + n + 4..8 + n + 4 + m]))
  }

  lemma FiveParts(a: seq<byte>, b: seq<byte>, c: seq<byte>, d: seq<byte>, e: seq<byte>, s: seq<byte>)
    requires s == a + b + c + d + e
    ensures s[|a|..|a| + |b|] == b && s[|a| + |b|..|a| + |b| + |c|] == c
    ensures s[|a| + |b| + |c|..|a| + |b| + |c| + |d|] == d && s[|a| + |b| + |c| + |d|..] == e
  {
  }

  lemma VcpuParts(i: nat, v: VcpuState)
    requires |v.regs| < 0x1_0000_0000 && |v.sregs| < 0x1_0000_0000
    ensures DecodeVcpu(EncodeVcpu(i, v)) == Some(Registers(v.regs, v.sregs))
  {
    var b, n, m := EncodeVcpu(i, v), |v.regs|, |v.sregs|;
    FiveParts(ToLE(i, 4), ToLE(n, 4), v.regs, ToLE(m, 4), v.sregs, b);
    Length(n);
    Length(m);
    assert b[8 + n + 4..8 + n + 4 + m] == b[8 + n + 4..];
  }

  lemma Length(n: nat)
    requires n < 0x1_0000_0000
    ensures FromLE(ToLE(n, 4)) == n
  {
    RadixValues();
    FromToLE(n, 4);
  }

  /** Only the general and special registers of a vCPU reach the receiver: a state
      arrives intact exactly when it has nothing else in it. */
  lemma VcpuRoundTrip(i: nat, v: VcpuState)
    requires |v.regs| < 0x1_0000_0000 && |v.sregs| < 0x1_0000_0000
    ensures DecodeVcpu(EncodeVcpu(i, v)) == Some(v) <==>
      v.lapic == v.fpu == v.xsave == v.xcrs == v.mpState == v.vcpuEvents == v.debugRegs == v.msrs == v.cpuid == [] &&
        v.tscKhz == 0
  {
    VcpuParts(i, v);
  }

  /** A state with one byte of local APIC arrives without it. */
  lemma LapicLost(i: nat)
    ensures DecodeVcpu(EncodeVcpu(i, Registers([], []).(lapic := [1]))) != Some(Registers([], []).(lapic := [1]))
  {
    VcpuRoundTrip(i, Registers([], []).(lapic := [1]));
  }
}
