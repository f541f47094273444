/** The QCOW2 image header (src/storage/qcow2.rs, section "Header" of the QCOW2
    format).  Parsing and writing are modelled byte for byte, including the
    version 3 extension fields, which the code places from byte 68 on, four
    bytes into `snapshotsOffset`. */
module Qcow2Header {
  import opened Bytes

  const MAGIC := 0x514649fb
  const DEFAULT_REFCOUNT_ORDER := 4
  const V3_HEADER_SIZE := 104

  datatype Header = Header(
    magic: nat, version: nat,
    backingFileOffset: nat, backingFileSize: nat,
    clusterBits: nat, size: nat, cryptMethod: nat,
    l1Size: nat, l1TableOffset: nat,
    refcountTableOffset: nat, refcountTableClusters: nat,
    nbSnapshots: nat, snapshotsOffset: nat,
    incompatibleFeatures: nat, compatibleFeatures: nat, autoclearFeatures: nat,
    refcountOrder: nat, headerLength: nat)

  /** Every field fits the integer type that the source declares for it. */
  predicate InRange(h: Header) {
    && h.magic < 0x1_0000_0000 && h.version < 0x1_0000_0000
    && h.backingFileOffset < 0x1_0000_0000_0000_0000 && h.backingFileSize < 0x1_0000_0000
    && h.clusterBits < 0x1_0000_0000 && h.size < 0x1_0000_0000_0000_0000
    && h.cryptMethod < 0x1_0000_0000 && h.l1Size < 0x1_0000_0000
    && h.l1TableOffset < 0x1_0000_0000_0000_0000
    && h.refcountTableOffset < 0x1_0000_0000_0000_0000
    && h.refcountTableClusters < 0x1_0000_0000 && h.nbSnapshots < 0x1_0000_0000
    && h.snapshotsOffset < 0x1_0000_0000_0000_0000
    && h.incompatibleFeatures < 0x1_0000_0000_0000_0000
    && h.compatibleFeatures < 0x1_0000_0000_0000_0000
    && h.autoclearFeatures < 0x1_0000_0000_0000_0000
    && h.refcountOrder < 0x1_0000_0000 && h.headerLength < 0x1_0000_0000
  }

  /** The checks that parsing makes before it accepts a header. */
  predicate Supported(h: Header) {
    && h.magic == MAGIC
    && (h.version == 2 || h.version == 3)
    && 9 <= h.clusterBits <= 21
    && h.cryptMethod == 0
  }

  /** Three big-endian fields, each with its width in bytes. */
  function Pack(a: nat, wa: nat, b: nat, wb: nat, c: nat, wc: nat): (s: seq<byte>)
    ensures |s| == wa + wb + wc
  {
    ToBE(a, wa) + ToBE(b, wb) + ToBE(c, wc)
  }

  /** The first 64 bytes, common to both versions. */
  function BaseBytes(h: Header): (s: seq<byte>)
    ensures |s| == 64
  {
    Pack(h.magic, 4, h.version, 4, h.backingFileOffset, 8)
    + Pack(h.backingFileSize, 4, h.clusterBits, 4, h.size, 8)
    + Pack(h.cryptMethod, 4, h.l1Size, 4, h.l1TableOffset, 8)
    + Pack(h.refcountTableOffset, 8, h.refcountTableClusters, 4, h.nbSnapshots, 4)
  }

  function ExtensionBytes(h: Header): (s: seq<byte>)
    ensures |s| == 36
  {
    Pack(h.incompatibleFeatures, 8, h.compatibleFeatures, 8, h.autoclearFeatures, 8)
    + Pack(h.refcountOrder, 4, h.headerLength, 4, 0, 4)
  }

  /** `write_to`: version 3 overwrites the second half of `snapshotsOffset`. */
  function WriteHeader(h: Header): (s: seq<byte>)
    ensures |s| == if h.version == 3 then 104 else 72
  {
    var base := BaseBytes(h) + ToBE(h.snapshotsOffset, 8);
    if h.version == 3 then base[..68] + ExtensionBytes(h) else base
  }

  /** The big-endian number in bytes from..to. */
  function Field(f: seq<byte>, from: nat, to: nat): nat
    requires from <= to <= |f|
  {
    FromBE(f[from..to])
  }

  /** `read_from` on a file with contents f. */
  function ReadHeader(f: seq<byte>): Option<Header> {
    if |f| < 72 then None else
    var version := Field(f, 4, 8);
    if Field(f, 0, 4) != MAGIC || (version != 2 && version != 3) then None else
    if !(9 <= Field(f, 20, 24) <= 21) || Field(f, 32, 36) != 0 then None else
    if version == 3 && |f| < 104 then None else
    var v3 := version == 3;
    Some(Header(
      Field(f, 0, 4), version, Field(f, 8, 16), Field(f, 16, 20),
      Field(f, 20, 24), Field(f, 24, 32), Field(f, 32, 36),
      Field(f, 36, 40), Field(f, 40, 48), Field(f, 48, 56), Field(f, 56, 60),
      Field(f, 60, 64), Field(f, 64, 72),
      if v3 then Field(f, 68, 76) else 0, if v3 then Field(f, 76, 84) else 0,
      if v3 then Field(f, 84, 92) else 0,
      if v3 then Field(f, 92, 96) else DEFAULT_REFCOUNT_ORDER, if v3 then Field(f, 96, 100) else 72))
  }

  /** The headers that survive being written and read back: in version 2 the
      extension fields hold their defaults; in version 3 the four shared bytes
      hold the same value for both fields that claim them. */
  predicate Representable(h: Header) {
    if h.version == 3 then
      h.snapshotsOffset % 0x1_0000_0000 == h.incompatibleFeatures / 0x1_0000_0000
    else
      && h.incompatibleFeatures == 0 && h.compatibleFeatures == 0 && h.autoclearFeatures == 0
      && h.refcountOrder == DEFAULT_REFCOUNT_ORDER && h.headerLength == 72
  }

  /** What is left of a header: version 3 overwrites the low half of the snapshot
      offset, version 2 has no extension fields. */
  function Survivor(h: Header): Header {
    if h.version == 3 then
      h.(snapshotsOffset := h.snapshotsOffset / 0x1_0000_0000 * 0x1_0000_0000 + h.incompatibleFeatures / 0x1_0000_0000)
    else
      h.(incompatibleFeatures := 0, compatibleFeatures := 0, autoclearFeatures := 0,
         refcountOrder := DEFAULT_REFCOUNT_ORDER, headerLength := 72)
  }

  lemma SurvivorIs(h: Header)
    requires InRange(h)
    ensures Survivor(h) == h <==> Representable(h)
  {
  }

  /** Reading back what was written yields the header, whatever follows it in
      the file, exactly for the representable headers. */
  lemma HeaderRoundTrip(h: Header, rest: seq<byte>)
    requires InRange(h) && Supported(h)
    ensures ReadHeader(WriteHeader(h) + rest) == Some(h) <==> Representable(h)
  {
    SurvivorIs(h);
    if h.version == 3 {
      RoundTrip3(h, rest);
    } else {
      RoundTrip2(h, rest);
    }
  }

  /** The fields that both versions share hold what h says. */
  predicate CommonFields(f: seq<byte>, h: Header)
    requires |f| >= 72
  {
    && Field(f, 0, 4) == h.magic && Field(f, 4, 8) == h.version
    && Field(f, 8, 16) == h.backingFileOffset && Field(f, 16, 20) == h.backingFileSize
    && Field(f, 20, 24) == h.clusterBits && Field(f, 24, 32) == h.size && Field(f, 32, 36) == h.cryptMethod
    && Field(f, 36, 40) == h.l1Size && Field(f, 40, 48) == h.l1TableOffset
    && Field(f, 48, 56) == h.refcountTableOffset && Field(f, 56, 60) == h.refcountTableClusters
    && Field(f, 60, 64) == h.nbSnapshots && Field(f, 64, 72) == h.snapshotsOffset
  }

  lemma Reads3(f: seq<byte>, h: Header)
    requires |f| >= 104 && CommonFields(f, h) && Supported(h) && h.version == 3
    requires Field(f, 68, 76) == h.incompatibleFeatures && Field(f, 76, 84) == h.compatibleFeatures
    requires Field(f, 84, 92) == h.autoclearFeatures && Field(f, 92, 96) == h.refcountOrder
    requires Field(f, 96, 100) == h.headerLength
    ensures ReadHeader(f) == Some(h)
  {
  }

  lemma RoundTrip3(h: Header, rest: seq<byte>)
    requires InRange(h) && Supported(h) && h.version == 3
    ensures ReadHeader(WriteHeader(h) + rest) == Some(Survivor(h))
  {
    BaseFields(h, rest);
    ExtensionFields(h, rest);
    SharedBytes(h, rest);
    Reads3(WriteHeader(h) + rest, Survivor(h));
  }

  lemma RoundTrip2(h: Header, rest: seq<byte>)
    requires InRange(h) && Supported(h) && h.version == 2
    ensures ReadHeader(WriteHeader(h) + rest) == Some(Survivor(h))
  {
    BaseFields(h, rest);
    Version2Snapshots(h, rest);
  }

  /** Headers that parsing supports and that do not survive: the snapshot table lies
      at 4096, and the extension fields overwrite that number. */
  lemma SnapshotOffsetLost(h: Header, rest: seq<byte>)
    requires InRange(h) && Supported(h) && h.version == 3 && h.snapshotsOffset == 4096 && h.incompatibleFeatures == 0
    ensures ReadHeader(WriteHeader(h) + rest) != Some(h)
  {
    NotRepresentable(h);
    HeaderRoundTrip(h, rest);
  }

  lemma NotRepresentable(h: Header)
    requires h.version == 3 && h.snapshotsOffset == 4096 && h.incompatibleFeatures == 0
    ensures !Representable(h)
  {
  }

  // ----- what is accepted

  /** The first bytes of a file that parsing accepts: "QFI" and 0xfb, version 2 or 3, a
      cluster size of 512 bytes to 2 MB, and no encryption. */
  predicate Acceptable(f: seq<byte>) {
    && |f| >= 72 && f[0..4] == [0x51, 0x46, 0x49, 0xfb] && f[4..7] == [0, 0, 0]
    && (f[7] == 2 || (f[7] == 3 && |f| >= 104))
    && f[20..23] == [0, 0, 0] && 9 <= f[23] <= 21 && f[32..36] == [0, 0, 0, 0]
  }

  lemma FourBytes(f: seq<byte>, at: nat)
    requires at + 4 <= |f|
    ensures var a: nat, b: nat, c: nat, d: nat := f[at], f[at + 1], f[at + 2], f[at + 3];
      Field(f, at, at + 4) == 0x100_0000 * a + 0x1_0000 * b + 0x100 * c + d
  {
    var s := f[at..at + 4];
    assert s[..3][..2] == s[..2] && s[..2][..1] == s[..1] && s[..1][..0] == [];
    assert FromBE(s) == 256 * FromBE(s[..3]) + s[3];
    assert FromBE(s[..3]) == 256 * FromBE(s[..2]) + s[2];
    assert FromBE(s[..2]) == 256 * FromBE(s[..1]) + s[1];
    assert FromBE(s[..1]) == s[0];
  }

  /** Parsing accepts exactly these files. */
  lemma AcceptsExactly(f: seq<byte>)
    ensures ReadHeader(f).Some? <==> Acceptable(f)
    ensures ReadHeader(f).Some? ==> Supported(ReadHeader(f).value)
  {
    if |f| >= 72 {
      FourBytes(f, 0);
      FourBytes(f, 4);
      FourBytes(f, 20);
      FourBytes(f, 32);
      assert f[0..4] == [f[0], f[1], f[2], f[3]] && f[4..7] == [f[4], f[5], f[6]];
      assert f[20..23] == [f[20], f[21], f[22]] && f[32..36] == [f[32], f[33], f[34], f[35]];
    }
  }

  // ----- the fields one by one

  lemma Stretch(f: seq<byte>, from: nat, to: nat, at: nat, pre: seq<byte>, v: seq<byte>, post: seq<byte>, end: nat)
    requires at <= from <= to <= end <= |f| && |pre| == from - at && |v| == to - from
    requires f[at..end] == pre + v + post
    ensures f[from..to] == v
  {
    forall i | 0 <= i < to - from ensures f[from..to][i] == v[i] {
      assert f[from..to][i] == f[at..end][|pre| + i];
    }
  }

  lemma ReadBack(f: seq<byte>, from: nat, to: nat, v: nat)
    requires from <= to <= |f| && f[from..to] == ToBE(v, to - from) && v < Radix(to - from)
    ensures Field(f, from, to) == v
  {
    FromToBE(v, to - from);
  }

  lemma PackFields(f: seq<byte>, p0: nat, a: nat, p1: nat, b: nat, p2: nat, c: nat, p3: nat)
    requires p0 <= p1 <= p2 <= p3 <= |f| && f[p0..p3] == Pack(a, p1 - p0, b, p2 - p1, c, p3 - p2)
    requires a < Radix(p1 - p0) && b < Radix(p2 - p1) && c < Radix(p3 - p2)
    ensures Field(f, p0, p1) == a && Field(f, p1, p2) == b && Field(f, p2, p3) == c
  {
    var A, B, C := ToBE(a, p1 - p0), ToBE(b, p2 - p1), ToBE(c, p3 - p2);
    assert A + B + C == [] + A + (B + C) == (A + B) + C + [];
    Stretch(f, p0, p1, p0, [], A, B + C, p3);
    Stretch(f, p1, p2, p0, A, B, C, p3);
    Stretch(f, p2, p3, p0, A + B, C, [], p3);
    ReadBack(f, p0, p1, a);
    ReadBack(f, p1, p2, b);
    ReadBack(f, p2, p3, c);
  }

  /** The four rows of sixteen bytes. */
  lemma BaseRows(h: Header, f: seq<byte>, rest: seq<byte>)
    requires f == WriteHeader(h) + rest
    ensures f[0..16] == Pack(h.magic, 4, h.version, 4, h.backingFileOffset, 8)
    ensures f[16..32] == Pack(h.backingFileSize, 4, h.clusterBits, 4, h.size, 8)
    ensures f[32..48] == Pack(h.cryptMethod, 4, h.l1Size, 4, h.l1TableOffset, 8)
    ensures f[48..64] == Pack(h.refcountTableOffset, 8, h.refcountTableClusters, 4, h.nbSnapshots, 4)
  {
    assert f[..64] == BaseBytes(h);
    FourRows(f, Pack(h.magic, 4, h.version, 4, h.backingFileOffset, 8),
      Pack(h.backingFileSize, 4, h.clusterBits, 4, h.size, 8),
             Pack(h.cryptMethod, 4, h.l1Size, 4, h.l1TableOffset, 8),
             Pack(h.refcountTableOffset, 8, h.refcountTableClusters, 4, h.nbSnapshots, 4));
  }

  lemma FourRows(f: seq<byte>, a: seq<byte>, b: seq<byte>, c: seq<byte>, d: seq<byte>)
    requires |a| == |b| == |c| == |d| == 16 && |f| >= 64 && f[..64] == a + b + c + d
    ensures f[0..16] == a && f[16..32] == b && f[32..48] == c && f[48..64] == d
  {
    assert f[0..16] == f[..64][0..16];
    assert f[16..32] == f[..64][16..32];
    assert f[32..48] == f[..64][32..48];
    assert f[48..64] == f[..64][48..64];
  }

  lemma BaseFields(h: Header, rest: seq<byte>)
    requires InRange(h)
    ensures var f := WriteHeader(h) + rest;
      && Field(f, 0, 4) == h.magic && Field(f, 4, 8) == h.version
      && Field(f, 8, 16) == h.backingFileOffset && Field(f, 16, 20) == h.backingFileSize
      && Field(f, 20, 24) == h.clusterBits && Field(f, 24, 32) == h.size && Field(f, 32, 36) == h.cryptMethod
      && Field(f, 36, 40) == h.l1Size && Field(f, 40, 48) == h.l1TableOffset
      && Field(f, 48, 56) == h.refcountTableOffset && Field(f, 56, 60) == h.refcountTableClusters
      && Field(f, 60, 64) == h.nbSnapshots
  {
    var f := WriteHeader(h) + rest;
    RadixValues();
    BaseRows(h, f, rest);
    PackFields(f, 0, h.magic, 4, h.version, 8, h.backingFileOffset, 16);
    PackFields(f, 16, h.backingFileSize, 20, h.clusterBits, 24, h.size, 32);
    PackFields(f, 32, h.cryptMethod, 36, h.l1Size, 40, h.l1TableOffset, 48);
    PackFields(f, 48, h.refcountTableOffset, 56, h.refcountTableClusters, 60, h.nbSnapshots, 64);
  }

  lemma ExtensionFields(h: Header, rest: seq<byte>)
    requires InRange(h) && h.version == 3
    ensures var f := WriteHeader(h) + rest;
      && Field(f, 68, 76) == h.incompatibleFeatures && Field(f, 76, 84) == h.compatibleFeatures
      && Field(f, 84, 92) == h.autoclearFeatures
      && Field(f, 92, 96) == h.refcountOrder && Field(f, 96, 100) == h.headerLength
  {
    var f := WriteHeader(h) + rest;
    RadixValues();
    assert f[68..104] == ExtensionBytes(h);
    assert f[68..92] == f[68..104][0..24];
    assert f[92..104] == f[68..104][24..36];
    PackFields(f, 68, h.incompatibleFeatures, 76, h.compatibleFeatures, 84, h.autoclearFeatures, 92);
    PackFields(f, 92, h.refcountOrder, 96, h.headerLength, 100, 0, 104);
  }

  lemma Version2Snapshots(h: Header, rest: seq<byte>)
    requires InRange(h) && h.version == 2
    ensures Field(WriteHeader(h) + rest, 64, 72) == h.snapshotsOffset
  {
    RadixValues();
    var f := WriteHeader(h) + rest;
    assert f[0..72] == BaseBytes(h) + ToBE(h.snapshotsOffset, 8) + [];
    Stretch(f, 64, 72, 0, BaseBytes(h), ToBE(h.snapshotsOffset, 8), [], 72);
    ReadBack(f, 64, 72, h.snapshotsOffset);
  }

  function HighHalf(n: nat): (s: seq<byte>)
    requires n < 0x1_0000_0000_0000_0000
    ensures |s| == 4 && s == ToBE(n, 8)[..4]
  {
    Halves(n, n / 0x1_0000_0000, n % 0x1_0000_0000);
    ToBE(n / 0x1_0000_0000, 4)
  }

  lemma Halves(n: nat, hi: nat, lo: nat)
    requires n == hi * 0x1_0000_0000 + lo && lo < 0x1_0000_0000
    ensures ToBE(hi, 4) == ToBE(n, 8)[..4]
  {
    RadixValues();
    SplitBE(hi, 4, lo, 4);
  }

  lemma SharedSlice(base: seq<byte>, snap: seq<byte>, ext: seq<byte>, f: seq<byte>, rest: seq<byte>)
    requires |base| == 64 && |snap| == 8 && |ext| == 36 && f == (base + snap)[..68] + ext + rest
    ensures f[64..72] == snap[..4] + ext[..4]
  {
  }

  /** What version 3 leaves of `snapshotsOffset`: its high half, followed by the
      high half of `incompatibleFeatures`. */
  lemma SharedBytes(h: Header, rest: seq<byte>)
    requires InRange(h) && h.version == 3
    ensures Field(WriteHeader(h) + rest, 64, 72)
         == h.snapshotsOffset / 0x1_0000_0000 * 0x1_0000_0000 + h.incompatibleFeatures / 0x1_0000_0000
  {
    var f := WriteHeader(h) + rest;
    RadixValues();
    var hi, mid := HighHalf(h.snapshotsOffset), HighHalf(h.incompatibleFeatures);
    SharedSlice(BaseBytes(h), ToBE(h.snapshotsOffset, 8), ExtensionBytes(h), f, rest);
    assert ExtensionBytes(h)[..4] == ToBE(h.incompatibleFeatures, 8)[..4];
    FromToBE(h.snapshotsOffset / 0x1_0000_0000, 4);
    FromToBE(h.incompatibleFeatures / 0x1_0000_0000, 4);
    ConcatBE(hi, mid);
  }

  lemma {:induction false} SplitBE(a: nat, hi: nat, b: nat, lo: nat)
    requires b < Radix(lo)
    ensures ToBE(a * Radix(lo) + b, hi + lo) == ToBE(a, hi) + ToBE(b, lo)
    decreases lo
  {
    if lo > 0 {
      var t := a * Radix(lo - 1);
      assert a * Radix(lo) == 256 * t;
      SplitBE(a, hi, b / 256, lo - 1);
      assert (256 * t + b) / 256 == t + b / 256 && (256 * t + b) % 256 == b % 256;
    } else {
      assert ToBE(a, hi) + ToBE(b, lo) == ToBE(a, hi);
    }
  }

  lemma {:induction false} ConcatBE(a: seq<byte>, b: seq<byte>)
    ensures FromBE(a + b) == FromBE(a) * Radix(|b|) + FromBE(b)
  {
    if b == [] {
      assert a + b == a;
    } else {
      var b' := b[..|b| - 1];
      ConcatBE(a, b');
      LastByte(a, b);
      ShiftByte(FromBE(a), Radix(|b'|), Radix(|b|));
    }
  }

  lemma ShiftByte(n: nat, r: nat, r': nat)
    requires r' == 256 * r
    ensures n * r' == 256 * (n * r)
  {
  }

  lemma LastByte(a: seq<byte>, b: seq<byte>)
    requires b != []
    ensures FromBE(a + b) == 256 * FromBE(a + b[..|b| - 1]) + b[|b| - 1]
  {
    assert (a + b)[..|a + b| - 1] == a + b[..|b| - 1];
  }

  // ----- writing what was read

  lemma FieldIs(f: seq<byte>, from: nat, to: nat, v: nat)
    requires from <= to <= |f| && Field(f, from, to) == v
    ensures ToBE(v, to - from) == f[from..to]
    ensures to - from == 4 ==> v < 0x1_0000_0000
    ensures to - from == 8 ==> v < 0x1_0000_0000_0000_0000
  {
    ToFromBE(f[from..to]);
    FromBEBound(f[from..to]);
    RadixValues();
  }

  lemma PackIs(f: seq<byte>, p0: nat, a: nat, p1: nat, b: nat, p2: nat, c: nat, p3: nat)
    requires p0 <= p1 <= p2 <= p3 <= |f|
    requires Field(f, p0, p1) == a && Field(f, p1, p2) == b && Field(f, p2, p3) == c
    ensures Pack(a, p1 - p0, b, p2 - p1, c, p3 - p2) == f[p0..p3]
  {
    FieldIs(f, p0, p1, a);
    FieldIs(f, p1, p2, b);
    FieldIs(f, p2, p3, c);
  }

  /** What parsing takes from version 3 files only. */
  predicate ExtraFields(f: seq<byte>, h: Header)
    requires |f| >= 104
  {
    && Field(f, 68, 76) == h.incompatibleFeatures && Field(f, 76, 84) == h.compatibleFeatures
    && Field(f, 84, 92) == h.autoclearFeatures && Field(f, 92, 96) == h.refcountOrder
    && Field(f, 96, 100) == h.headerLength
  }

  lemma Parsed(f: seq<byte>, h: Header)
    requires ReadHeader(f) == Some(h)
    ensures |f| >= 72 && CommonFields(f, h) && (h.version == 2 || h.version == 3)
    ensures if h.version == 3 then |f| >= 104 && ExtraFields(f, h) else Survivor(h) == h
  {
  }

  lemma CommonInRange(f: seq<byte>, h: Header)
    requires |f| >= 72 && CommonFields(f, h)
    ensures h.magic < 0x1_0000_0000 && h.version < 0x1_0000_0000 && h.backingFileOffset < 0x1_0000_0000_0000_0000
    ensures h.backingFileSize < 0x1_0000_0000 && h.clusterBits < 0x1_0000_0000 && h.size < 0x1_0000_0000_0000_0000
    ensures h.cryptMethod < 0x1_0000_0000 && h.l1Size < 0x1_0000_0000 && h.l1TableOffset < 0x1_0000_0000_0000_0000
    ensures h.refcountTableOffset < 0x1_0000_0000_0000_0000 && h.refcountTableClusters < 0x1_0000_0000
    ensures h.nbSnapshots < 0x1_0000_0000 && h.snapshotsOffset < 0x1_0000_0000_0000_0000
  {
    FieldIs(f, 0, 4, h.magic);
    FieldIs(f, 4, 8, h.version);
    FieldIs(f, 8, 16, h.backingFileOffset);
    FieldIs(f, 16, 20, h.backingFileSize);
    FieldIs(f, 20, 24, h.clusterBits);
    FieldIs(f, 24, 32, h.size);
    FieldIs(f, 32, 36, h.cryptMethod);
    FieldIs(f, 36, 40, h.l1Size);
    FieldIs(f, 40, 48, h.l1TableOffset);
    FieldIs(f, 48, 56, h.refcountTableOffset);
    FieldIs(f, 56, 60, h.refcountTableClusters);
    FieldIs(f, 60, 64, h.nbSnapshots);
    FieldIs(f, 64, 72, h.snapshotsOffset);
  }

  lemma ExtraInRange(f: seq<byte>, h: Header)
    requires |f| >= 104 && ExtraFields(f, h)
    ensures h.incompatibleFeatures < 0x1_0000_0000_0000_0000 && h.compatibleFeatures < 0x1_0000_0000_0000_0000
    ensures h.autoclearFeatures < 0x1_0000_0000_0000_0000 && h.refcountOrder < 0x1_0000_0000
    ensures h.headerLength < 0x1_0000_0000
  {
    FieldIs(f, 68, 76, h.incompatibleFeatures);
    FieldIs(f, 76, 84, h.compatibleFeatures);
    FieldIs(f, 84, 92, h.autoclearFeatures);
    FieldIs(f, 92, 96, h.refcountOrder);
    FieldIs(f, 96, 100, h.headerLength);
  }

  lemma BaseIs(f: seq<byte>, h: Header)
    requires |f| >= 72 && CommonFields(f, h)
    ensures BaseBytes(h) == f[0..64] && ToBE(h.snapshotsOffset, 8) == f[64..72]
  {
    PackIs(f, 0, h.magic, 4, h.version, 8, h.backingFileOffset, 16);
    PackIs(f, 16, h.backingFileSize, 20, h.clusterBits, 24, h.size, 32);
    PackIs(f, 32, h.cryptMethod, 36, h.l1Size, 40, h.l1TableOffset, 48);
    PackIs(f, 48, h.refcountTableOffset, 56, h.refcountTableClusters, 60, h.nbSnapshots, 64);
    RowsJoined(f);
    FieldIs(f, 64, 72, h.snapshotsOffset);
  }

  lemma RowsJoined(f: seq<byte>)
    requires |f| >= 64
    ensures f[0..16] + f[16..32] + f[32..48] + f[48..64] == f[0..64]
  {
  }

  lemma ExtensionIs(f: seq<byte>, h: Header)
    requires |f| >= 104 && ExtraFields(f, h)
    ensures ExtensionBytes(h) == f[68..100] + [0, 0, 0, 0]
  {
    PackIs(f, 68, h.incompatibleFeatures, 76, h.compatibleFeatures, 84, h.autoclearFeatures, 92);
    FieldIs(f, 92, 96, h.refcountOrder);
    FieldIs(f, 96, 100, h.headerLength);
    ExtensionJoined(f[68..92], f[92..96], f[96..100]);
    assert f[68..92] + f[92..96] + f[96..100] == f[68..100];
    assert ToBE(0, 4) == [0, 0, 0, 0];
  }

  lemma ExtensionJoined(a: seq<byte>, b: seq<byte>, c: seq<byte>)
    ensures a + (b + c + ToBE(0, 4)) == a + b + c + ToBE(0, 4)
  {
  }

  /** Every header that is parsed is one of those that survive, and writing it back gives
      the bytes that were read, except for the four bytes of padding at 100. */
  lemma ReadThenWrite(f: seq<byte>, h: Header)
    requires ReadHeader(f) == Some(h)
    ensures InRange(h) && Representable(h)
    ensures WriteHeader(h) == if h.version == 3 then f[..100] + [0, 0, 0, 0] else f[..72]
  {
    Parsed(f, h);
    CommonInRange(f, h);
    BaseIs(f, h);
    if h.version == 3 {
      ExtraInRange(f, h);
      SharedHalves(f);
      ExtensionIs(f, h);
      Rejoined(f);
    }
  }

  lemma Rejoined(f: seq<byte>)
    requires |f| >= 104
    ensures (f[0..64] + f[64..72])[..68] + (f[68..100] + [0, 0, 0, 0]) == f[..100] + [0, 0, 0, 0]
    ensures f[0..64] + f[64..72] == f[..72]
  {
  }

  /** Bytes 68 to 71 are the low half of one field and the high half of another. */
  lemma SharedHalves(f: seq<byte>)
    requires |f| >= 76
    ensures Field(f, 64, 72) % 0x1_0000_0000 == Field(f, 68, 76) / 0x1_0000_0000
  {
    RadixValues();
    assert f[64..72] == f[64..68] + f[68..72] && f[68..76] == f[68..72] + f[72..76];
    ConcatBE(f[64..68], f[68..72]);
    ConcatBE(f[68..72], f[72..76]);
    FromBEBound(f[68..72]);
    FromBEBound(f[72..76]);
  }
}
