/** Incremental snapshots of memory: the dirty bitmap (src/memory/overcommit.rs),
    the pages collected by it, and their application to a base memory
    (src/boot/template.rs). */
module DirtyPages {
  import opened Bytes

  /** Bit k of n. */
  predicate Bit(n: nat, k: nat) {
    if k == 0 then n % 2 == 1 else Bit(n / 2, k - 1)
  }

  /** It is the binary digit with the weight of the k-th power of two. */
  lemma {:induction false} BitPlace(n: nat, k: nat, low: nat, digit: nat, high: nat)
    requires low < Pow2(k) && digit < 2 && n == low + Pow2(k) * (digit + 2 * high)
    ensures Bit(n, k) <==> digit == 1
    decreases k
  {
    if k > 0 {
      var m := Pow2(k - 1) * (digit + 2 * high);
      assert n == low + 2 * m;
      BitPlace(n / 2, k - 1, low / 2, digit, high);
    }
  }

  /** Page p is marked in a bitmap of bytes. */
  predicate Marked(bitmap: seq<byte>, p: nat) {
    p / 8 < |bitmap| && Bit(bitmap[p / 8], p % 8)
  }

  /** Page p is marked in the log of 64-bit words that the hypervisor returns. */
  predicate Logged(words: seq<nat>, p: nat) {
    p / 64 < |words| && Bit(words[p / 64], p % 64)
  }

  // ----- from words to bytes

  lemma {:induction false} LowBits(n: nat, m: nat, h: nat, k: nat)
    requires h == Pow2(m) && k < m
    ensures Bit(n % h, k) == Bit(n, k)
    decreases m
  {
    var h' := Pow2(m - 1);
    HalveMod(n, h');
    if k > 0 {
      LowBits(n / 2, m - 1, h', k - 1);
    }
  }

  lemma HalveMod(n: nat, h: nat)
    requires h > 0
    ensures n % (2 * h) / 2 == n / 2 % h && n % (2 * h) % 2 == n % 2
  {
    DivMod(n / 2, h);
    var q, r := Quot(n / 2, h), Rem(n / 2, h);
    assert n == (2 * h) * q + (2 * r + n % 2) by {
      assert 2 * (h * q) == (2 * h) * q;
    }
    QuotRem(n, 2 * h, q, 2 * r + n % 2);
  }

  lemma ByteBits(n: nat, k: nat)
    ensures k < 8 ==> Bit(n % 256, k) == Bit(n, k)
    ensures Bit(n, k + 8) == Bit(n / 256, k)
  {
    if k < 8 {
      assert Pow2(4) == 16;
      LowBits(n, 8, 256, k);
    }
    EightBits(n, k);
  }

  lemma EightBits(n: nat, k: nat)
    ensures Bit(n, k + 8) == Bit(n / 256, k)
  {
    assert Bit(n, k + 8) == Bit(n / 2, k + 7) == Bit(n / 4, k + 6);
    assert Bit(n / 4, k + 6) == Bit(n / 8, k + 5) == Bit(n / 16, k + 4);
    assert Bit(n / 16, k + 4) == Bit(n / 32, k + 3) == Bit(n / 64, k + 2);
    assert Bit(n / 64, k + 2) == Bit(n / 128, k + 1) == Bit(n / 256, k);
  }

  /** Bit 8i + r of a number is bit r of byte i of its encoding. */
  lemma {:induction false} EncodedBit(n: nat, w: nat, i: nat, r: nat)
    requires i < w && r < 8
    ensures Bit(ToLE(n, w)[i], r) == Bit(n, 8 * i + r)
    decreases w
  {
    if i == 0 {
      ByteBits(n, r);
    } else {
      EncodedBit(n / 256, w - 1, i - 1, r);
      ByteBits(n, 8 * (i - 1) + r);
    }
  }

  /** Byte x of the bitmap, once words below `done` have been copied. */
  function BitmapByte(words: seq<nat>, done: nat, x: nat): byte {
    if x / 8 < done && x / 8 < |words| then ToLE(words[x / 8], 8)[x % 8] else 0
  }

  function BitmapSize(pages: nat): nat { (pages + 63) / 64 * 8 }

  /** `get_dirty_bitmap` on the log for a slot of the given number of pages. */
  method GetDirtyBitmap(words: seq<nat>, pages: nat) returns (bitmap: seq<byte>)
    ensures |bitmap| == BitmapSize(pages)
    ensures forall p: nat :: p < 8 * |bitmap| ==> (Marked(bitmap, p) <==> Logged(words, p))
  {
    bitmap := Zeros(BitmapSize(pages));
    for i := 0 to |words|
      invariant |bitmap| == BitmapSize(pages)
      invariant forall x :: 0 <= x < |bitmap| ==> bitmap[x] == BitmapByte(words, i, x)
    {
      ghost var was := bitmap;
      var offset := i * 8;
      if offset + 8 <= |bitmap| {
        bitmap := Splice(bitmap, offset, ToLE(words[i], 8));
      }
      CopyWord(words, i, was, bitmap);
    }
    forall p: nat | p < 8 * |bitmap| ensures Marked(bitmap, p) <==> Logged(words, p) {
      RepackedBit(words, bitmap, p);
    }
  }

  lemma CopyWord(words: seq<nat>, i: nat, b: seq<byte>, b': seq<byte>)
    requires i < |words| && |b| % 8 == 0 && forall x :: 0 <= x < |b| ==> b[x] == BitmapByte(words, i, x)
    requires b' == if 8 * i + 8 <= |b| then Splice(b, 8 * i, ToLE(words[i], 8)) else b
    ensures forall x :: 0 <= x < |b'| ==> b'[x] == BitmapByte(words, i + 1, x)
  {
    forall x | 0 <= x < |b'| ensures b'[x] == BitmapByte(words, i + 1, x) {
      assert b[x] == BitmapByte(words, i, x);
    }
  }

  lemma ZeroBits(k: nat)
    ensures !Bit(0, k)
  {
    if k > 0 {
      ZeroBits(k - 1);
    }
  }

  lemma RepackedBit(words: seq<nat>, bitmap: seq<byte>, p: nat)
    requires p < 8 * |bitmap| && bitmap[p / 8] == BitmapByte(words, |words|, p / 8)
    ensures Marked(bitmap, p) <==> Logged(words, p)
  {
    var x := p / 8;
    assert x / 8 == p / 64 && 8 * (x % 8) + p % 8 == p % 64;
    if x / 8 < |words| {
      EncodedBit(words[x / 8], 8, x % 8, p % 8);
    } else {
      ZeroBits(p % 8);
    }
  }

  // ----- collecting

  /** How many pages below n are marked. */
  function Rank(bitmap: seq<byte>, n: nat): nat {
    if n == 0 then 0 else Rank(bitmap, n - 1) + if Marked(bitmap, n - 1) then 1 else 0
  }

  lemma {:induction false} RankGrows(bitmap: seq<byte>, m: nat, n: nat)
    requires m < n
    ensures Rank(bitmap, m) <= Rank(bitmap, n) && (Marked(bitmap, m) ==> Rank(bitmap, m) < Rank(bitmap, n))
    decreases n
  {
    if m < n - 1 {
      RankGrows(bitmap, m, n - 1);
    }
  }

  /** `data` holds the marked pages of `mem` below n, in ascending order. */
  ghost predicate Holds(data: seq<byte>, bitmap: seq<byte>, mem: seq<byte>, n: nat) {
    && |data| == 4096 * Rank(bitmap, n) && 4096 * n <= |mem|
    && forall p: nat :: p < n && Marked(bitmap, p) && 4096 * Rank(bitmap, p) + 4096 <= |data| ==>
         PageOf(data, Rank(bitmap, p)) == PageOf(mem, p)
  }

  lemma HoldsNext(data: seq<byte>, data': seq<byte>, bitmap: seq<byte>, mem: seq<byte>, n: nat)
    requires Holds(data, bitmap, mem, n) && 4096 * n + 4096 <= |mem|
    requires data' == if Marked(bitmap, n) then data + PageOf(mem, n) else data
    ensures Holds(data', bitmap, mem, n + 1)
  {
    forall p: nat | p < n + 1 && Marked(bitmap, p) && 4096 * Rank(bitmap, p) + 4096 <= |data'|
      ensures PageOf(data', Rank(bitmap, p)) == PageOf(mem, p)
    {
      if p < n {
        RankGrows(bitmap, p, n);
      }
    }
  }

  /** `collect_dirty_pages`: the marked pages of usable memory. */
  method CollectDirtyPages(bitmap: seq<byte>, slotPages: nat, mem: seq<byte>) returns (data: seq<byte>)
    ensures Holds(data, bitmap, mem, if slotPages < |mem| / 4096 then slotPages else |mem| / 4096)
  {
    var n := if slotPages < |mem| / 4096 then slotPages else |mem| / 4096;
    data := [];
    for p := 0 to n
      invariant Holds(data, bitmap, mem, p)
    {
      ghost var was := data;
      if p / 8 < |bitmap| && Bit(bitmap[p / 8], p % 8) {
        data := data + mem[4096 * p..4096 * p + 4096];
      }
      HoldsNext(was, data, bitmap, mem, p);
    }
  }

  // ----- applying

  /** Page p is replaced: it is marked, it fits the memory, and the data reach it. */
  predicate Replaced(bitmap: seq<byte>, data: seq<byte>, pages: nat, size: nat, p: nat) {
    p < pages && Marked(bitmap, p) && 4096 * p + 4096 <= size && 4096 * Rank(bitmap, p) + 4096 <= |data|
  }

  /** Byte x after the pages below n have been dealt with. */
  function Merged(mem: seq<byte>, bitmap: seq<byte>, data: seq<byte>, n: nat, x: nat): byte
    requires x < |mem|
  {
    if Replaced(bitmap, data, n, |mem|, x / 4096) then data[4096 * Rank(bitmap, x / 4096) + x % 4096] else mem[x]
  }

  /** The memory with the first `pages` pages of the diff applied. */
  function Applied(mem: seq<byte>, bitmap: seq<byte>, data: seq<byte>, pages: nat): (r: seq<byte>)
    ensures |r| == |mem|
  {
    seq(|mem|, x requires 0 <= x < |mem| => Merged(mem, bitmap, data, pages, x))
  }

  /** `apply_diff`, in place.  It stops at the end of the bitmap, of the memory or of
      the data. */
  method ApplyDiff(base: array<byte>, bitmap: seq<byte>, data: seq<byte>, memorySize: nat)
    modifies base
    ensures base[..] == Applied(old(base[..]), bitmap, data, memorySize / 4096)
  {
    ghost var mem := base[..];
    var pages, from, p := memorySize / 4096, 0, 0;
    while p < pages
      invariant p <= pages && from == 4096 * Rank(bitmap, p)
      invariant base[..] == Applied(mem, bitmap, data, p)
    {
      if p / 8 >= |bitmap| {
        break;
      }
      if Bit(bitmap[p / 8], p % 8) {
        var to := 4096 * p;
        if to + 4096 > base.Length || from + 4096 > |data| {
          break;
        }
        ghost var was := base[..];
        forall k | 0 <= k < 4096 {
          base[to + k] := data[from + k];
        }
        assert forall x :: to <= x < to + 4096 <==> x / 4096 == p;
        Replace(mem, bitmap, data, p, was, base[..]);
        from := from + 4096;
      } else {
        Unmarked(mem, bitmap, data, p);
      }
      p := p + 1;
    }
    if p < pages {
      Exhausted(mem, bitmap, data, p, pages);
    }
  }

  lemma Replace(mem: seq<byte>, bitmap: seq<byte>, data: seq<byte>, p: nat, b: seq<byte>, b': seq<byte>)
    requires b == Applied(mem, bitmap, data, p) && Replaced(bitmap, data, p + 1, |mem|, p) && |b'| == |b|
    requires forall x :: 0 <= x < |b| && x / 4096 != p ==> b'[x] == b[x]
    requires forall x :: 0 <= x < |b| && x / 4096 == p ==> b'[x] == data[4096 * Rank(bitmap, p) + x % 4096]
    ensures b' == Applied(mem, bitmap, data, p + 1)
  {
    forall x | 0 <= x < |b'| ensures b'[x] == Merged(mem, bitmap, data, p + 1, x) {
      assert b[x] == Merged(mem, bitmap, data, p, x);
    }
  }

  lemma Unmarked(mem: seq<byte>, bitmap: seq<byte>, data: seq<byte>, p: nat)
    requires !Marked(bitmap, p)
    ensures Applied(mem, bitmap, data, p + 1) == Applied(mem, bitmap, data, p)
  {
    forall x | 0 <= x < |mem| ensures Merged(mem, bitmap, data, p + 1, x) == Merged(mem, bitmap, data, p, x) {
    }
  }

  /** Where the loop stops early, no later page is replaced. */
  lemma Exhausted(mem: seq<byte>, bitmap: seq<byte>, data: seq<byte>, p: nat, n: nat)
    requires p < n
    requires p / 8 >= |bitmap| || (Marked(bitmap, p) && !Replaced(bitmap, data, p + 1, |mem|, p))
    ensures Applied(mem, bitmap, data, n) == Applied(mem, bitmap, data, p)
  {
    forall x | 0 <= x < |mem| ensures Merged(mem, bitmap, data, n, x) == Merged(mem, bitmap, data, p, x) {
      var q := x / 4096;
      if p < q {
        RankGrows(bitmap, p, q);
      }
    }
  }

  // ----- the round trip

  /** The log covers every page on which the two memories differ. */
  ghost predicate Covers(words: seq<nat>, was: seq<byte>, now: seq<byte>) {
    |was| == |now| && forall x :: 0 <= x < |was| && was[x] != now[x] ==> Logged(words, x / 4096)
  }

  /** Collecting the marked pages of the current memory and applying them to the old
      memory gives the current memory, exactly when the log covers the changes. */
  lemma DiffRoundTrip(words: seq<nat>, bitmap: seq<byte>, data: seq<byte>, was: seq<byte>, now: seq<byte>, slot: nat,
                      n: nat)
    requires |was| == |now| == 4096 * n && n <= slot && |bitmap| == BitmapSize(slot)
    requires forall p: nat :: p < 8 * |bitmap| ==> (Marked(bitmap, p) <==> Logged(words, p))
    requires Holds(data, bitmap, now, n)
    ensures Applied(was, bitmap, data, n) == now <==> Covers(words, was, now)
  {
    forall x | 0 <= x < |was|
      ensures Merged(was, bitmap, data, n, x) == now[x] <==> (was[x] != now[x] ==> Logged(words, x / 4096))
    {
      ByteRestored(words, bitmap, data, was, now, n, x, x / 4096);
    }
    var r := Applied(was, bitmap, data, n);
    if r == now {
      forall x | 0 <= x < |was| && was[x] != now[x] ensures Logged(words, x / 4096) {
        assert r[x] == now[x];
      }
    }
  }

  lemma ByteRestored(words: seq<nat>, bitmap: seq<byte>, data: seq<byte>, was: seq<byte>, now: seq<byte>, n: nat,
                     x: nat, q: nat)
    requires |was| == |now| == 4096 * n && Holds(data, bitmap, now, n) && x < |was| && q == x / 4096
    requires Marked(bitmap, q) <==> Logged(words, q)
    ensures Merged(was, bitmap, data, n, x) == now[x] <==> (was[x] != now[x] ==> Logged(words, q))
  {
    if Marked(bitmap, q) {
      MarkedByte(bitmap, data, now, n, q, x % 4096);
      assert Replaced(bitmap, data, n, |was|, q);
    }
  }

  /** The data hold every byte of a marked page. */
  lemma MarkedByte(bitmap: seq<byte>, data: seq<byte>, now: seq<byte>, n: nat, q: nat, o: nat)
    requires |now| == 4096 * n && Holds(data, bitmap, now, n) && q < n && Marked(bitmap, q) && o < 4096
    ensures 4096 * Rank(bitmap, q) + 4096 <= |data|
    ensures data[4096 * Rank(bitmap, q) + o] == now[4096 * q + o]
  {
    RankGrows(bitmap, q, n);
    var k := Rank(bitmap, q);
    assert PageOf(data, k)[o] == PageOf(now, q)[o];
  }

  /** The whole of it: log, bitmap, collected pages, base patched in place. */
  method SnapshotAndRestore(words: seq<nat>, slot: nat, now: seq<byte>, base: array<byte>)
    requires base.Length == |now| && |now| % 4096 == 0 && |now| / 4096 <= slot
    modifies base
    ensures base[..] == now <==> Covers(words, old(base[..]), now)
  {
    var n := |now| / 4096;
    ghost var was := base[..];
    var bitmap := GetDirtyBitmap(words, slot);
    var data := CollectDirtyPages(bitmap, slot, now);
    ApplyDiff(base, bitmap, data, |now|);
    DiffRoundTrip(words, bitmap, data, was, now, slot, n);
  }
}
