/** Bytes, fixed-width integer encodings in both byte orders, and in-place
    replacement of a byte range.  Every on-disk, on-wire and in-guest format of
    the project is written in terms of these. */
module Bytes {

  type byte = b: int | 0 <= b < 256

  datatype Option<+T> = None | Some(value: T)

  datatype Key = Key

  /** Always true.  A predicate of the form "for every key in use, P" says P, but a
      proof gets at P only by mentioning a key. */
  predicate Use(k: Key) { k == Key }

  /** The same for a second layer of facts. */
  predicate Look(k: Key) { k == Key }

  /** And for a third. */
  predicate Note(k: Key) { k == Key }

  function Pow2(n: nat): (r: nat)
    ensures r > 0
  {
    if n == 0 then 1 else 2 * Pow2(n - 1)
  }

  /** 256 to the k-th power: the number of values that k bytes can hold. */
  function Radix(k: nat): (r: nat)
    ensures r > 0
  {
    if k == 0 then 1 else 256 * Radix(k - 1)
  }

  /** The low k bytes of n, least significant first. */
  function ToLE(n: nat, k: nat): (s: seq<byte>)
    ensures |s| == k
    decreases k, n
  {
    if k == 0 then [] else [n % 256] + ToLE(n / 256, k - 1)
  }

  function FromLE(s: seq<byte>): nat {
    if s == [] then 0 else s[0] + 256 * FromLE(s[1..])
  }

  /** The low k bytes of n, most significant first. */
  function ToBE(n: nat, k: nat): (s: seq<byte>)
    ensures |s| == k
    decreases k, n
  {
    if k == 0 then [] else ToBE(n / 256, k - 1) + [n % 256]
  }

  function FromBE(s: seq<byte>): nat {
    if s == [] then 0 else 256 * FromBE(s[..|s| - 1]) + s[|s| - 1]
  }

  /** The i-th byte from the low end, in either order. */
  lemma {:induction false} BytePlaces(n: nat, k: nat, i: nat)
    requires i < k
    ensures ToLE(n, k)[i] == ToBE(n, k)[k - 1 - i]
    ensures ToLE(n, k)[0] == n % 256
  {
    if i > 0 {
      BytePlaces(n / 256, k - 1, i - 1);
    }
  }

  lemma {:induction false} FromToLE(n: nat, k: nat)
    requires n < Radix(k)
    ensures FromLE(ToLE(n, k)) == n
    decreases k
  {
    if k > 0 {
      FromToLE(n / 256, k - 1);
      assert ToLE(n, k)[1..] == ToLE(n / 256, k - 1);
    }
  }

  lemma {:induction false} FromToBE(n: nat, k: nat)
    requires n < Radix(k)
    ensures FromBE(ToBE(n, k)) == n
    decreases k
  {
    if k > 0 {
      FromToBE(n / 256, k - 1);
      assert ToBE(n, k)[..k - 1] == ToBE(n / 256, k - 1);
    }
  }

  lemma {:induction false} FromLEBound(s: seq<byte>)
    ensures FromLE(s) < Radix(|s|)
  {
    if s != [] {
      FromLEBound(s[1..]);
    }
  }

  lemma {:induction false} FromBEBound(s: seq<byte>)
    ensures FromBE(s) < Radix(|s|)
  {
    if s != [] {
      FromBEBound(s[..|s| - 1]);
    }
  }

  lemma {:induction false} ToFromBE(s: seq<byte>)
    ensures ToBE(FromBE(s), |s|) == s
  {
    if s != [] {
      ToFromBE(s[..|s| - 1]);
    }
  }

  lemma RadixValues()
    ensures Radix(1) == 0x100 && Radix(2) == 0x1_0000 && Radix(4) == 0x1_0000_0000
    ensures Radix(8) == 0x1_0000_0000_0000_0000
  {
    assert Radix(3) == 0x100_0000;
    assert Radix(5) == 0x100_0000_0000;
    assert Radix(6) == 0x1_0000_0000_0000;
    assert Radix(7) == 0x100_0000_0000_0000;
  }

  /** Division and remainder by a variable, with the bounds callers need. */
  function Quot(a: nat, b: nat): nat
    requires b > 0
  {
    a / b
  }

  function Rem(a: nat, b: nat): (r: nat)
    requires b > 0
    ensures r < b
  {
    a % b
  }

  lemma DivMod(a: nat, b: nat)
    requires b > 0
    ensures a == b * Quot(a, b) + Rem(a, b)
  {
  }

  lemma {:induction false} MulLess(b: nat, x: nat, y: nat)
    requires x < y
    ensures b * x + b <= b * y
    decreases y
  {
    if x + 1 < y {
      MulLess(b, x, y - 1);
    }
    assert b * y == b * (y - 1) + b;
  }

  lemma QuotRem(a: nat, b: nat, q: nat, r: nat)
    requires b > 0 && a == b * q + r && r < b
    ensures Quot(a, b) == q && Rem(a, b) == r
  {
    DivMod(a, b);
    var q' := Quot(a, b);
    if q' < q {
      MulLess(b, q', q);
    } else if q < q' {
      MulLess(b, q, q');
    }
  }

  lemma QuotMono(a: nat, b: nat, c: nat)
    requires c > 0 && a <= b
    ensures Quot(a, c) <= Quot(b, c)
  {
    DivMod(a, c);
    DivMod(b, c);
    if Quot(b, c) < Quot(a, c) {
      MulLess(c, Quot(b, c), Quot(a, c));
    }
  }

  /** n * c by repeated addition, which keeps proofs about layouts linear. */
  function Times(n: nat, c: nat): nat {
    if n == 0 then 0 else Times(n - 1, c) + c
  }

  lemma {:induction false} TimesIs(n: nat, c: nat)
    ensures Times(n, c) == n * c
  {
    if n > 0 {
      TimesIs(n - 1, c);
      assert n * c == (n - 1) * c + c;
    }
  }

  lemma {:induction false} TimesMono(m: nat, n: nat, c: nat)
    requires m <= n
    ensures Times(m, c) <= Times(n, c) && (c > 0 ==> m <= Times(m, c))
    decreases n
  {
    if m < n {
      TimesMono(m, n - 1, c);
    } else if m > 0 {
      TimesMono(m - 1, m - 1, c);
    }
  }

  lemma {:induction false} TimesAdd(m: nat, n: nat, c: nat)
    ensures Times(m + n, c) == Times(m, c) + Times(n, c)
    decreases n
  {
    if n > 0 {
      TimesAdd(m, n - 1, c);
    }
  }

  lemma {:induction false} TimesAtLeast(n: nat, c: nat, k: nat)
    requires k <= c
    ensures k * n <= Times(n, c)
  {
    if n > 0 {
      TimesAtLeast(n - 1, c, k);
      assert k * n == k * (n - 1) + k;
    }
  }

  lemma {:induction false} TimesLess(m: nat, n: nat, c: nat)
    requires m < n
    ensures Times(m, c) + c <= Times(n, c)
    decreases n
  {
    if m < n - 1 {
      TimesLess(m, n - 1, c);
    }
  }

  function DivUp(a: nat, b: nat): nat
    requires b > 0
  {
    Quot(a + b - 1, b)
  }

  lemma DivUpIs(a: nat, b: nat, q: nat, r: nat)
    requires b > 0 && a + b - 1 == b * q + r && r < b
    ensures DivUp(a, b) == q
  {
    QuotRem(a + b - 1, b, q, r);
  }

  lemma DivUpCovers(a: nat, b: nat)
    requires b > 0
    ensures a <= Times(DivUp(a, b), b) && (a > 0 ==> DivUp(a, b) > 0)
  {
    DivMod(a + b - 1, b);
    TimesIs(DivUp(a, b), b);
  }

  function Max(a: nat, b: nat): nat { if a < b then b else a }

  lemma Regroup<T>(a: seq<T>, b: seq<T>, c: seq<T>)
    ensures a + b + c == a + (b + c)
  {
  }

  /** k zero bytes. */
  function Zeros(k: nat): (s: seq<byte>)
    ensures |s| == k && forall i :: 0 <= i < k ==> s[i] == 0
  {
    seq(k, _ => 0)
  }

  /** s with the bytes from `at` on replaced by d. */
  function Splice(s: seq<byte>, at: nat, d: seq<byte>): (r: seq<byte>)
    requires at + |d| <= |s|
    ensures |r| == |s|
    ensures forall i :: 0 <= i < |s| ==> r[i] == if at <= i < at + |d| then d[i - at] else s[i]
  {
    s[..at] + d + s[at + |d|..]
  }

  /** Page p of a memory. */
  function PageOf(m: seq<byte>, p: nat): (d: seq<byte>)
    ensures 4096 * p + 4096 <= |m| ==> |d| == 4096
  {
    if 4096 * p + 4096 <= |m| then m[4096 * p..4096 * p + 4096] else []
  }

  lemma SubSlice(f: seq<byte>, at: nat, len: nat, from: nat, n: nat)
    requires at + len <= |f| && from + n <= len
    ensures f[at..at + len][from..from + n] == f[at + from..at + from + n]
  {
    var p, q, r := f[at..at + len], f[at..at + len][from..from + n], f[at + from..at + from + n];
    forall i | 0 <= i < n ensures q[i] == r[i] {
      assert q[i] == p[from + i];
    }
  }

  /** Writing d at offset `at` of a file: within it in place, past its end with
      the gap filled by zeros. */
  function WriteFile(f: seq<byte>, at: nat, d: seq<byte>): seq<byte> {
    if at + |d| <= |f| then Splice(f, at, d)
    else Splice(f + Zeros(at + |d| - |f|), at, d)
  }
}
