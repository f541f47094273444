/** What a received frame looks like to the guest: filling the buffers of a chain puts the
    header and the frame there, in order, and changes nothing else. */
module NetRxArrival {
  import opened Bytes
  import opened GuestMemory
  import opened VirtqueueChains
  import opened VirtqueueRings
  import opened NetRx

  /** The bytes that a writable buffer holds, none for a readable one. */
  function BufferBytes(l: Layout, mem: seq<byte>, d: Descriptor): seq<byte> {
    if Writable(d.flags) && Base(l, d.addr) + d.len <= |mem| then mem[Base(l, d.addr)..Base(l, d.addr) + d.len] else []
  }

  /** The writable buffers of a chain read one after the other. */
  function ReadBack(l: Layout, mem: seq<byte>, ds: seq<Descriptor>): seq<byte>
    decreases |ds|
  {
    if ds == [] then [] else BufferBytes(l, mem, ds[0]) + ReadBack(l, mem, ds[1..])
  }

  /** How much fits a chain. */
  function Room(ds: seq<Descriptor>): nat
    decreases |ds|
  {
    if ds == [] then 0 else (if Writable(ds[0].flags) then ds[0].len else 0) + Room(ds[1..])
  }

  predicate Covers(l: Layout, d: Descriptor, x: nat) {
    Writable(d.flags) && Base(l, d.addr) <= x < Base(l, d.addr) + d.len
  }

  ghost predicate InBuffers(l: Layout, ds: seq<Descriptor>, x: nat) {
    exists k :: 0 <= k < |ds| && Covers(l, ds[k], x)
  }

  /** No two writable buffers share a byte. */
  ghost predicate Apart(l: Layout, ds: seq<Descriptor>) {
    forall i, j :: 0 <= i < j < |ds| && Writable(ds[i].flags) && Writable(ds[j].flags) ==>
      Base(l, ds[i].addr) + ds[i].len <= Base(l, ds[j].addr) || Base(l, ds[j].addr) + ds[j].len <= Base(l, ds[i].addr)
  }

  /** Outside the buffers nothing has changed. */
  ghost predicate Beside(l: Layout, ds: seq<Descriptor>, mem: seq<byte>, mem': seq<byte>) {
    |mem'| == |mem| && forall x: nat :: x < |mem| && !InBuffers(l, ds, x) ==> mem'[x] == mem[x]
  }

  /** No writable buffer shares a byte with the n bytes from `at` on. */
  ghost predicate Off(l: Layout, ds: seq<Descriptor>, at: nat, n: nat) {
    forall k :: 0 <= k < |ds| && Writable(ds[k].flags) ==>
      at + n <= Base(l, ds[k].addr) || Base(l, ds[k].addr) + ds[k].len <= at
  }

  lemma BufferStays(l: Layout, mem: seq<byte>, mem': seq<byte>, d: Descriptor, at: nat, n: nat)
    requires OnlyBytes(mem, mem', at, n)
    requires Writable(d.flags) ==> at + n <= Base(l, d.addr) || Base(l, d.addr) + d.len <= at
    ensures BufferBytes(l, mem', d) == BufferBytes(l, mem, d)
  {
  }

  /** A write off the buffers leaves what is read back. */
  lemma {:induction false} ReadStays(l: Layout, mem: seq<byte>, mem': seq<byte>, ds: seq<Descriptor>, at: nat, n: nat)
    requires OnlyBytes(mem, mem', at, n) && Off(l, ds, at, n)
    ensures ReadBack(l, mem', ds) == ReadBack(l, mem, ds)
    decreases |ds|
  {
    if ds != [] {
      BufferStays(l, mem, mem', ds[0], at, n);
      forall k | 0 <= k < |ds[1..]| && Writable(ds[1..][k].flags)
        ensures at + n <= Base(l, ds[1..][k].addr) || Base(l, ds[1..][k].addr) + ds[1..][k].len <= at
      {
        assert ds[1..][k] == ds[k + 1];
      }
      ReadStays(l, mem, mem', ds[1..], at, n);
    }
  }

  lemma RestReachable(l: Layout, ds: seq<Descriptor>)
    requires Reachable(l, ds) && ds != []
    ensures Reachable(l, ds[1..])
  {
    forall k | 0 <= k < |ds[1..]| && Writable(ds[1..][k].flags) ensures Fits(l, ds[1..][k].addr, ds[1..][k].len) {
      assert ds[1..][k] == ds[k + 1];
    }
  }

  lemma RestApart(l: Layout, ds: seq<Descriptor>)
    requires Apart(l, ds) && ds != []
    ensures Apart(l, ds[1..])
  {
    forall i, j | 0 <= i < j < |ds[1..]| && Writable(ds[1..][i].flags) && Writable(ds[1..][j].flags)
      ensures Base(l, ds[1..][i].addr) + ds[1..][i].len <= Base(l, ds[1..][j].addr) ||
        Base(l, ds[1..][j].addr) + ds[1..][j].len <= Base(l, ds[1..][i].addr)
    {
      assert ds[1..][i] == ds[i + 1] && ds[1..][j] == ds[j + 1];
    }
  }

  /** The first buffer lies outside the others. */
  lemma FirstOutside(l: Layout, ds: seq<Descriptor>, x: nat)
    requires Apart(l, ds) && ds != [] && Covers(l, ds[0], x)
    ensures !InBuffers(l, ds[1..], x)
  {
    forall k | 0 <= k < |ds[1..]| ensures !Covers(l, ds[1..][k], x) {
      assert ds[1..][k] == ds[k + 1];
    }
  }

  lemma RestInside(l: Layout, ds: seq<Descriptor>, x: nat)
    requires ds != [] && InBuffers(l, ds[1..], x)
    ensures InBuffers(l, ds, x)
  {
    var k :| 0 <= k < |ds[1..]| && Covers(l, ds[1..][k], x);
    assert ds[k + 1] == ds[1..][k];
  }

  /** What the first buffer holds stays, whatever happens to the others. */
  lemma FirstKept(l: Layout, ds: seq<Descriptor>, mem: seq<byte>, mem': seq<byte>)
    requires Apart(l, ds) && ds != [] && Beside(l, ds[1..], mem, mem')
    ensures BufferBytes(l, mem', ds[0]) == BufferBytes(l, mem, ds[0])
  {
    var at, n := Base(l, ds[0].addr), ds[0].len;
    if Writable(ds[0].flags) && at + n <= |mem| {
      forall x: nat | at <= x < at + n ensures mem'[x] == mem[x] {
        FirstOutside(l, ds, x);
      }
    }
  }

  /** A change of the first buffer and then of the others is a change of them all. */
  lemma BesideBoth(l: Layout, ds: seq<Descriptor>, mem: seq<byte>, m: seq<byte>, mem': seq<byte>)
    requires ds != [] && Beside(l, ds[1..], m, mem') && |m| == |mem|
    requires forall x: nat :: x < |mem| && !Covers(l, ds[0], x) ==> m[x] == mem[x]
    ensures Beside(l, ds, mem, mem')
  {
    forall x: nat | x < |mem| && !InBuffers(l, ds, x) ensures mem'[x] == mem[x] {
      if InBuffers(l, ds[1..], x) {
        RestInside(l, ds, x);
      }
      assert !Covers(l, ds[0], x);
    }
  }

  /** While the count of written bytes went from w to w', the first bytes of rest have come
      into the buffers, as far as there is room. */
  ghost predicate Arrived(l: Layout, ds: seq<Descriptor>, mem: seq<byte>, mem': seq<byte>, rest: seq<byte>, w: nat,
                          w': nat) {
    && Beside(l, ds, mem, mem') && w' == w + (if |rest| < Room(ds) then |rest| else Room(ds))
    && Starts(ReadBack(l, mem', ds), rest, w' - w)
  }

  /** a and b begin with the same n bytes. */
  ghost predicate Starts(a: seq<byte>, b: seq<byte>, n: int) {
    0 <= n <= |a| && n <= |b| && a[..n] == b[..n]
  }

  /** The same as one fact, for the recursion. */
  ghost predicate Came(l: Layout, ds: seq<Descriptor>, mem: seq<byte>, mem': seq<byte>, rest: seq<byte>, w: nat,
                       w': nat) {
    forall k {:trigger Use(k)} :: Use(k) ==> Arrived(l, ds, mem, mem', rest, w, w')
  }

  lemma NothingComes(l: Layout, ds: seq<Descriptor>, mem: seq<byte>, rest: seq<byte>, w: nat)
    requires rest == [] || ds == []
    ensures Came(l, ds, mem, mem, rest, w, w)
  {
    assert rest[..0] == [] && ReadBack(l, mem, ds)[..0] == [];
  }

  /** The first buffer holds k bytes more, and nothing else has changed. */
  ghost predicate First(l: Layout, d: Descriptor, mem: seq<byte>, m: seq<byte>, c: seq<byte>) {
    && |m| == |mem| && (forall x: nat :: x < |mem| && !Covers(l, d, x) ==> m[x] == mem[x])
    && Base(l, d.addr) + |c| <= |m| && m[Base(l, d.addr)..Base(l, d.addr) + |c|] == c
  }

  /** k bytes in the first buffer, and the rest in the others. */
  lemma FirstComes(l: Layout, ds: seq<Descriptor>, mem: seq<byte>, m: seq<byte>, mem': seq<byte>, rest: seq<byte>,
                   k: nat,
                   w: nat, w': nat)
    requires Reachable(l, ds) && Apart(l, ds) && ds != [] && Writable(ds[0].flags) && |mem| == |m| == l.size
    requires k == Min(ds[0].len, |rest|) && Came(l, ds[1..], m, mem', rest[k..], w + k, w')
    requires First(l, ds[0], mem, m, rest[..k])
    ensures Came(l, ds, mem, mem', rest, w, w')
  {
    assert Use(Key);
    BesideBoth(l, ds, mem, m, mem');
    FirstRead(l, ds, m, mem', rest, k);
    Joined(BufferBytes(l, mem', ds[0]), ReadBack(l, mem', ds[1..]), rest, k, w' - w - k);
  }

  /** The first buffer still begins with the k bytes in the end. */
  lemma FirstRead(l: Layout, ds: seq<Descriptor>, m: seq<byte>, mem': seq<byte>, rest: seq<byte>, k: nat)
    requires Reachable(l, ds) && Apart(l, ds) && ds != [] && Writable(ds[0].flags) && |m| == l.size && k <= ds[0].len
    requires Beside(l, ds[1..], m, mem') && k <= |rest|
    requires Base(l, ds[0].addr) + k <= |m| && m[Base(l, ds[0].addr)..Base(l, ds[0].addr) + k] == rest[..k]
    ensures |BufferBytes(l, mem', ds[0])| == ds[0].len && BufferBytes(l, mem', ds[0])[..k] == rest[..k]
  {
    FirstKept(l, ds, m, mem');
    assert Fits(l, ds[0].addr, ds[0].len);
  }

  lemma Joined(a: seq<byte>, b: seq<byte>, rest: seq<byte>, k: nat, n: int)
    requires k <= |a| && k <= |rest| && a[..k] == rest[..k] && Starts(b, rest[k..], n) && (k == |a| || n == 0)
    ensures Starts(a + b, rest, k + n)
  {
    assert rest[..k + n] == rest[..k] + rest[k..][..n];
    assert (a + b)[..k + n] == a[..k] + b[..n];
  }

  /** The first buffer after the first bytes have been copied there. */
  lemma FirstFilled(l: Layout, mem: seq<byte>, d: Descriptor, c: seq<byte>)
    requires |mem| == l.size && Fits(l, d.addr, d.len) && Writable(d.flags) && |c| <= d.len
    ensures First(l, d, mem, CopyTo(mem, Base(l, d.addr), c), c)
  {
  }

  /** Filling puts the bytes into the writable buffers, in order. */
  lemma FillArrives(l: Layout, f: Fill, ds: seq<Descriptor>, r: Fill)
    requires |f.mem| == l.size && Reachable(l, ds) && Apart(l, ds) && r == FillTransport(l, f, ds)
    ensures Arrived(l, ds, f.mem, r.mem, f.rest, f.written, r.written)
  {
    FillComes(l, f, ds, r);
    assert Use(Key);
  }

  lemma {:induction false} FillComes(l: Layout, f: Fill, ds: seq<Descriptor>, r: Fill)
    requires |f.mem| == l.size && Reachable(l, ds) && Apart(l, ds) && r == FillTransport(l, f, ds)
    ensures Came(l, ds, f.mem, r.mem, f.rest, f.written, r.written)
    decreases |ds|
  {
    if ds == [] {
      NothingComes(l, ds, f.mem, f.rest, f.written);
    } else {
      RestReachable(l, ds);
      RestApart(l, ds);
      if !Writable(ds[0].flags) {
        FillComes(l, f, ds[1..], r);
        SkipComes(l, ds, f.mem, r.mem, f.rest, f.written, r.written);
      } else if f.rest == [] {
        NothingComes(l, ds, f.mem, f.rest, f.written);
      } else {
        assert Fits(l, ds[0].addr, ds[0].len);
        var k := Min(ds[0].len, |f.rest|);
        FirstFilled(l, f.mem, ds[0], f.rest[..k]);
        var g := Fill(CopyTo(f.mem, Base(l, ds[0].addr), f.rest[..k]), f.rest[k..], f.written + k);
        FillComes(l, g, ds[1..], r);
        FirstComes(l, ds, f.mem, g.mem, r.mem, f.rest, k, f.written, r.written);
      }
    }
  }

  lemma SkipComes(l: Layout, ds: seq<Descriptor>, mem: seq<byte>, mem': seq<byte>, rest: seq<byte>, w: nat, w': nat)
    requires ds != [] && !Writable(ds[0].flags) && Came(l, ds[1..], mem, mem', rest, w, w')
    ensures Came(l, ds, mem, mem', rest, w, w')
  {
    assert Use(Key);
    BesideBoth(l, ds, mem, mem, mem');
    assert ReadBack(l, mem', ds) == ReadBack(l, mem', ds[1..]);
  }
}
