/** What the three areas of a virtqueue hold, as values, and what popping and pushing
    do to them. */
module VirtqueueRings {
  import opened Bytes
  import opened GuestMemory
  import opened VirtqueueChains
  import opened Virtqueue

  datatype Elem = Elem(id: nat, len: nat)

  function Base(l: Layout, gpa: nat): nat { if Offset(l, gpa).Some? then Offset(l, gpa).value else 0 }

  /** An area that lies in memory, on one side of the hole. */
  predicate Area(l: Layout, gpa: nat, len: nat) { Fits(l, gpa, len) && OneSided(l, gpa, len) }

  /** Two areas share no byte. */
  predicate Separate(l: Layout, a: nat, n: nat, b: nat, m: nat) {
    Base(l, a) + n <= Base(l, b) || Base(l, b) + m <= Base(l, a)
  }

  /** The access goes through the translation of layout l; the three areas are
      readable, and the used ring overlaps neither other. */
  ghost predicate Placed(q: Queue, l: Layout) {
    && Proper(l) && q.io == GuestAccess(l)
    && Area(l, q.desc, 16 * q.size) && Area(l, q.avail, 4 + 2 * q.size) && Area(l, q.used, 4 + 8 * q.size)
    && Separate(l, q.used, 4 + 8 * q.size, q.desc, 16 * q.size)
    && Separate(l, q.used, 4 + 8 * q.size, q.avail, 4 + 2 * q.size)
  }

  /** The same as one fact, which only the lemmas about single fields take apart. */
  ghost predicate Laid(q: Queue, l: Layout) {
    Sized(q) && forall k {:trigger Use(k)} :: Use(k) ==> Placed(q, l)
  }

  function DescAt(mem: seq<byte>, at: nat): Descriptor {
    Descriptor(Num(mem, at, 8), Num(mem, at + 8, 4), Num(mem, at + 12, 2), Num(mem, at + 14, 2))
  }

  function TableAt(mem: seq<byte>, d: nat, size: nat): (t: Table)
    ensures |t| == size
  {
    seq(size, i requires 0 <= i => DescAt(mem, d + 16 * i))
  }

  function HeadsAt(mem: seq<byte>, a: nat, size: nat): (s: seq<nat>)
    ensures |s| == size
  {
    seq(size, i requires 0 <= i => Num(mem, a + 4 + 2 * i, 2))
  }

  function ElemAt(mem: seq<byte>, at: nat): Elem { Elem(Num(mem, at, 4), Num(mem, at + 4, 4)) }

  function ElemsAt(mem: seq<byte>, u: nat, size: nat): (s: seq<Elem>)
    ensures |s| == size
  {
    seq(size, i requires 0 <= i => ElemAt(mem, u + 4 + 8 * i))
  }

  datatype View = View(table: Table, flags: nat, availIdx: nat, heads: seq<nat>, usedIdx: nat, elems: seq<Elem>)

  /** What the areas at offsets d, a and u hold. */
  function ViewAt(mem: seq<byte>, d: nat, a: nat, u: nat, size: nat): View {
    View(TableAt(mem, d, size), Num(mem, a, 2), Num(mem, a + 2, 2), HeadsAt(mem, a, size), Num(mem, u + 2, 2),
      ElemsAt(mem, u, size))
  }

  function ViewOf(q: Queue, l: Layout, mem: seq<byte>): View {
    ViewAt(mem, Base(l, q.desc), Base(l, q.avail), Base(l, q.used), q.size)
  }

  /** Sixteen bytes that make a descriptor, and eight that make a used element. */
  function DescBytes(d: Descriptor): seq<byte> {
    ToLE(d.addr, 8) + ToLE(d.len, 4) + ToLE(d.flags, 2) + ToLE(d.next, 2)
  }

  function ElemBytes(e: Elem): seq<byte> { ToLE(e.id, 4) + ToLE(e.len, 4) }

  lemma Piece(mem: seq<byte>, at: nat, a: seq<byte>, v: nat, n: nat, c: seq<byte>)
    requires at + |a| + n + |c| <= |mem| && mem[at..at + |a| + n + |c|] == a + ToLE(v, n) + c && v < Radix(n)
    ensures Num(mem, at + |a|, n) == v
  {
    var w, s := mem[at..at + |a| + n + |c|], mem[at + |a|..at + |a| + n];
    forall k | 0 <= k < n ensures s[k] == ToLE(v, n)[k] {
      assert s[k] == w[|a| + k] == (a + ToLE(v, n))[|a| + k];
    }
    assert s == ToLE(v, n);
    FromToLE(v, n);
  }

  /** A descriptor in the table is the one whose bytes are there. */
  lemma DescriptorIs(mem: seq<byte>, at: nat, d: Descriptor)
    requires at + 16 <= |mem| && mem[at..at + 16] == DescBytes(d)
    requires d.addr < Radix(8) && d.len < Radix(4) && d.flags < Radix(2) && d.next < Radix(2)
    ensures DescAt(mem, at) == d
  {
    var a, b, c, e := ToLE(d.addr, 8), ToLE(d.len, 4), ToLE(d.flags, 2), ToLE(d.next, 2);
    assert DescBytes(d) == [] + a + (b + c + e) == a + b + (c + e) == a + b + c + e == (a + b + c) + e + [];
    Piece(mem, at, [], d.addr, 8, b + c + e);
    Piece(mem, at, a, d.len, 4, c + e);
    Piece(mem, at, a + b, d.flags, 2, e);
    Piece(mem, at, a + b + c, d.next, 2, []);
  }

  lemma ElementIs(mem: seq<byte>, at: nat, e: Elem)
    requires at + 8 <= |mem| && mem[at..at + 8] == ElemBytes(e) && e.id < Radix(4) && e.len < Radix(4)
    ensures ElemAt(mem, at) == e
  {
    var a, b := ToLE(e.id, 4), ToLE(e.len, 4);
    assert ElemBytes(e) == [] + a + b == a + b + [];
    Piece(mem, at, [], e.id, 4, b);
    Piece(mem, at, a, e.len, 4, []);
  }

  // ----- reading through the translation

  lemma Inside(l: Layout, base: nat, len: nat, x: nat, n: nat)
    requires Proper(l) && Area(l, base, len) && n > 0 && x + n <= len
    ensures Offset(l, base + x) == Some(Base(l, base) + x) && Fits(l, base + x, n)
  {
  }

  lemma FieldRead(l: Layout, mem: seq<byte>, base: nat, len: nat, x: nat, n: nat, at: nat)
    requires Proper(l) && Area(l, base, len) && n > 0 && x + n <= len && |mem| == l.size && at == base + x
    ensures ReadNumber(l, mem, at, n) == Some(Num(mem, Base(l, base) + x, n))
  {
    Inside(l, base, len, x, n);
  }

  lemma DescField(q: Queue, l: Layout, mem: seq<byte>, x: nat, n: nat, at: nat)
    requires Laid(q, l) && n > 0 && x + n <= 16 * q.size && |mem| == l.size && at == q.desc + x
    ensures q.io.read(mem, at, n) == Some(Num(mem, Base(l, q.desc) + x, n))
  {
    assert Use(Key);
    FieldRead(l, mem, q.desc, 16 * q.size, x, n, at);
  }

  lemma AvailField(q: Queue, l: Layout, mem: seq<byte>, x: nat, n: nat, at: nat)
    requires Laid(q, l) && n > 0 && x + n <= 4 + 2 * q.size && |mem| == l.size && at == q.avail + x
    ensures q.io.read(mem, at, n) == Some(Num(mem, Base(l, q.avail) + x, n))
  {
    assert Use(Key);
    FieldRead(l, mem, q.avail, 4 + 2 * q.size, x, n, at);
  }

  lemma UsedField(q: Queue, l: Layout, mem: seq<byte>, x: nat, n: nat, at: nat)
    requires Laid(q, l) && n > 0 && x + n <= 4 + 8 * q.size && |mem| == l.size && at == q.used + x
    ensures q.io.read(mem, at, n) == Some(Num(mem, Base(l, q.used) + x, n))
  {
    assert Use(Key);
    FieldRead(l, mem, q.used, 4 + 8 * q.size, x, n, at);
  }

  /** mem' is mem except for the n bytes from `at` on, which hold v. */
  ghost predicate Wrote(mem: seq<byte>, mem': seq<byte>, at: nat, v: nat, n: nat) {
    OnlyBytes(mem, mem', at, n) && Num(mem', at, n) == v
  }

  lemma FieldWrite(l: Layout, mem: seq<byte>, base: nat, len: nat, x: nat, v: nat, n: nat, at: nat)
    returns (mem': seq<byte>)
    requires Proper(l) && Area(l, base, len) && n > 0 && x + n <= len && |mem| == l.size && at == base + x
    requires v < Radix(n)
    ensures WriteNumber(l, mem, at, v, n) == Outcome(true, mem') && Wrote(mem, mem', Base(l, base) + x, v, n)
  {
    Inside(l, base, len, x, n);
    mem' := Splice(mem, Base(l, base) + x, ToLE(v, n));
    NumWritten(mem, Base(l, base) + x, v, n);
  }

  lemma UsedWrite(q: Queue, l: Layout, mem: seq<byte>, x: nat, v: nat, n: nat, at: nat) returns (mem': seq<byte>)
    requires Laid(q, l) && n > 0 && x + n <= 4 + 8 * q.size && |mem| == l.size && at == q.used + x && v < Radix(n)
    ensures q.io.write(mem, at, v, n) == Outcome(true, mem') && Wrote(mem, mem', Base(l, q.used) + x, v, n)
  {
    assert Use(Key);
    mem' := FieldWrite(l, mem, q.used, 4 + 8 * q.size, x, v, n, at);
  }

  lemma DescRead(q: Queue, l: Layout, mem: seq<byte>, i: nat)
    requires Laid(q, l) && |mem| == l.size && i < q.size
    ensures ReadDesc(q, mem, i) == Some(DescAt(mem, Base(l, q.desc) + 16 * i))
  {
    DescField(q, l, mem, 16 * i, 8, q.desc + 16 * i);
    DescField(q, l, mem, 16 * i + 8, 4, q.desc + 16 * i + 8);
    DescField(q, l, mem, 16 * i + 12, 2, q.desc + 16 * i + 12);
    DescField(q, l, mem, 16 * i + 14, 2, q.desc + 16 * i + 14);
  }

  lemma TableRead(q: Queue, l: Layout, mem: seq<byte>)
    requires Laid(q, l) && |mem| == l.size
    ensures Holds(Descriptors(q, mem), ViewOf(q, l, mem).table)
  {
    forall i | 0 <= i < q.size ensures Descriptors(q, mem)[i] == Some(ViewOf(q, l, mem).table[i]) {
      DescRead(q, l, mem, i);
    }
  }

  // ----- popping

  /** The next chain as the view has it. */
  function PopView(v: View, last: nat): Option<Chain>
    requires |v.heads| == |v.table| > 0
  {
    if v.availIdx == last then None else
    var head := v.heads[Rem(last, |v.heads|)];
    match Walk(v.table, head, |v.table|)
    case None => None
    case Some(p) => Some(Chain(head, Pick(v.table, p)))
  }

  lemma HeadRead(q: Queue, l: Layout, mem: seq<byte>, last: nat)
    requires Laid(q, l) && |mem| == l.size
    ensures NextHead(q, mem, last) ==
      if ViewOf(q, l, mem).availIdx == last then None else Some(ViewOf(q, l, mem).heads[Rem(last, q.size)])
  {
    var r := Rem(last, q.size);
    AvailField(q, l, mem, 2, 2, q.avail + 2);
    AvailField(q, l, mem, 4 + 2 * r, 2, q.avail + 4 + 2 * r);
  }

  lemma PopIs(q: Queue, l: Layout, mem: seq<byte>, last: nat)
    requires Laid(q, l) && |mem| == l.size
    ensures Pop(q, mem, true, last) == PopView(ViewOf(q, l, mem), last)
  {
    HeadRead(q, l, mem, last);
    TableRead(q, l, mem);
    if NextHead(q, mem, last).Some? {
      ChainPicked(Descriptors(q, mem), ViewOf(q, l, mem).table, NextHead(q, mem, last).value);
    }
  }

  lemma ChainPicked(rs: Readings, t: Table, head: nat)
    requires Holds(rs, t)
    ensures ReadChain(rs, head, |t|) ==
      match Walk(t, head, |t|) case None => None case Some(p) => Some(Pick(t, p))
  {
    ChainInTable(rs, t, head, |t|);
  }

  // ----- writing

  /** mem' is mem except for n bytes from `at` on. */
  ghost predicate OnlyBytes(mem: seq<byte>, mem': seq<byte>, at: nat, n: nat) {
    |mem'| == |mem| && forall x :: 0 <= x < |mem| && !(at <= x < at + n) ==> mem'[x] == mem[x]
  }

  lemma NumKept(mem: seq<byte>, mem': seq<byte>, at: nat, n: nat, x: nat, k: nat)
    requires OnlyBytes(mem, mem', at, n) && (x + k <= at || at + n <= x)
    ensures Num(mem', x, k) == Num(mem, x, k)
  {
    if x + k <= |mem| {
      assert mem'[x..x + k] == mem[x..x + k];
    }
  }

  lemma NumWritten(mem: seq<byte>, at: nat, v: nat, n: nat)
    requires at + n <= |mem| && v < Radix(n)
    ensures Num(Splice(mem, at, ToLE(v, n)), at, n) == v
  {
    assert Splice(mem, at, ToLE(v, n))[at..at + n] == ToLE(v, n);
    FromToLE(v, n);
  }

  lemma {:induction false} NumberOnce(a: seq<byte>, b: seq<byte>)
    requires |a| == |b| && FromLE(a) == FromLE(b)
    ensures a == b
  {
    if a != [] {
      NumberOnce(a[1..], b[1..]);
      assert a == [a[0]] + a[1..] && b == [b[0]] + b[1..];
    }
  }

  /** What was written determines the memory. */
  lemma WroteOnce(mem: seq<byte>, m: seq<byte>, m': seq<byte>, at: nat, v: nat, n: nat)
    requires Wrote(mem, m, at, v, n) && Wrote(mem, m', at, v, n) && at + n <= |mem|
    ensures m == m'
  {
    NumberOnce(m[at..at + n], m'[at..at + n]);
    forall x | 0 <= x < |mem| ensures m[x] == m'[x] {
      if at <= x < at + n {
        assert m[at..at + n][x - at] == m'[at..at + n][x - at];
      }
    }
  }

  lemma TableKept(mem: seq<byte>, mem': seq<byte>, at: nat, n: nat, d: nat, size: nat)
    requires OnlyBytes(mem, mem', at, n) && (d + 16 * size <= at || at + n <= d)
    ensures TableAt(mem', d, size) == TableAt(mem, d, size)
  {
    forall i | 0 <= i < size ensures DescAt(mem', d + 16 * i) == DescAt(mem, d + 16 * i) {
      var x := d + 16 * i;
      NumKept(mem, mem', at, n, x, 8);
      NumKept(mem, mem', at, n, x + 8, 4);
      NumKept(mem, mem', at, n, x + 12, 2);
      NumKept(mem, mem', at, n, x + 14, 2);
    }
  }

  lemma AvailKept(mem: seq<byte>, mem': seq<byte>, at: nat, n: nat, a: nat, size: nat)
    requires OnlyBytes(mem, mem', at, n) && (a + 4 + 2 * size <= at || at + n <= a)
    ensures HeadsAt(mem', a, size) == HeadsAt(mem, a, size)
    ensures Num(mem', a, 2) == Num(mem, a, 2) && Num(mem', a + 2, 2) == Num(mem, a + 2, 2)
  {
    NumKept(mem, mem', at, n, a, 2);
    NumKept(mem, mem', at, n, a + 2, 2);
    forall i | 0 <= i < size ensures HeadsAt(mem', a, size)[i] == HeadsAt(mem, a, size)[i] {
      NumKept(mem, mem', at, n, a + 4 + 2 * i, 2);
    }
  }

  lemma UsedKept(mem: seq<byte>, mem': seq<byte>, at: nat, n: nat, u: nat, size: nat)
    requires OnlyBytes(mem, mem', at, n) && (u + 4 + 8 * size <= at || at + n <= u)
    ensures ElemsAt(mem', u, size) == ElemsAt(mem, u, size) && Num(mem', u + 2, 2) == Num(mem, u + 2, 2)
  {
    NumKept(mem, mem', at, n, u + 2, 2);
    forall i | 0 <= i < size ensures ElemsAt(mem', u, size)[i] == ElemsAt(mem, u, size)[i] {
      NumKept(mem, mem', at, n, u + 4 + 8 * i, 4);
      NumKept(mem, mem', at, n, u + 8 + 8 * i, 4);
    }
  }

  /** n bytes from `at` on lie outside the three areas of the queue. */
  predicate OffRings(q: Queue, l: Layout, at: nat, n: nat) {
    && (Base(l, q.desc) + 16 * q.size <= at || at + n <= Base(l, q.desc))
    && (Base(l, q.avail) + 4 + 2 * q.size <= at || at + n <= Base(l, q.avail))
    && (Base(l, q.used) + 4 + 8 * q.size <= at || at + n <= Base(l, q.used))
  }

  /** The writable buffers of a chain that lie in memory lie outside the areas. */
  ghost predicate Harmless(q: Queue, l: Layout, ds: seq<Descriptor>) {
    forall k :: 0 <= k < |ds| && Writable(ds[k].flags) && Fits(l, ds[k].addr, ds[k].len) ==>
      OffRings(q, l, Offset(l, ds[k].addr).value, ds[k].len)
  }

  /** A write outside the three areas leaves what they hold. */
  lemma BufferWrite(q: Queue, l: Layout, mem: seq<byte>, mem': seq<byte>, at: nat, n: nat)
    requires OnlyBytes(mem, mem', at, n) && OffRings(q, l, at, n)
    ensures ViewOf(q, l, mem') == ViewOf(q, l, mem)
  {
    TableKept(mem, mem', at, n, Base(l, q.desc), q.size);
    AvailKept(mem, mem', at, n, Base(l, q.avail), q.size);
    UsedKept(mem, mem', at, n, Base(l, q.used), q.size);
  }

  // ----- pushing

  /** The view after an element has been posted. */
  function PushView(v: View, e: Elem): View
    requires |v.elems| > 0
  {
    v.(usedIdx := (v.usedIdx + 1) % 0x1_0000, elems := v.elems[Rem(v.usedIdx, |v.elems|) := e])
  }

  /** Three writes into the used ring at offset u: the two halves of the element in
      a slot, and the index. */
  ghost predicate Posts(mem: seq<byte>, m1: seq<byte>, m2: seq<byte>, m3: seq<byte>, u: nat, slot: nat, e: Elem,
                        idx: nat) {
    Wrote(mem, m1, u + 4 + 8 * slot, e.id, 4) && Wrote(m1, m2, u + 8 + 8 * slot, e.len, 4) &&
      Wrote(m2, m3, u + 2, idx, 2)
  }

  lemma ElemPosted(mem: seq<byte>, m1: seq<byte>, m2: seq<byte>, m3: seq<byte>, u: nat, slot: nat, e: Elem, idx: nat,
                   i: nat)
    requires Posts(mem, m1, m2, m3, u, slot, e, idx)
    ensures ElemAt(m3, u + 4 + 8 * i) == if i == slot then e else ElemAt(mem, u + 4 + 8 * i)
  {
    var at, x := u + 4 + 8 * slot, u + 4 + 8 * i;
    NumKept(m2, m3, u + 2, 2, x, 4);
    NumKept(m2, m3, u + 2, 2, x + 4, 4);
    NumKept(m1, m2, at + 4, 4, x, 4);
    if i != slot {
      NumKept(m1, m2, at + 4, 4, x + 4, 4);
      NumKept(mem, m1, at, 4, x, 4);
      NumKept(mem, m1, at, 4, x + 4, 4);
    }
  }

  lemma PostsUsed(mem: seq<byte>, m1: seq<byte>, m2: seq<byte>, m3: seq<byte>, u: nat, slot: nat, e: Elem, idx: nat,
                  size: nat)
    requires Posts(mem, m1, m2, m3, u, slot, e, idx) && slot < size
    ensures ElemsAt(m3, u, size) == ElemsAt(mem, u, size)[slot := e] && OnlyBytes(mem, m3, u, 4 + 8 * size)
  {
    forall i | 0 <= i < size ensures ElemsAt(m3, u, size)[i] == ElemsAt(mem, u, size)[slot := e][i] {
      ElemPosted(mem, m1, m2, m3, u, slot, e, idx, i);
    }
  }

  lemma PostRuns(q: Queue, l: Layout, mem: seq<byte>, slot: nat, idx: nat, e: Elem) returns (m1: seq<byte>,
                 m2: seq<byte>, m3: seq<byte>)
    requires Laid(q, l) && |mem| == l.size && slot < q.size && idx < 0x1_0000 && e.id < 0x1_0000_0000
    requires e.len < 0x1_0000_0000
    ensures Post(q.io, mem, q.used, slot, idx, e.id, e.len) == Outcome(true, m3)
    ensures Posts(mem, m1, m2, m3, Base(l, q.used), slot, e, idx)
  {
    RadixValues();
    m1 := UsedWrite(q, l, mem, 4 + 8 * slot, e.id, 4, q.used + 4 + 8 * slot);
    m2 := UsedWrite(q, l, m1, 8 + 8 * slot, e.len, 4, q.used + 4 + 8 * slot + 4);
    m3 := UsedWrite(q, l, m2, 2, idx, 2, q.used + 2);
  }

  lemma PostView(q: Queue, l: Layout, mem: seq<byte>, slot: nat, idx: nat, e: Elem) returns (m: seq<byte>)
    requires Laid(q, l) && |mem| == l.size && slot < q.size && idx < 0x1_0000 && e.id < 0x1_0000_0000
    requires e.len < 0x1_0000_0000
    ensures Post(q.io, mem, q.used, slot, idx, e.id, e.len) == Outcome(true, m) && |m| == |mem|
    ensures ViewOf(q, l, m) == ViewOf(q, l, mem).(usedIdx := idx, elems := ViewOf(q, l, mem).elems[slot := e])
  {
    var m1, m2;
    m1, m2, m := PostRuns(q, l, mem, slot, idx, e);
    Apart(q, l);
    ViewPosted(mem, m1, m2, m, Base(l, q.desc), Base(l, q.avail), Base(l, q.used), q.size, slot, e, idx);
  }

  /** The used ring at u is apart from the areas at d and a. */
  predicate Clear(d: nat, a: nat, u: nat, size: nat) {
    && (u + 4 + 8 * size <= d || d + 16 * size <= u)
    && (u + 4 + 8 * size <= a || a + 4 + 2 * size <= u)
  }

  lemma Apart(q: Queue, l: Layout)
    requires Laid(q, l)
    ensures Clear(Base(l, q.desc), Base(l, q.avail), Base(l, q.used), q.size)
  {
    assert Use(Key);
  }

  lemma ViewPosted(mem: seq<byte>, m1: seq<byte>, m2: seq<byte>, m: seq<byte>, d: nat, a: nat, u: nat, size: nat,
                   slot: nat, e: Elem, idx: nat)
    requires Posts(mem, m1, m2, m, u, slot, e, idx) && slot < size && Clear(d, a, u, size)
    ensures ViewAt(m, d, a, u, size) ==
      ViewAt(mem, d, a, u, size).(usedIdx := idx, elems := ElemsAt(mem, u, size)[slot := e])
    ensures |m| == |mem|
  {
    PostsUsed(mem, m1, m2, m, u, slot, e, idx, size);
    TableKept(mem, m, u, 4 + 8 * size, d, size);
    AvailKept(mem, m, u, 4 + 8 * size, a, size);
  }

  lemma PushPosts(q: Queue, l: Layout, mem: seq<byte>, head: nat, len: nat, idx: nat)
    requires Laid(q, l) && |mem| == l.size && idx == ViewOf(q, l, mem).usedIdx
    ensures Push(q, mem, true, head, len) == Post(q.io, mem, q.used, Rem(idx, q.size), (idx + 1) % 0x1_0000, head, len)
  {
    UsedField(q, l, mem, 2, 2, q.used + 2);
  }

  /** Pushing posts one element at the used index and advances the index; the
      descriptor table and the available ring stay as they are. */
  lemma PushRings(q: Queue, l: Layout, mem: seq<byte>, head: nat, len: nat)
    requires Laid(q, l) && |mem| == l.size && head < 0x1_0000_0000 && len < 0x1_0000_0000
    ensures Push(q, mem, true, head, len).ok && |Push(q, mem, true, head, len).mem| == |mem|
    ensures ViewOf(q, l, Push(q, mem, true, head, len).mem) == PushView(ViewOf(q, l, mem), Elem(head, len))
  {
    var idx := ViewOf(q, l, mem).usedIdx;
    PushPosts(q, l, mem, head, len, idx);
    var m := PostView(q, l, mem, Rem(idx, q.size), (idx + 1) % 0x1_0000, Elem(head, len));
  }

  /** Pushing writes to the used ring only. */
  lemma PushOnly(q: Queue, l: Layout, mem: seq<byte>, head: nat, len: nat)
    requires Laid(q, l) && |mem| == l.size && head < 0x1_0000_0000 && len < 0x1_0000_0000
    ensures OnlyBytes(mem, Push(q, mem, true, head, len).mem, Base(l, q.used), 4 + 8 * q.size)
  {
    var idx := ViewOf(q, l, mem).usedIdx;
    PushPosts(q, l, mem, head, len, idx);
    var r, e := Rem(idx, q.size), Elem(head, len);
    var m1, m2, m3 := PostRuns(q, l, mem, r, (idx + 1) % 0x1_0000, e);
    PostsUsed(mem, m1, m2, m3, Base(l, q.used), r, e, (idx + 1) % 0x1_0000, q.size);
  }
}
