/** Guest physical memory around the MMIO hole (src/memory/mod.rs, and the
    translations of src/virtio/queue.rs and src/virtio/net.rs). */
module GuestMemory {
  import opened Bytes

  /** The size of the backing allocation and the hole in the guest physical address
      space; holeStart is zero when there is no hole. */
  datatype Layout = Layout(size: nat, holeStart: nat, holeEnd: nat)

  /** A hole starts inside the allocation and is not empty. */
  predicate Proper(l: Layout) {
    l.holeStart == 0 || (l.holeStart <= l.size && l.holeStart < l.holeEnd)
  }

  /** `gpa_to_offset`, of the memory and of the virtqueue alike. */
  function Offset(l: Layout, gpa: nat): Option<nat> {
    if l.holeStart == 0 then (if gpa >= l.size then None else Some(gpa))
    else if gpa < l.holeStart then Some(gpa)
    else if gpa >= l.holeEnd then
      var offset := l.holeStart + (gpa - l.holeEnd);
      if offset >= l.size then None else Some(offset)
    else None
  }

  /** `guest_phys_size` */
  function PhysSize(l: Layout): nat
    requires Proper(l)
  {
    if l.holeStart == 0 then l.size else l.holeEnd + (l.size - l.holeStart)
  }

  /** `gpa_to_ptr` of the network device, relative to the start of memory. */
  function NetPointer(l: Layout, gpa: nat): nat {
    if l.holeStart > 0 && gpa >= l.holeEnd then l.holeStart + (gpa - l.holeEnd) else gpa
  }

  /** `gpa_to_hva` of the network device, relative to the start of memory. */
  function NetAddress(l: Layout, gpa: nat): nat {
    if l.holeStart == 0 || gpa < l.holeStart then gpa
    else if gpa >= l.holeEnd then l.holeStart + (gpa - l.holeEnd)
    else gpa
  }

  /** The guest address that an offset backs. */
  function AddressOf(l: Layout, offset: nat): nat {
    if l.holeStart == 0 || offset < l.holeStart then offset else l.holeEnd + (offset - l.holeStart)
  }

  /** Translation is a bijection from the backed addresses below the physical size,
      which are those outside the hole, onto the offsets of the allocation. */
  lemma TranslationBijective(l: Layout, gpa: nat, o: nat)
    requires Proper(l)
    ensures Offset(l, gpa).Some? <==> gpa < PhysSize(l) && !(0 < l.holeStart <= gpa < l.holeEnd)
    ensures Offset(l, gpa) == Some(o) ==> o < l.size && AddressOf(l, o) == gpa
    ensures o < l.size ==> Offset(l, AddressOf(l, o)) == Some(o) && AddressOf(l, o) < PhysSize(l)
  {
  }

  /** Order is kept, and neighbours stay neighbours on each side of the hole. */
  lemma TranslationOrdered(l: Layout, a: nat, b: nat)
    requires Proper(l) && Offset(l, a).Some? && Offset(l, b).Some?
    ensures a < b <==> Offset(l, a).value < Offset(l, b).value
    ensures (a < l.holeStart <==> b < l.holeStart) ==> b - a == Offset(l, b).value - Offset(l, a).value
  {
  }

  /** The network device's translations agree with it wherever memory is backed. */
  lemma NetAgrees(l: Layout, gpa: nat)
    requires Proper(l) && Offset(l, gpa).Some?
    ensures Some(NetPointer(l, gpa)) == Some(NetAddress(l, gpa)) == Offset(l, gpa)
  {
  }

  // ----- ranges

  /** n bytes from gpa on lie on one side of the hole. */
  predicate OneSided(l: Layout, gpa: nat, n: nat) {
    l.holeStart == 0 || gpa + n <= l.holeStart || l.holeEnd <= gpa
  }

  /** The n bytes that start at the translation of gpa. */
  predicate Fits(l: Layout, gpa: nat, n: nat) {
    Offset(l, gpa).Some? && Offset(l, gpa).value + n <= l.size
  }

  /** A range that the bounds checks let through is translated address by address
      exactly when it lies on one side of the hole; otherwise it spills into the
      memory above the hole. */
  lemma RangeTranslation(l: Layout, gpa: nat, n: nat)
    requires Proper(l) && Fits(l, gpa, n)
    ensures OneSided(l, gpa, n) <==>
      forall g: nat :: gpa <= g < gpa + n ==> Offset(l, g) == Some(Offset(l, gpa).value + (g - gpa))
  {
    if !OneSided(l, gpa, n) {
      assert gpa <= l.holeStart < gpa + n && Offset(l, l.holeStart) == None;
    }
  }

  /** A range on one side of the hole passes the bounds checks exactly when each of its
      addresses is backed. */
  lemma FitsIffBacked(l: Layout, gpa: nat, n: nat)
    requires Proper(l) && OneSided(l, gpa, n) && n > 0
    ensures Fits(l, gpa, n) <==> forall g: nat :: gpa <= g < gpa + n ==> Offset(l, g).Some?
  {
    if forall g: nat :: gpa <= g < gpa + n ==> Offset(l, g).Some? {
      assert Offset(l, gpa).Some? && Offset(l, gpa + n - 1).Some?;
    }
  }

  /** Two bytes written at the end of the memory below a hole of one gigabyte: the
      second one lands at the first address above the hole. */
  lemma SpillsOver(mem: seq<byte>)
    requires |mem| == 0xC000_1000
    ensures var l := Layout(0xC000_1000, 0xC000_0000, 0x1_0000_0000);
      && Proper(l) && Fits(l, 0xBFFF_FFFF, 2) && !OneSided(l, 0xBFFF_FFFF, 2)
      && ByteAt(l, WriteMem(l, mem, 0xBFFF_FFFF, [1, 2]).value, 0x1_0000_0000) == Some(2)
  {
  }

  function ReadMem(l: Layout, mem: seq<byte>, gpa: nat, n: nat): Option<seq<byte>>
    requires |mem| == l.size
  {
    if Fits(l, gpa, n) then Some(mem[Offset(l, gpa).value..Offset(l, gpa).value + n]) else None
  }

  function WriteMem(l: Layout, mem: seq<byte>, gpa: nat, d: seq<byte>): (r: Option<seq<byte>>)
    requires |mem| == l.size
    ensures r.Some? ==> |r.value| == |mem|
  {
    if Fits(l, gpa, |d|) then Some(Splice(mem, Offset(l, gpa).value, d)) else None
  }

  /** The byte at a guest address. */
  function ByteAt(l: Layout, mem: seq<byte>, gpa: nat): Option<byte>
    requires |mem| == l.size
  {
    match Offset(l, gpa)
    case Some(o) => if o < |mem| then Some(mem[o]) else None
    case None => None
  }

  /** Guest memory with the bytes from gpa on replaced. */
  predicate Overwritten(l: Layout, mem: seq<byte>, mem': seq<byte>, gpa: nat, d: seq<byte>, g: nat)
    requires |mem| == |mem'| == l.size
  {
    ByteAt(l, mem', g) == if gpa <= g < gpa + |d| then Some(d[g - gpa]) else ByteAt(l, mem, g)
  }

  /** Writing a range on one side of the hole changes exactly the addressed bytes. */
  lemma WriteExact(l: Layout, mem: seq<byte>, mem': seq<byte>, gpa: nat, d: seq<byte>, g: nat)
    requires Proper(l) && |mem| == l.size && WriteMem(l, mem, gpa, d) == Some(mem') && OneSided(l, gpa, |d|)
    ensures Overwritten(l, mem, mem', gpa, d, g)
  {
    RangeTranslation(l, gpa, |d|);
    if gpa <= g < gpa + |d| {
      assert Offset(l, g) == Some(Offset(l, gpa).value + (g - gpa));
    } else {
      OutsideRange(l, gpa, |d|, g);
    }
  }

  lemma OutsideRange(l: Layout, gpa: nat, n: nat, g: nat)
    requires Proper(l) && Fits(l, gpa, n) && OneSided(l, gpa, n) && !(gpa <= g < gpa + n)
    ensures Offset(l, g).Some? ==>
      Offset(l, g).value < Offset(l, gpa).value || Offset(l, gpa).value + n <= Offset(l, g).value
  {
  }

  /** Reading a range on one side gives the addressed bytes. */
  lemma ReadExact(l: Layout, mem: seq<byte>, gpa: nat, n: nat, k: nat)
    requires Proper(l) && |mem| == l.size && Fits(l, gpa, n) && OneSided(l, gpa, n) && k < n
    ensures ByteAt(l, mem, gpa + k) == Some(ReadMem(l, mem, gpa, n).value[k])
  {
    RangeTranslation(l, gpa, n);
    assert Offset(l, gpa + k) == Some(Offset(l, gpa).value + k);
  }

  /** Reading back what was written, wherever it lies. */
  lemma ReadAfterWrite(l: Layout, mem: seq<byte>, mem': seq<byte>, gpa: nat, d: seq<byte>)
    requires |mem| == l.size && WriteMem(l, mem, gpa, d) == Some(mem')
    ensures ReadMem(l, mem', gpa, |d|) == Some(d)
  {
    var o := Offset(l, gpa).value;
    assert mem'[o..o + |d|] == d;
  }

  // ----- little-endian words

  /** The n-byte number at an offset of the memory. */
  function Num(mem: seq<byte>, at: nat, n: nat): nat {
    if at + n <= |mem| then FromLE(mem[at..at + n]) else 0
  }

  /** A page table entry. */
  function Word(mem: seq<byte>, at: nat): nat { Num(mem, at, 8) }

  lemma WordWritten(mem: seq<byte>, at: nat, v: nat, x: nat)
    requires at + 8 <= |mem| && v < 0x1_0000_0000_0000_0000 && (x == at || x + 8 <= at || at + 8 <= x)
    ensures Word(Splice(mem, at, ToLE(v, 8)), x) == if x == at then v else Word(mem, x)
  {
    var mem' := Splice(mem, at, ToLE(v, 8));
    if x == at {
      assert mem'[at..at + 8] == ToLE(v, 8);
      RadixValues();
      FromToLE(v, 8);
    } else if x + 8 <= |mem| {
      assert mem'[x..x + 8] == mem[x..x + 8];
    }
  }

  /** A memory of which the first part, up to `low`, is mapped directly. */
  predicate LowMemory(l: Layout, low: nat) { l.holeStart == 0 || low <= l.holeStart }

  class GuestMem {
    const l: Layout
    var bytes: seq<byte>

    /** `write_at`: it fails in the hole and past the end of the allocation. */
    method WriteAt(gpa: nat, data: seq<byte>) returns (ok: bool)
      requires |bytes| == l.size
      modifies this
      ensures |bytes| == l.size && (ok <==> Fits(l, gpa, |data|))
      ensures ok ==> WriteMem(l, old(bytes), gpa, data) == Some(bytes)
      ensures !ok ==> bytes == old(bytes)
    {
      var offset := Offset(l, gpa);
      if offset == None || offset.value + |data| > l.size {
        return false;
      }
      bytes := Splice(bytes, offset.value, data);
      return true;
    }

    /** `read_at` */
    method ReadAt(gpa: nat, len: nat) returns (r: Option<seq<byte>>)
      requires |bytes| == l.size
      ensures r == ReadMem(l, bytes, gpa, len)
    {
      var offset := Offset(l, gpa);
      if offset == None || offset.value + len > l.size {
        return None;
      }
      return Some(bytes[offset.value..offset.value + len]);
    }

    /** Write a page table entry. */
    method WriteEntry(at: nat, v: nat) returns (ok: bool)
      requires |bytes| == l.size && LowMemory(l, at + 8) && v < 0x1_0000_0000_0000_0000
      modifies this
      ensures |bytes| == l.size && (ok <==> Fits(l, at, 8))
      ensures ok ==> at + 8 <= |bytes|
      ensures ok ==> forall x: nat :: x == at || x + 8 <= at || at + 8 <= x ==>
        Word(bytes, x) == if x == at then v else Word(old(bytes), x)
    {
      ok := WriteAt(at, ToLE(v, 8));
      if ok {
        forall x: nat | x == at || x + 8 <= at || at + 8 <= x
          ensures Word(bytes, x) == if x == at then v else Word(old(bytes), x)
        {
          WordWritten(old(bytes), at, v, x);
        }
      }
    }
  }
}
