/** The boot page tables (`setup_page_tables` in src/memory/mod.rs) and the
    four-level walk that the processor makes (section 4.5 of volume 3A of the
    Intel SDM). */
module PageTables {
  import opened Bytes
  import opened GuestMemory

  const PML4 := 0x9000
  const PDPT := 0xA000
  const PD := 0x10000

  /** Gigabytes to map: at least one, at most 64. */
  function Gigabytes(memSize: nat): (n: nat)
    ensures 1 <= n <= 64
    ensures n < 64 ==> memSize <= 0x4000_0000 * n
    ensures n > 1 ==> 0x4000_0000 * (n - 1) < memSize
  {
    var n := (memSize + 0x4000_0000 - 1) / 0x4000_0000;
    if n < 1 then 1 else if n > 64 then 64 else n
  }

  // ----- the processor's walk

  predicate Present(e: nat) { e % 2 == 1 }

  /** Bit 7: the entry maps a large page. */
  predicate Large(e: nat) { e / 0x80 % 2 == 1 }

  /** Bits 51 to 12: the next table. */
  function Table(e: nat): nat { e % 0x10_0000_0000_0000 / 0x1000 * 0x1000 }

  /** Bits 51 to 21: the 2 MB page. */
  function Frame(e: nat): nat { e % 0x10_0000_0000_0000 / 0x20_0000 * 0x20_0000 }

  /** The physical address that a linear address below 2^48 maps to, with 2 MB pages
      only; None on a fault. */
  function Walk(mem: seq<byte>, cr3: nat, addr: nat): Option<nat> {
    var e := Word(mem, cr3 + 8 * (addr / 0x80_0000_0000 % 512));
    if Present(e) then WalkDirectories(mem, Table(e), addr) else None
  }

  function WalkDirectories(mem: seq<byte>, table: nat, addr: nat): Option<nat> {
    var e := Word(mem, table + 8 * (addr / 0x4000_0000 % 512));
    if Present(e) && !Large(e) then WalkPages(mem, Table(e), addr) else None
  }

  function WalkPages(mem: seq<byte>, table: nat, addr: nat): Option<nat> {
    var e := Word(mem, table + 8 * (addr / 0x20_0000 % 512));
    if Present(e) && Large(e) then Some(Frame(e) + addr % 0x20_0000) else None
  }

  // ----- the tables

  /** The entry for gigabyte g, and the one for the n-th 2 MB page. */
  function DirectoryEntry(g: nat): nat { PD + 0x1000 * g + 3 }
  function PageEntry(n: nat): nat { 0x20_0000 * n + 0x83 }

  /** The first `gbs` directory entries and the first `pages` page entries are set. */
  ghost predicate Built(mem: seq<byte>, gbs: nat, pages: nat) {
    && Word(mem, PML4) == PDPT + 3
    && (forall g: nat {:trigger Slot3(g)} :: g < gbs ==> Word(mem, Slot3(g)) == DirectoryEntry(g))
    && (forall n: nat {:trigger Slot2(n)} :: n < pages ==> Word(mem, Slot2(n)) == PageEntry(n))
  }

  function Slot3(g: nat): nat { 0xA000 + 8 * g }
  function Slot2(n: nat): nat { 0x10000 + 8 * n }

  /** Every address below the mapped gigabytes maps to itself. */
  lemma IdentityMapped(mem: seq<byte>, gbs: nat, addr: nat)
    requires gbs <= 64 && Built(mem, gbs, 512 * gbs) && addr < 0x4000_0000 * gbs
    ensures Walk(mem, PML4, addr) == Some(addr)
  {
    var g, n := addr / 0x4000_0000, addr / 0x20_0000;
    Indices(addr, g, n);
    assert Word(mem, Slot3(g)) == DirectoryEntry(g);
    assert Word(mem, Slot2(n)) == PageEntry(n);
    PageLevel(mem, addr, g, n);
    DirectoryLevel(mem, addr, g);
    TopLevel(mem, addr);
  }

  lemma TopLevel(mem: seq<byte>, addr: nat)
    requires Word(mem, PML4) == PDPT + 3 && addr / 0x80_0000_0000 % 512 == 0
    ensures Walk(mem, PML4, addr) == WalkDirectories(mem, PDPT, addr)
  {
    assert Present(PDPT + 3) && Table(PDPT + 3) == PDPT;
  }

  lemma DirectoryLevel(mem: seq<byte>, addr: nat, g: nat)
    requires g == addr / 0x4000_0000 == g % 512 && g < 64 && Word(mem, Slot3(g)) == DirectoryEntry(g)
    ensures WalkDirectories(mem, PDPT, addr) == WalkPages(mem, 0x10000 + 0x1000 * g, addr)
  {
    Directory(g);
    assert Slot3(g) == PDPT + 8 * (g % 512);
  }

  lemma PageLevel(mem: seq<byte>, addr: nat, g: nat, n: nat)
    requires n == addr / 0x20_0000 == 512 * g + n % 512 && n < 64 * 512 && Word(mem, Slot2(n)) == PageEntry(n)
    ensures WalkPages(mem, 0x10000 + 0x1000 * g, addr) == Some(addr)
  {
    Page(n);
    assert Slot2(n) == 0x10000 + 0x1000 * g + 8 * (n % 512);
  }

  lemma Indices(addr: nat, g: nat, n: nat)
    requires g == addr / 0x4000_0000 && n == addr / 0x20_0000 && addr < 0x10_0000_0000
    ensures addr / 0x80_0000_0000 % 512 == 0 && g < 64 && g % 512 == g
    ensures n == 512 * g + n % 512 && addr == 0x20_0000 * n + addr % 0x20_0000
  {
  }

  lemma Directory(g: nat)
    requires g < 64
    ensures Present(DirectoryEntry(g)) && !Large(DirectoryEntry(g)) && Table(DirectoryEntry(g)) == 0x10000 + 0x1000 * g
  {
    var e := DirectoryEntry(g);
    assert e / 0x80 == 0x200 + 0x20 * g;
    assert e / 0x1000 == 0x10 + g;
  }

  lemma Page(n: nat)
    requires n < 64 * 512
    ensures Present(PageEntry(n)) && Large(PageEntry(n)) && Frame(PageEntry(n)) == 0x20_0000 * n
  {
    var e := PageEntry(n);
    QuotRem(e, 0x80, 0x4000 * n + 1, 3);
    QuotRem(e, 0x20_0000, n, 0x83);
    PresentBit(e, 0x10_0000 * n + 0x41);
    LargeBit(e, 0x2000 * n);
    FrameOf(e, n);
  }

  lemma PresentBit(e: nat, m: nat)
    requires e == 2 * m + 1
    ensures Present(e)
  {
  }

  lemma LargeBit(e: nat, m: nat)
    requires Quot(e, 0x80) == 2 * m + 1
    ensures Large(e)
  {
  }

  lemma FrameOf(e: nat, n: nat)
    requires Quot(e, 0x20_0000) == n && e < 0x10_0000_0000_0000
    ensures Frame(e) == 0x20_0000 * n
  {
  }

  lemma StepDirectory(m: seq<byte>, m': seq<byte>, g: nat)
    requires g < 64 && Built(m, g, 512 * g)
    requires forall x: nat :: x == Slot3(g) || x + 8 <= Slot3(g) || Slot3(g) + 8 <= x ==>
      Word(m', x) == if x == Slot3(g) then DirectoryEntry(g) else Word(m, x)
    ensures Built(m', g + 1, 512 * g)
  {
  }

  lemma StepPage(m: seq<byte>, m': seq<byte>, g: nat, n: nat)
    requires g <= 64 && Built(m, g, n)
    requires forall x: nat :: x == Slot2(n) || x + 8 <= Slot2(n) || Slot2(n) + 8 <= x ==>
      Word(m', x) == if x == Slot2(n) then PageEntry(n) else Word(m, x)
    ensures Built(m', g, n + 1)
  {
  }

  /** The eight bytes from x on lie outside the tables for so many gigabytes. */
  predicate Beyond(x: nat, gbs: nat) {
    && (x + 8 <= 0x9000 || 0x9008 <= x) && (x + 8 <= 0xA000 || 0xA000 + 8 * gbs <= x)
    && (x + 8 <= 0x1_0000 || 0x1_0000 + 0x1000 * gbs <= x)
  }

  /** Nothing outside the tables has changed. */
  ghost predicate Untouched(was: seq<byte>, mem: seq<byte>, gbs: nat) {
    forall x: nat :: Beyond(x, gbs) ==> Word(mem, x) == Word(was, x)
  }

  /** Room for the tables. */
  predicate Room(l: Layout, gbs: nat) { PD + 0x1000 * gbs <= l.size }

  /** `setup_page_tables`: it succeeds exactly when the memory has room for the tables,
      and then identity-maps every address below the mapped gigabytes, in particular every
      address of a memory of at most 64 GB.  The hole,
      if there is one, must lie above the tables. */
  method SetupPageTables(mem: GuestMem, memSize: nat) returns (ok: bool)
    requires |mem.bytes| == mem.l.size && LowMemory(mem.l, 0x50000) && Proper(mem.l)
    modifies mem
    ensures |mem.bytes| == mem.l.size && (ok <==> Room(mem.l, Gigabytes(memSize)))
    ensures ok ==>
      forall addr: nat :: addr < 0x4000_0000 * Gigabytes(memSize) ==> Walk(mem.bytes, PML4, addr) == Some(addr)
    ensures ok ==> Untouched(old(mem.bytes), mem.bytes, Gigabytes(memSize))
    ensures ok ==>
      forall addr: nat :: addr < memSize && addr < 0x10_0000_0000 ==> Walk(mem.bytes, PML4, addr) == Some(addr)
  {
    var gbs := Gigabytes(memSize);
    ok := mem.WriteEntry(PML4, PDPT + 3);
    if !ok {
      return;
    }
    var gb := 0;
    while gb < gbs
      invariant gb <= gbs && |mem.bytes| == mem.l.size && Built(mem.bytes, gb, 512 * gb)
      invariant gb > 0 ==> Room(mem.l, gb)
      invariant Untouched(old(mem.bytes), mem.bytes, gb)
    {
      ok := MapGigabyte(mem, gb);
      if !ok {
        return;
      }
      gb := gb + 1;
    }
    forall addr: nat | addr < 0x4000_0000 * gbs ensures Walk(mem.bytes, PML4, addr) == Some(addr) {
      IdentityMapped(mem.bytes, gbs, addr);
    }
  }

  /** One gigabyte: its directory entry and 512 page entries. */
  method MapGigabyte(mem: GuestMem, gb: nat) returns (ok: bool)
    requires |mem.bytes| == mem.l.size && LowMemory(mem.l, 0x50000) && Proper(mem.l) && gb < 64
    requires Built(mem.bytes, gb, 512 * gb)
    modifies mem
    ensures |mem.bytes| == mem.l.size && (ok <==> Room(mem.l, gb + 1))
    ensures ok ==> Built(mem.bytes, gb + 1, 512 * gb + 512) && Untouched(old(mem.bytes), mem.bytes, gb + 1)
  {
    ghost var was := mem.bytes;
    ok := mem.WriteEntry(Slot3(gb), DirectoryEntry(gb));
    if !ok {
      return;
    }
    StepDirectory(was, mem.bytes, gb);
    var i := 0;
    while i < 512
      invariant i <= 512 && |mem.bytes| == mem.l.size && Built(mem.bytes, gb + 1, 512 * gb + i)
      invariant i > 0 ==> Slot2(512 * gb + i) <= mem.l.size
      invariant Untouched(old(mem.bytes), mem.bytes, gb + 1)
    {
      was := mem.bytes;
      ok := mem.WriteEntry(Slot2(512 * gb + i), PageEntry(512 * gb + i));
      if !ok {
        return;
      }
      StepPage(was, mem.bytes, gb + 1, 512 * gb + i);
      i := i + 1;
    }
  }
}
