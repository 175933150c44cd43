/** Physical pages and Sv39 page-table entries (kernel/riscv.h): a page is 4096 bytes, read as 512
    little-endian 64-bit words where the kernel uses it as a page table or as a free-list node. */
module VmFormat {
  const ENTRIES: int := 512
  const MAXPAGE: int := 0x400_0000     // MAXVA / PGSIZE: one bit less than Sv39 allows
  const TOP: int := 0x3ff_fffe         // TRAPFRAME / PGSIZE: user pages lie below
  const FRAMES: int := 0x1000_0000_0000 // a physical page number has 44 bits

  type Byte = x: int | 0 <= x < 256
  type Page = b: seq<Byte> | |b| == 4096 witness seq(4096, i => 0)

  /** memset */
  function Filled(c: Byte): (p: Page) {
    seq(4096, i => c)
  }

  // ----- little-endian numbers

  function Number(s: seq<Byte>): (n: int)
    ensures 0 <= n
  {
    if s == [] then 0 else s[0] + 256 * Number(s[1..])
  }

  function Bytes(n: int, k: nat): (s: seq<Byte>)
    requires 0 <= n
    ensures |s| == k
  {
    if k == 0 then [] else [n % 256] + Bytes(n / 256, k - 1)
  }

  function Power(k: nat): (r: nat)
    ensures 0 < r
  {
    if k == 0 then 1 else 256 * Power(k - 1)
  }

  lemma {:induction false} NumberOfBytes(n: int, k: nat)
    requires 0 <= n < Power(k)
    ensures Number(Bytes(n, k)) == n
  {
    if k > 0 {
      assert Bytes(n, k)[1..] == Bytes(n / 256, k - 1);
      NumberOfBytes(n / 256, k - 1);
    }
  }

  lemma {:induction false} NumberOfZeros(s: seq<Byte>)
    requires forall i :: 0 <= i < |s| ==> s[i] == 0
    ensures Number(s) == 0
  {
    if s != [] {
      NumberOfZeros(s[1..]);
    }
  }

  // ----- the words of a page

  function Entry(p: Page, i: int): (e: int)
    requires 0 <= i < ENTRIES
  {
    Number(p[8 * i..8 * i + 8])
  }

  function PutEntry(p: Page, i: int, e: int): (r: Page)
    requires 0 <= i < ENTRIES && 0 <= e < 0x1_0000_0000_0000_0000
    ensures Entry(r, i) == e
    ensures forall j {:trigger Entry(r, j)} :: 0 <= j < ENTRIES && j != i ==> Entry(r, j) == Entry(p, j)
  {
    var r := p[..8 * i] + Bytes(e, 8) + p[8 * i + 8..];
    assert Entry(r, i) == e by {
      assert r[8 * i..8 * i + 8] == Bytes(e, 8);
      assert Power(4) == 0x1_0000_0000 && Power(8) == 0x1_0000_0000_0000_0000;
      NumberOfBytes(e, 8);
    }
    assert forall j {:trigger Entry(r, j)} :: 0 <= j < ENTRIES && j != i ==> Entry(r, j) == Entry(p, j) by {
      forall j | 0 <= j < ENTRIES && j != i ensures Entry(r, j) == Entry(p, j) {
        assert r[8 * j..8 * j + 8] == p[8 * j..8 * j + 8];
      }
    }
    r
  }

  lemma ZeroEntries()
    ensures forall i {:trigger Entry(Filled(0), i)} :: 0 <= i < ENTRIES ==> Entry(Filled(0), i) == 0
  {
    forall i | 0 <= i < ENTRIES ensures Entry(Filled(0), i) == 0 {
      NumberOfZeros(Filled(0)[8 * i..8 * i + 8]);
    }
  }

  // ----- page-table entries: a page number and ten flag bits

  const PTE_V: int := 1
  const PTE_R: int := 2
  const PTE_W: int := 4
  const PTE_X: int := 8
  const PTE_U: int := 16

  /** PA2PTE(pa) | flags */
  function Pte(frame: int, flags: int): (e: int) {
    frame * 1024 + flags
  }

  function Frame(e: int): (f: int) {
    e / 1024
  }

  function Flags(e: int): (f: int) {
    e % 1024
  }

  predicate Valid(e: int) {
    e % 2 == 1
  }

  /** flags | PTE_V */
  function WithValid(flags: int): (r: int) {
    flags - flags % 2 + 1
  }

  predicate Readable(e: int) {
    e / 2 % 2 == 1
  }

  predicate Writable(e: int) {
    e / 4 % 2 == 1
  }

  predicate User(e: int) {
    e / 16 % 2 == 1
  }

  /** An entry with R, W or X maps a page; one without names the next table. */
  predicate MapsPage(e: int) {
    e / 2 % 8 != 0
  }

  lemma PteParts(frame: int, flags: int)
    requires 0 <= flags < 1024
    ensures Frame(Pte(frame, flags)) == frame && Flags(Pte(frame, flags)) == flags
    ensures Valid(Pte(frame, flags)) <==> Valid(flags)
    ensures MapsPage(Pte(frame, flags)) <==> MapsPage(flags)
    ensures User(Pte(frame, flags)) <==> User(flags)
    ensures Writable(Pte(frame, flags)) <==> Writable(flags)
    ensures Readable(Pte(frame, flags)) <==> Readable(flags)
  {
    Multiple(flags / 2, 8, 64 * frame);
    Multiple(flags / 2, 2, 256 * frame);
    Multiple(flags / 4, 2, 128 * frame);
    Multiple(flags / 16, 2, 32 * frame);
    assert Pte(frame, flags) / 2 == flags / 2 + 8 * (64 * frame);
    assert Pte(frame, flags) / 4 == flags / 4 + 2 * (128 * frame);
    assert Pte(frame, flags) / 16 == flags / 16 + 2 * (32 * frame);
  }

  lemma Multiple(x: int, m: int, k: int)
    requires m == 2 || m == 8
    ensures (x + m * k) % m == x % m
  {
  }

  /** PA2PTE(pa) | perm | PTE_V is a leaf entry of 64 bits. */
  lemma PteFits(frame: int, perm: int)
    requires 0 <= frame < FRAMES && 0 <= perm < 1024 && MapsPage(perm)
    ensures var e := Pte(frame, WithValid(perm));
            0 <= e < 0x1_0000_0000_0000_0000 && Valid(e) && MapsPage(e) && Frame(e) == frame
  {
    PteParts(frame, WithValid(perm));
    assert WithValid(perm) / 2 == perm / 2;
  }

  lemma NextTableEntry(e: int)
    requires Flags(e) == 1
    ensures !MapsPage(e)
  {
    PteParts(Frame(e), 1);
    assert e == Pte(Frame(e), 1);
  }

  lemma LeafFlags(e: int)
    requires Valid(e) && MapsPage(e)
    ensures var flags := Flags(e); 0 <= flags < 1024 && MapsPage(flags) && WithValid(flags) == flags
  {
    PteParts(Frame(e), Flags(e));
    assert e == Pte(Frame(e), Flags(e));
  }

  /** The permissions of an entry are those of its flags. */
  lemma FlagBits(e: int)
    ensures (User(e) <==> User(Flags(e))) && (Writable(e) <==> Writable(Flags(e)))
            && (Readable(e) <==> Readable(Flags(e)))
  {
    PteParts(Frame(e), Flags(e));
    assert e == Pte(Frame(e), Flags(e));
  }
}
