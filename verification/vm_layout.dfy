/** What the bits of a page-table entry mean, which of them decide an access, and where entries lie in memory
    (kernel/riscv.h:343-376; sections 4.3.1 and 4.4.1 of the RISC-V privileged architecture). */
module VmLayout {
  import opened VmFormat
  import opened VmModel
  import opened VmImage

  predicate IsBit(x: int) {
    x == 0 || x == 1
  }

  /** Bit 0 of an entry is V, then come R, W, X and U; five more bits; and the page number from bit 10 on. */
  lemma EntryBits(e: int, v: int, r: int, w: int, x: int, u: int, rest: int, frame: int)
    requires IsBit(v) && IsBit(r) && IsBit(w) && IsBit(x) && IsBit(u) && 0 <= rest < 32
    requires e == v + 2 * r + 4 * w + 8 * x + 16 * u + 32 * rest + 1024 * frame
    ensures (Valid(e) <==> v == 1) && (Readable(e) <==> r == 1) && (Writable(e) <==> w == 1) && (User(e) <==> u == 1)
    ensures MapsPage(e) <==> r == 1 || w == 1 || x == 1
    ensures Frame(e) == frame && Flags(e) == v + 2 * r + 4 * w + 8 * x + 16 * u + 32 * rest
    ensures PTE_V == 1 && PTE_R == 2 && PTE_W == 4 && PTE_X == 8 && PTE_U == 16
  {
    Halves(e, v, r + 2 * w + 4 * x + 8 * u + 16 * rest + 512 * frame);
    Halves(e / 2, r, w + 2 * x + 4 * u + 8 * rest + 256 * frame);
    Halves(e / 2 / 2, w, x + 2 * u + 4 * rest + 128 * frame);
    Halves(e / 2 / 2 / 2, x, u + 2 * rest + 64 * frame);
    Halves(e / 2 / 2 / 2 / 2, u, rest + 32 * frame);
    assert e / 2 / 2 == e / 4 && e / 2 / 2 / 2 / 2 == e / 16;
    assert e / 2 == (r + 2 * w + 4 * x) + 8 * (u + 2 * rest + 64 * frame);
  }

  lemma Halves(e: int, b: int, rest: int)
    requires IsBit(b) && e == b + 2 * rest
    ensures e % 2 == b && e / 2 == rest
  {
  }

  /** Entry i of a table is in bytes 8 i to 8 i + 7, lowest byte first. */
  lemma EntryBytes(p: Page, i: int)
    requires 0 <= i < 512
    ensures var b0: int, b1: int, b2: int, b3: int := p[8 * i], p[8 * i + 1], p[8 * i + 2], p[8 * i + 3];
            var b4: int, b5: int, b6: int, b7: int := p[8 * i + 4], p[8 * i + 5], p[8 * i + 6], p[8 * i + 7];
            Entry(p, i) == b0 + 0x100 * b1 + 0x1_0000 * b2 + 0x100_0000 * b3
                           + 0x1_0000_0000 * (b4 + 0x100 * b5 + 0x1_0000 * b6 + 0x100_0000 * b7)
  {
    var s := p[8 * i..8 * i + 8];
    NumberStep(s, 0);
    NumberStep(s, 1);
    NumberStep(s, 2);
    NumberStep(s, 3);
    NumberStep(s, 4);
    NumberStep(s, 5);
    NumberStep(s, 6);
    NumberStep(s, 7);
    assert s[0..] == s && s[8..] == [];
  }

  lemma NumberStep(s: seq<Byte>, k: nat)
    requires k < |s|
    ensures VmFormat.Number(s[k..]) == s[k] as int + 256 * VmFormat.Number(s[k + 1..])
  {
    assert s[k..][1..] == s[k + 1..];
  }

  // ----- the walk

  /** A mapped page is reached from the root by three entries: number `page / 2^18` of the root, number
      `page / 2^9 % 2^9` of the table it names, and number `page % 2^9` of the table that one names. The first two
      have V and no other flag; the third is the mapping. */
  lemma ThreeEntries(end: int, mem: seq<Page>, owner: seq<Use>, list: seq<int>, flat: map<Key, int>, home: map<Loc,
                     int>,
                     root: int, page: int)
    requires VmOk(end, mem, owner, list, flat, home, {}) && IsRoot(owner, root) && Key(root, page) in flat
    ensures 0 <= page < 512 * 512 * 512
    ensures exists t1, t0 :: ReachedBy(mem, root, page, t1, t0, flat[Key(root, page)])
  {
    var k := Key(root, page);
    PageParts(page);
    MappedIsFound(mem, owner, flat, home, root, page);
    var t0 := home[Block(k)];
    assert PlaceOk(mem, owner, home, {}, t0);
    var t1 := owner[t0].parent;
    assert PlaceOk(mem, owner, home, {}, t1) && PlaceOk(mem, owner, home, {}, owner[t1].parent);
    assert ReachedBy(mem, root, page, t1, t0, flat[k]);
  }

  predicate ReachedBy(mem: seq<Page>, root: int, page: int, t1: int, t0: int, e: int) {
    && 0 <= page < 512 * 512 * 512 && 0 <= root < |mem| && 0 < t1 < |mem| && 0 < t0 < |mem|
    && Entry(mem[root], page / 262144) == t1 * 1024 + 1
    && Entry(mem[t1], page / 512 % 512) == t0 * 1024 + 1
    && Entry(mem[t0], page % 512) == e
  }

  // ----- permissions

  /** The user may touch a page with U; load from it with R as well, and store to it with W as well. */
  lemma AccessBits(m: Image, va: int, v: int, r: int, w: int, x: int, u: int, rest: int)
    requires 0 <= va / 4096 < |m.pages| && IsBit(v) && IsBit(r) && IsBit(w) && IsBit(x) && IsBit(u) && 0 <= rest < 32
    requires m.pages[va / 4096].flags == v + 2 * r + 4 * w + 8 * x + 16 * u + 32 * rest
    ensures Reachable(m, va / 4096) <==> u == 1
    ensures Allowed(m, va, false) <==> u == 1 && r == 1
    ensures Allowed(m, va, true) <==> u == 1 && w == 1
  {
    EntryBits(m.pages[va / 4096].flags, v, r, w, x, u, rest, 0);
  }

  /** A page that was never touched is readable and writable, and all zero. */
  lemma UntouchedBits(o: int)
    requires 0 <= o < 4096
    ensures Untouched().flags == 1 + 2 + 4 + 16 && Untouched().bytes[o] == 0
  {
  }

  // ----- the memory of a process as an array of bytes

  /** The byte at address a. */
  function At(m: Image, a: int): (b: Byte)
    requires 0 <= a / 4096 < |m.pages|
  {
    m.pages[a / 4096].bytes[a % 4096]
  }

  /** The kernel may copy from address a, or to it, for the user. */
  predicate CanCopy(m: Image, a: int, out: bool) {
    Reachable(m, a / 4096) && (out ==> Writable(m.pages[a / 4096].flags))
  }

  ghost predicate AllCopy(m: Image, va: int, len: int, out: bool) {
    forall a :: va <= a < va + len ==> CanCopy(m, a, out)
  }

  /** The addresses of a piece lie in one page, and the next piece starts where the page ends. */
  lemma PieceAddresses(va: int, len: int, a: int)
    requires 0 <= va && 0 < len && va <= a < va + len
    ensures var n, next := Piece(va, len), (va / 4096 + 1) * 4096;
            && (a < va + n ==> a / 4096 == va / 4096 && a % 4096 == va % 4096 + (a - va))
            && (a >= va + n ==> next == va + n <= a < next + (len - n))
            && (n == len || next == va + n)
  {
  }

  /** A range touches the pages from that of its first byte to that of its last. */
  lemma {:induction false} TouchesPages(va: int, len: int)
    requires 0 <= va
    ensures Touches(va, len) == if len <= 0 then 0 else (va + len - 1) / 4096 - va / 4096 + 1
    decreases len
  {
    if len > 0 {
      PieceAddresses(va, len, va + len - 1);
      TouchesPages((va / 4096 + 1) * 4096, len - Piece(va, len));
    }
  }

  /** The range can be copied exactly if its first page can, and the rest. */
  lemma CopyRest(m: Image, va: int, len: int, out: bool)
    requires 0 <= va && 0 < len
    ensures var n, next := Piece(va, len), (va / 4096 + 1) * 4096;
            AllCopy(m, va, len, out) <==> CanCopy(m, va, out) && AllCopy(m, next, len - n, out)
  {
    hide Reachable, Writable;
    var n, next := Piece(va, len), (va / 4096 + 1) * 4096;
    if CanCopy(m, va, out) && AllCopy(m, next, len - n, out) {
      forall a | va <= a < va + len ensures CanCopy(m, a, out) {
        PieceAddresses(va, len, a);
      }
    }
    if AllCopy(m, va, len, out) {
      assert CanCopy(m, va, out);
      forall a | next <= a < next + (len - n) ensures CanCopy(m, a, out) {
        PieceAddresses(va, len, va);
        assert va <= a < va + len;
      }
    }
  }

  /** copyin succeeds exactly if every byte of the range may be touched. */
  lemma {:induction false} CopyinWhen(m: Image, va: int, len: int)
    requires 0 <= va && 0 <= len
    ensures Copyin(m, va, len).Got? <==> AllCopy(m, va, len, false)
    ensures Copyin(m, va, len).Got? ==> |Copyin(m, va, len).bytes| == len
    decreases len
  {
    hide User, AllCopy, Piece;
    if len > 0 {
      CopyRest(m, va, len, false);
      if Reachable(m, va / 4096) {
        CopyinWhen(m, (va / 4096 + 1) * 4096, len - Piece(va, len));
        if Copyin(m, va, len).Got? {
          CopyinUnfold(m, va, len);
        }
      }
    } else {
      NothingToCopy(m, va, false);
    }
  }

  lemma CopyinUnfold(m: Image, va: int, len: int)
    requires 0 <= va && 0 < len && Copyin(m, va, len).Got?
    ensures var n, next := Piece(va, len), (va / 4096 + 1) * 4096;
            && 0 <= va / 4096 < |m.pages| && Copyin(m, next, len - n).Got?
            && Copyin(m, va, len).bytes
               == m.pages[va / 4096].bytes[va % 4096..va % 4096 + n] + Copyin(m, next, len - n).bytes
  {
    hide User;
  }

  lemma NothingToCopy(m: Image, va: int, out: bool)
    ensures AllCopy(m, va, 0, out)
  {
  }

  /** And then it returns the bytes of the range, in order. */
  lemma {:induction false} CopyinByte(m: Image, va: int, len: int, a: int)
    requires 0 <= va && va <= a < va + len && Copyin(m, va, len).Got?
    ensures |Copyin(m, va, len).bytes| == len
    ensures 0 <= a / 4096 < |m.pages| && Copyin(m, va, len).bytes[a - va] == At(m, a)
    decreases len
  {
    hide Copyin, AllCopy;
    var n, next := Piece(va, len), (va / 4096 + 1) * 4096;
    CopyinWhen(m, va, len);
    CopyinUnfold(m, va, len);
    PieceAddresses(va, len, a);
    if a >= va + n {
      CopyinByte(m, next, len - n, a);
    }
  }

  /** copyout succeeds exactly if every byte of the range may be written. */
  lemma {:induction false} CopyoutWhen(m: Image, va: int, src: seq<Byte>)
    requires 0 <= va
    ensures Copyout(m, va, src).1 == 0 <==> AllCopy(m, va, |src|, true)
    decreases |src|
  {
    hide User, Writable, AllCopy, Stored;
    if src != [] {
      CopyRest(m, va, |src|, true);
      if CanCopy(m, va, true) {
        var n, next := Piece(va, |src|), (va / 4096 + 1) * 4096;
        var m1 := Stored(m, va, src[..n]);
        CopyoutPage(m, va, src);
        CopyoutWhen(m1, next, src[n..]);
        StoredCopy(m, va, src[..n], next, |src| - n);
      }
    } else {
      NothingToCopy(m, va, true);
    }
  }

  lemma StoredCopy(m: Image, va: int, bytes: seq<Byte>, from: int, len: int)
    requires 0 <= va / 4096 < |m.pages| && 0 <= va && va % 4096 + |bytes| <= 4096
    ensures AllCopy(Stored(m, va, bytes), from, len, true) <==> AllCopy(m, from, len, true)
  {
    hide Writable, User;
    var m1 := Stored(m, va, bytes);
    assert forall a :: CanCopy(m1, a, true) == CanCopy(m, a, true);
  }

  lemma StoredAt(m: Image, va: int, bytes: seq<Byte>, a: int)
    requires 0 <= va / 4096 < |m.pages| && 0 <= va && va % 4096 + |bytes| <= 4096 && 0 <= a / 4096 < |m.pages|
    ensures var m1 := Stored(m, va, bytes);
            && |m1.pages| == |m.pages| && m1.sz == m.sz && m1.pages[a / 4096].flags == m.pages[a / 4096].flags
            && At(m1, a) == if va <= a < va + |bytes| then bytes[a - va] else At(m, a)
  {
    if va <= a < va + |bytes| {
      assert a / 4096 == va / 4096 && a % 4096 == va % 4096 + (a - va);
    } else if a / 4096 == va / 4096 {
      assert a % 4096 - va % 4096 == a - va;
    }
  }

  /** What copyout does to the byte at address a: inside the range it becomes the byte to be copied, outside it
      stays; if the range cannot be written, a byte of it may be either. */
  lemma {:induction false} CopyoutByte(m: Image, va: int, src: seq<Byte>, a: int)
    requires 0 <= va && 0 <= a / 4096 < |m.pages|
    ensures var (m1, r) := Copyout(m, va, src);
            && |m1.pages| == |m.pages| && m1.pages[a / 4096].flags == m.pages[a / 4096].flags
            && (!(va <= a < va + |src|) ==> At(m1, a) == At(m, a))
            && (va <= a < va + |src| && r == 0 ==> At(m1, a) == src[a - va])
            && (va <= a < va + |src| ==> At(m1, a) == src[a - va] || At(m1, a) == At(m, a))
    decreases |src|
  {
    hide User, Writable, At, Stored;
    if src != [] && CanCopyOut(m, va) {
      var n, next := Piece(va, |src|), (va / 4096 + 1) * 4096;
      CopyoutPage(m, va, src);
      StoredAt(m, va, src[..n], a);
      var m1 := Stored(m, va, src[..n]);
      CopyoutByte(m1, next, src[n..], a);
      if va <= a < va + |src| {
        PieceAddresses(va, |src|, a);
      } else {
        PieceAddresses(va, |src|, va);
      }
    }
  }

  predicate CanCopyOut(m: Image, va: int) {
    Reachable(m, va / 4096) && Writable(m.pages[va / 4096].flags)
  }

  /** sbrk moves the size, and the break is returned as it was; it refuses to pass the trapframe, and grants a
      shrink below zero without doing it. Bytes below both sizes stay, and new ones are zero. */
  lemma SbrkBytes(m: Image, n: int, a: int)
    requires 0 <= m.sz && |m.pages| == (m.sz + 4095) / 4096 && 0 <= a
    ensures var (m1, r) := Sbrk(m, n);
            && |m1.pages| == (m1.sz + 4095) / 4096
            && r == (if n > 0 && m.sz + n > 0x3ff_fffe * 4096 then -1 else m.sz)
            && m1.sz == (if r == -1 || m.sz + n < 0 then m.sz else m.sz + n)
            && (a / 4096 < |m.pages| && a / 4096 < |m1.pages| ==> m1.pages[a / 4096] == m.pages[a / 4096])
            && (|m.pages| <= a / 4096 < |m1.pages| ==> m1.pages[a / 4096].flags == 23 && At(m1, a) == 0)
  {
  }

  /** A load that is allowed sees the byte, and a store that is allowed changes that byte and no other. */
  lemma LoadStoreByte(m: Image, va: int, b: Byte, a: int)
    requires 0 <= va && 0 <= a / 4096 < |m.pages|
    ensures Load(m, va) == if Allowed(m, va, false) then Got([At(m, va)]) else Fault
    ensures Allowed(m, va, true) ==>
              && Store(m, va, b).1 == Got([]) && |Store(m, va, b).0.pages| == |m.pages| && Store(m, va, b).0.sz == m.sz
              && At(Store(m, va, b).0, a) == (if a == va then b else At(m, a))
              && Store(m, va, b).0.pages[a / 4096].flags == m.pages[a / 4096].flags
    ensures !Allowed(m, va, true) ==> Store(m, va, b) == (m, Fault)
  {
    if Allowed(m, va, true) {
      StoredAt(m, va, [b], a);
    }
  }
}
