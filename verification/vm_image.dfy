/** What a process sees of its memory, and what system calls and user instructions do to it, with no
    mention of page tables or of when memory is allocated. */
module VmImage {
  import opened VmFormat
  import opened VmModel

  /** A page as seen by the user. */
  datatype View = View(flags: int, bytes: Page)

  /** A process's memory: whole pages, the last of which may reach beyond the size. */
  datatype Image = Image(sz: int, pages: seq<View>)

  /** A page that was never touched: writable, and all zero. */
  const HEAP: int := 23    // WithValid(PTE_R | PTE_W | PTE_U)

  function Untouched(): (v: View) {
    View(HEAP, Filled(0))
  }

  // ----- system calls and accesses on an image

  /** sbrk. A request to shrink below zero is granted but changes nothing. */
  function Sbrk(m: Image, n: int): (r: (Image, int))
    requires 0 <= m.sz && |m.pages| == Pages(m.sz)
    ensures |r.0.pages| == Pages(r.0.sz) && 0 <= r.0.sz
  {
    if n > 0 && m.sz + n > TOP * 4096 then (m, -1)
    else if n >= 0 then (Image(m.sz + n, m.pages + seq(Pages(m.sz + n) - Pages(m.sz), i => Untouched())), m.sz)
    else if m.sz + n < 0 then (m, m.sz)
    else (Image(m.sz + n, m.pages[..Pages(m.sz + n)]), m.sz)
  }

  /** The user may touch this page. */
  predicate Reachable(m: Image, page: int) {
    0 <= page < |m.pages| && User(m.pages[page].flags)
  }

  function Overlay(p: Page, at: int, bytes: seq<Byte>): (r: Page)
    requires 0 <= at && at + |bytes| <= 4096
  {
    p[..at] + bytes + p[at + |bytes|..]
  }

  /** How much of `len` bytes at `va` lies in the first page. */
  function Piece(va: int, len: int): (n: int)
    requires 0 < len
    ensures 0 < n <= len && va % 4096 + n <= 4096
  {
    if 4096 - va % 4096 > len then len else 4096 - va % 4096
  }

  /** How many pages a range touches. */
  function Touches(va: int, len: int): (n: nat)
    decreases len
  {
    if len <= 0 then 0 else 1 + Touches((va / 4096 + 1) * 4096, len - Piece(va, len))
  }

  datatype Got = Got(bytes: seq<Byte>) | Fault

  /** copyin: the bytes, or a fault if any page may not be touched. */
  function Copyin(m: Image, va: int, len: int): (r: Got)
    requires 0 <= va && 0 <= len
    decreases len
  {
    if len == 0 then Got([])
    else if !Reachable(m, va / 4096) then Fault
    else
      var n := Piece(va, len);
      match Copyin(m, (va / 4096 + 1) * 4096, len - n)
      case Fault => Fault
      case Got(rest) => Got(m.pages[va / 4096].bytes[va % 4096..va % 4096 + n] + rest)
  }

  /** copyout: the pages before the first one that may not be written are overwritten. */
  function Copyout(m: Image, va: int, src: seq<Byte>): (r: (Image, int))
    requires 0 <= va
    ensures r.0.sz == m.sz && |r.0.pages| == |m.pages| && (r.1 == 0 || r.1 == -1)
    decreases |src|
  {
    if src == [] then (m, 0)
    else if !Reachable(m, va / 4096) || !Writable(m.pages[va / 4096].flags) then (m, -1)
    else
      var n := Piece(va, |src|);
      Copyout(Stored(m, va, src[..n]), (va / 4096 + 1) * 4096, src[n..])
  }

  /** Bytes stored within one page. */
  function Stored(m: Image, va: int, bytes: seq<Byte>): (r: Image)
    requires 0 <= va / 4096 < |m.pages| && 0 <= va && va % 4096 + |bytes| <= 4096
  {
    var v := m.pages[va / 4096];
    m.(pages := m.pages[va / 4096 := v.(bytes := Overlay(v.bytes, va % 4096, bytes))])
  }

  predicate Allowed(m: Image, va: int, write: bool) {
    Reachable(m, va / 4096) && if write then Writable(m.pages[va / 4096].flags) else Readable(m.pages[va / 4096].flags)
  }

  lemma HeapBits()
    ensures User(HEAP) && Writable(HEAP) && Readable(HEAP)
  {
  }

  /** A user instruction loads a byte, or the process is killed. */
  function Load(m: Image, va: int): (r: Got) {
    if Allowed(m, va, false) then Got([m.pages[va / 4096].bytes[va % 4096]]) else Fault
  }

  /** A user instruction stores a byte, or the process is killed. */
  function Store(m: Image, va: int, b: Byte): (r: (Image, Got))
    requires 0 <= va
    ensures r.0.sz == m.sz && |r.0.pages| == |m.pages|
  {
    if Allowed(m, va, true) then (Stored(m, va, [b]), Got([])) else (m, Fault)
  }

  // ----- the image of an address space

  ghost function Seen(mem: seq<Page>, flat: map<Key, int>, root: int, page: int): (v: View) {
    var k := Key(root, page);
    if k in flat && 0 <= Frame(flat[k]) < |mem| then View(Flags(flat[k]), mem[Frame(flat[k])]) else Untouched()
  }

  ghost function ImageOf(mem: seq<Page>, flat: map<Key, int>, root: int, sz: int): (m: Image)
    requires 0 <= sz
    ensures |m.pages| == Pages(sz) && m.sz == sz
  {
    Image(sz, seq(Pages(sz), p => Seen(mem, flat, root, p)))
  }

  /** User pages lie below the size, and nothing above is for the user. */
  ghost predicate SpaceOk(owner: seq<Use>, flat: map<Key, int>, root: int, sz: int) {
    && IsRoot(owner, root) && 0 <= sz <= TOP * 4096
    && (forall k :: k in flat && k.root == root ==> if k.page < TOP then k.page < Pages(sz) else !User(flat[k]))
  }

  /** Filling in an untouched page of any address space is invisible. */
  lemma FillUnseen(mem0: seq<Page>, owner0: seq<Use>, flat0: map<Key, int>, home0: map<Loc, int>, mem: seq<Page>,
                   owner: seq<Use>, flat: map<Key, int>,
                   root: int, page: int, f: int, r: int, sz: int)
    requires SpacesOk(mem0, owner0, flat0, home0, {}) && Took(mem0, owner0, mem, owner, root)
             && Key(root, page) !in flat0
    requires 0 <= f < |mem| && mem[f] == Filled(0) && flat == flat0[Key(root, page) := Pte(f, HEAP)]
             && 0 <= sz <= TOP * 4096
    ensures ImageOf(mem, flat, r, sz) == ImageOf(mem0, flat0, r, sz)
  {
    PteParts(f, HEAP);
    forall p | 0 <= p < Pages(sz) ensures Seen(mem, flat, r, p) == Seen(mem0, flat0, r, p) {
      if Key(r, p) in flat0 {
        MappedAt(owner0, flat0, Key(r, p));
      }
    }
  }

  /** Taking pages for tables is invisible. */
  lemma TookUnseen(mem0: seq<Page>, owner0: seq<Use>, flat: map<Key, int>, home0: map<Loc, int>, mem: seq<Page>,
                   owner: seq<Use>, root: int, r: int, sz: int)
    requires SpacesOk(mem0, owner0, flat, home0, {}) && Took(mem0, owner0, mem, owner, root) && 0 <= sz <= TOP * 4096
    ensures ImageOf(mem, flat, r, sz) == ImageOf(mem0, flat, r, sz)
  {
    forall p | 0 <= p < Pages(sz) ensures Seen(mem, flat, r, p) == Seen(mem0, flat, r, p) {
      MappedAt(owner0, flat, Key(r, p));
    }
  }

  /** Storing into a mapped page changes just that page of just that address space. */
  lemma StoreSeen(mem: seq<Page>, owner: seq<Use>, flat: map<Key, int>, home: map<Loc, int>, root: int, va: int,
                  bytes: seq<Byte>, sz: int)
    requires SpacesOk(mem, owner, flat, home, {}) && 0 <= sz <= TOP * 4096 && 0 <= va / 4096 < Pages(sz) && 0 <= va
             && va % 4096 + |bytes| <= 4096
    requires Key(root, va / 4096) in flat
    ensures var f := Frame(flat[Key(root, va / 4096)]);
            && 0 < f < |mem| && owner[f] == Mapped(root, va / 4096)
            && ImageOf(mem[f := Overlay(mem[f], va % 4096, bytes)], flat, root, sz)
               == Stored(ImageOf(mem, flat, root, sz), va, bytes)
  {
    MappedAt(owner, flat, Key(root, va / 4096));
    var f := Frame(flat[Key(root, va / 4096)]);
    var mem' := mem[f := Overlay(mem[f], va % 4096, bytes)];
    forall p | 0 <= p < Pages(sz) && p != va / 4096 ensures Seen(mem', flat, root, p) == Seen(mem, flat, root, p) {
      MappedAt(owner, flat, Key(root, p));
    }
  }

  /** Eager growth looks like lazy growth. */
  lemma GrowthSeen(mem0: seq<Page>, owner0: seq<Use>, flat0: map<Key, int>, home0: map<Loc, int>, mem: seq<Page>,
                   owner: seq<Use>, flat: map<Key, int>,
                   root: int, sz: int, n: int)
    requires SpacesOk(mem0, owner0, flat0, home0, {}) && SpaceOk(owner0, flat0, root, sz) && 0 <= n
             && sz + n <= TOP * 4096
    requires (flat == flat0 && mem == mem0)
             || Filling(mem0, owner0, flat0, mem, owner, flat, root, Pages(sz), Pages(sz + n) - Pages(sz), HEAP)
    ensures ImageOf(mem, flat, root, sz + n) == Sbrk(ImageOf(mem0, flat0, root, sz), n).0
  {
    forall p | 0 <= p < Pages(sz + n)
      ensures Seen(mem, flat, root, p) == if p < Pages(sz) then Seen(mem0, flat0, root, p) else Untouched()
    {
      MappedAt(owner0, flat0, Key(root, p));
      assert p < Pages(sz) ==> Key(root, p) !in Range(root, Pages(sz), Pages(sz + n) - Pages(sz));
    }
  }

  lemma ShrinkSeen(mem0: seq<Page>, owner0: seq<Use>, flat0: map<Key, int>, home0: map<Loc, int>, list0: seq<int>,
                   mem: seq<Page>, owner: seq<Use>, list: seq<int>,
                   flat: map<Key, int>, root: int, sz: int, n: int)
    requires SpacesOk(mem0, owner0, flat0, home0, {}) && 0 <= sz <= TOP * 4096 && n < 0 <= sz + n
    requires Released(mem0, owner0, list0, mem, owner, list, root, Pages(sz + n), Pages(sz) - Pages(sz + n), true)
    requires flat == flat0 - Range(root, Pages(sz + n), Pages(sz) - Pages(sz + n))
    ensures ImageOf(mem, flat, root, sz + n) == Sbrk(ImageOf(mem0, flat0, root, sz), n).0
  {
    hide SpacesOk, Released, Range, Seen;
    forall p | 0 <= p < Pages(sz + n) ensures Seen(mem, flat, root, p) == Seen(mem0, flat0, root, p) {
      KeptPage(mem0, owner0, flat0, home0, list0, mem, owner, list, root, Pages(sz + n), Pages(sz) - Pages(sz + n), p);
    }
  }

  /** A page below those released. */
  lemma KeptPage(mem0: seq<Page>, owner0: seq<Use>, flat0: map<Key, int>, home0: map<Loc, int>, list0: seq<int>,
                 mem: seq<Page>, owner: seq<Use>, list: seq<int>, root: int, page: int, n: int, p: int)
    requires SpacesOk(mem0, owner0, flat0, home0, {}) && 0 <= p < page <= TOP
    requires Released(mem0, owner0, list0, mem, owner, list, root, page, n, true)
    ensures Seen(mem, flat0 - Range(root, page, n), root, p) == Seen(mem0, flat0, root, p)
  {
    hide Frame, Flags;
    MappedAt(owner0, flat0, Key(root, p));
    assert Key(root, p) !in Range(root, page, n);
  }

  /** A forked child sees what its parent sees. */
  lemma CopySeen(mem0: seq<Page>, owner0: seq<Use>, flat0: map<Key, int>, home0: map<Loc, int>, mem: seq<Page>,
                 owner: seq<Use>, flat: map<Key, int>,
                 src: int, dst: int, sz: int)
    requires SpacesOk(mem0, owner0, flat0, home0, {}) && 0 <= sz <= TOP * 4096
             && Copied(mem0, owner0, flat0, mem, owner, flat, src, dst, Pages(sz))
    requires src != dst && forall k :: k in flat0 ==> k.root != dst
    ensures ImageOf(mem, flat, dst, sz) == ImageOf(mem0, flat0, src, sz)
    ensures ImageOf(mem, flat, src, sz) == ImageOf(mem0, flat0, src, sz)
  {
    forall p | 0 <= p < Pages(sz)
      ensures Seen(mem, flat, dst, p) == Seen(mem0, flat0, src, p)
              && Seen(mem, flat, src, p) == Seen(mem0, flat0, src, p) {
      MappedAt(owner0, flat0, Key(src, p));
    }
  }

  lemma FillKeepsSpace(owner0: seq<Use>, flat0: map<Key, int>, mem0: seq<Page>, mem: seq<Page>, owner: seq<Use>,
                       flat: map<Key, int>,
                       root: int, sz: int, va: int, f: int)
    requires SpaceOk(owner0, flat0, root, sz) && Took(mem0, owner0, mem, owner, root) && 0 <= va < sz
    requires flat == flat0[Key(root, va / 4096) := Pte(f, HEAP)]
    ensures SpaceOk(owner, flat, root, sz) && 0 <= va / 4096 < Pages(sz) && va / 4096 < TOP
    ensures Frame(flat[Key(root, va / 4096)]) == f && User(flat[Key(root, va / 4096)])
  {
    PteParts(f, HEAP);
    assert User(HEAP);
  }

  lemma TookKeepsSpace(owner0: seq<Use>, flat: map<Key, int>, mem0: seq<Page>, mem: seq<Page>, owner: seq<Use>, r: int,
                       root: int, sz: int)
    requires SpaceOk(owner0, flat, root, sz) && Took(mem0, owner0, mem, owner, r)
    ensures SpaceOk(owner, flat, root, sz)
  {
  }

  lemma BelowSize(va: int, sz: int)
    requires 0 <= va < sz <= TOP * 4096
    ensures 0 <= va / 4096 < TOP && va / 4096 < Pages(sz)
    ensures var a := va / 4096 * 4096; 0 <= a < MAXPAGE * 4096 && a / 4096 == va / 4096 && a % 4096 == 0
  {
  }

  lemma SpaceParts(owner: seq<Use>, flat: map<Key, int>, root: int, sz: int)
    requires SpaceOk(owner, flat, root, sz)
    ensures IsRoot(owner, root) && 0 <= sz <= TOP * 4096
  {
  }

  /** A page that the kernel finds mapped for the user is one that the user may touch. */
  lemma PresentSeen(mem: seq<Page>, owner: seq<Use>, flat: map<Key, int>, home: map<Loc, int>, root: int, sz: int,
                    page: int)
    requires SpacesOk(mem, owner, flat, home, {}) && SpaceOk(owner, flat, root, sz)
    ensures Key(root, page) in flat && 0 <= page < Pages(sz) ==>
              && var e := flat[Key(root, page)];
              && 0 < Frame(e) < |mem| && owner[Frame(e)] == Mapped(root, page)
              && ImageOf(mem, flat, root, sz).pages[page] == View(Flags(e), mem[Frame(e)])
              && (User(e) <==> User(Flags(e))) && (Writable(e) <==> Writable(Flags(e)))
              && (Readable(e) <==> Readable(Flags(e)))
    ensures Key(root, page) !in flat && 0 <= page < Pages(sz) ==>
              ImageOf(mem, flat, root, sz).pages[page] == Untouched()
  {
    if Key(root, page) in flat && 0 <= page < Pages(sz) {
      MappedAt(owner, flat, Key(root, page));
      FlagBits(flat[Key(root, page)]);
    }
  }

  // ----- the loops of copyin and copyout

  /** copyin so far: what is still to come, put after what has been copied. */
  function After(got: seq<Byte>, rest: Got): (r: Got) {
    if rest.Got? then Got(got + rest.bytes) else Fault
  }

  lemma CopyinStep(m: Image, va: int, len: int, got: seq<Byte>)
    requires 0 <= va && 0 < len && Reachable(m, va / 4096)
    ensures var n := Piece(va, len);
            After(got, Copyin(m, va, len)) == After(got + m.pages[va / 4096].bytes[va % 4096..va % 4096 + n],
                                                    Copyin(m, (va / 4096 + 1) * 4096, len - n))
  {
    var n := Piece(va, len);
    var rest := Copyin(m, (va / 4096 + 1) * 4096, len - n);
    if rest.Got? {
      var piece := m.pages[va / 4096].bytes[va % 4096..va % 4096 + n];
      assert got + (piece + rest.bytes) == got + piece + rest.bytes;
    }
  }

  lemma AfterNothing(rest: Got)
    ensures After([], rest) == rest
  {
    assert rest.Got? ==> [] + rest.bytes == rest.bytes;
  }

  lemma CopyinFault(m: Image, va: int, len: int, got: seq<Byte>)
    requires 0 <= va && 0 < len
    ensures !Reachable(m, va / 4096) ==> After(got, Copyin(m, va, len)) == Fault
  {
  }

  lemma CopyinDone(m: Image, va: int, got: seq<Byte>)
    requires 0 <= va
    ensures After(got, Copyin(m, va, 0)) == Got(got)
  {
  }

  /** copyout has stored the first `k` bytes, and no more. */
  ghost predicate PartlyOut(m: Image, va: int, src: seq<Byte>, k: int, m': Image)
    requires 0 <= va
  {
    0 <= k < |src| && Copyout(m, va, src[..k]) == (m', 0)
  }

  /** copyout changes bytes, not what may be accessed. */
  lemma {:induction false} SameAccess(m: Image, va: int, src: seq<Byte>, page: int)
    requires 0 <= va
    ensures var m1 := Copyout(m, va, src).0;
            Reachable(m1, page) == Reachable(m, page)
                && (Reachable(m, page) ==> m1.pages[page].flags == m.pages[page].flags)
    decreases |src|
  {
    if src != [] && Reachable(m, va / 4096) && Writable(m.pages[va / 4096].flags) {
      var n := Piece(va, |src|);
      SameAccess(Stored(m, va, src[..n]), (va / 4096 + 1) * 4096, src[n..], page);
    }
  }

  lemma WholePiece(va: int, k: int, n: int)
    requires 0 <= va && 0 < k && 0 <= n && (va + k) % 4096 == 0
    ensures Piece(va, k) == Piece(va, k + n) && (va / 4096 + 1) * 4096 == va + Piece(va, k)
  {
  }

  lemma StoredAccess(m: Image, va: int, bytes: seq<Byte>, page: int)
    requires 0 <= va / 4096 < |m.pages| && 0 <= va && va % 4096 + |bytes| <= 4096 && Reachable(m, page)
    ensures Reachable(Stored(m, va, bytes), page) && Stored(m, va, bytes).pages[page].flags == m.pages[page].flags
  {
  }

  lemma CopyoutPage(m: Image, va: int, src: seq<Byte>)
    requires 0 <= va && src != [] && Reachable(m, va / 4096) && Writable(m.pages[va / 4096].flags)
    ensures var n := Piece(va, |src|);
            Copyout(m, va, src) == Copyout(Stored(m, va, src[..n]), (va / 4096 + 1) * 4096, src[n..])
  {
    hide Stored, Writable, Reachable, Piece;
  }

  lemma CopyoutFirst(m: Image, va: int, src: seq<Byte>)
    requires 0 <= va && src != [] && Copyout(m, va, src).1 == 0
    ensures Reachable(m, va / 4096) && Writable(m.pages[va / 4096].flags)
  {
    hide Stored, Writable, Reachable, Piece;
  }

  lemma CopyoutNothing(m: Image, va: int)
    requires 0 <= va
    ensures Copyout(m, va, []) == (m, 0)
  {
  }

  /** One more page after whole pages. */
  lemma {:induction false} CopyoutMore(m: Image, va: int, src: seq<Byte>, k: int, n: int)
    requires 0 <= va && 0 <= k < |src| && (k == 0 || (va + k) % 4096 == 0) && n == Piece(va + k, |src| - k)
    requires Copyout(m, va, src[..k]).1 == 0
    requires Reachable(m, (va + k) / 4096) && Writable(m.pages[(va + k) / 4096].flags)
    ensures var m1 := Copyout(m, va, src[..k]).0;
            Reachable(m1, (va + k) / 4096) && Copyout(m, va, src[..k + n]) == (Stored(m1, va + k, src[k..k + n]), 0)
    decreases k
  {
    hide Stored, Writable, User, Copyout;
    if k == 0 {
      CopyoutNothing(m, va);
      CopyoutPage(m, va, src[..n]);
      assert src[..n][..n] == src[..n] == src[0..n] && src[..n][n..] == [];
      CopyoutNothing(Stored(m, va, src[..n]), (va / 4096 + 1) * 4096);
    } else {
      var p := Piece(va, k);
      WholePiece(va, k, n);
      CopyoutFirst(m, va, src[..k]);
      CopyoutPage(m, va, src[..k]);
      CopyoutPage(m, va, src[..k + n]);
      assert src[..k][..p] == src[..p] == src[..k + n][..p];
      assert src[..k][p..] == src[p..][..k - p] && src[..k + n][p..] == src[p..][..k - p + n];
      StoredAccess(m, va, src[..p], (va + k) / 4096);
      CopyoutMore(Stored(m, va, src[..p]), va + p, src[p..], k - p, n);
      assert src[p..][k - p..k - p + n] == src[k..k + n];
    }
  }

  /** copyout's loop: `k` bytes are out, the rest is to be stored at `va`. */
  ghost predicate CopyingOut(m0: Image, dstva: int, src: seq<Byte>, k: int, m: Image, va: int)
    requires 0 <= dstva && 0 <= va
  {
    && 0 <= k <= |src| && Copyout(m0, dstva, src[..k]) == (m, 0)
    && Copyout(m, va, src[k..]) == Copyout(m0, dstva, src)
    && (k < |src| ==> va == dstva + k && (k == 0 || va % 4096 == 0))
  }

  lemma CopyoutStart(m0: Image, dstva: int, src: seq<Byte>)
    requires 0 <= dstva
    ensures CopyingOut(m0, dstva, src, 0, m0, dstva)
  {
    assert src[0..] == src;
  }

  lemma CopyoutTurn(m0: Image, dstva: int, src: seq<Byte>, k: int, m: Image, va: int)
    requires 0 <= dstva && 0 <= va && CopyingOut(m0, dstva, src, k, m, va) && k < |src|
    requires Reachable(m, va / 4096) && Writable(m.pages[va / 4096].flags)
    ensures var n := Piece(va, |src| - k);
            CopyingOut(m0, dstva, src, k + n, Stored(m, va, src[k..k + n]), (va / 4096 + 1) * 4096)
  {
    hide Stored, Writable, Reachable, Copyout;
    var n := Piece(va, |src| - k);
    SameAccess(m0, dstva, src[..k], va / 4096);
    CopyoutMore(m0, dstva, src, k, n);
    CopyoutPage(m, va, src[k..]);
    assert src[k..][..n] == src[k..k + n] && src[k..][n..] == src[k + n..];
  }

  /** The page may not be written, or memory ran out. */
  lemma CopyoutStops(m0: Image, dstva: int, src: seq<Byte>, k: int, m: Image, va: int)
    requires 0 <= dstva && 0 <= va && CopyingOut(m0, dstva, src, k, m, va) && k < |src|
    ensures PartlyOut(m0, dstva, src, k, m)
    ensures !Reachable(m, va / 4096) || !Writable(m.pages[va / 4096].flags) ==> (m, -1) == Copyout(m0, dstva, src)
  {
  }

  /** A user page without W: V and U with R, with X, or with both. */
  predicate ReadOnly(flags: int) {
    flags == 1 + 16 + 2 || flags == 1 + 16 + 8 || flags == 1 + 16 + 2 + 8
  }

  /** copyout refuses such a page, and stores nothing if it is the first. */
  lemma ReadOnlyRefuses(m: Image, va: int, src: seq<Byte>)
    requires 0 <= va && src != [] && va / 4096 < |m.pages| && ReadOnly(m.pages[va / 4096].flags)
    ensures Copyout(m, va, src) == (m, -1) && forall k, m' :: PartlyOut(m, va, src, k, m') ==> m' == m
  {
    forall k, m' | PartlyOut(m, va, src, k, m') ensures m' == m {
      if k > 0 {
        assert src[..k] != [];
      }
    }
  }

  lemma CopyoutDone(m0: Image, dstva: int, src: seq<Byte>, m: Image, va: int)
    requires 0 <= dstva && 0 <= va && CopyingOut(m0, dstva, src, |src|, m, va)
    ensures (m, 0) == Copyout(m0, dstva, src)
  {
    assert src[..|src|] == src;
  }

  lemma MappedIsEntry(mem: seq<Page>, owner: seq<Use>, flat: map<Key, int>, home: map<Loc, int>, k: Key)
    requires SpacesOk(mem, owner, flat, home, {}) && k in flat
    ensures flat[k] != 0
  {
  }

  // ----- the space keeps its shape

  lemma UnmappedAbove(owner: seq<Use>, flat: map<Key, int>, root: int, sz: int, n: int)
    requires SpaceOk(owner, flat, root, sz) && sz + n <= TOP * 4096
    ensures forall k :: k in Range(root, Pages(sz), Pages(sz + n) - Pages(sz)) ==> k !in flat
  {
  }

  lemma FilledSpace(mem0: seq<Page>, owner0: seq<Use>, flat0: map<Key, int>, mem: seq<Page>, owner: seq<Use>,
                    flat: map<Key, int>, root: int, sz: int, n: int)
    requires SpaceOk(owner0, flat0, root, sz) && 0 <= n && sz + n <= TOP * 4096
    requires Filling(mem0, owner0, flat0, mem, owner, flat, root, Pages(sz), Pages(sz + n) - Pages(sz), HEAP)
    ensures SpaceOk(owner, flat, root, sz + n)
  {
  }

  lemma ShrunkSpace(mem0: seq<Page>, owner0: seq<Use>, list0: seq<int>, flat0: map<Key, int>, mem: seq<Page>,
                    owner: seq<Use>, list: seq<int>,
                    flat: map<Key, int>, root: int, sz: int, n: int)
    requires SpaceOk(owner0, flat0, root, sz) && n < 0 <= sz + n
    requires Released(mem0, owner0, list0, mem, owner, list, root, Pages(sz + n), Pages(sz) - Pages(sz + n), true)
    requires flat == flat0 - Range(root, Pages(sz + n), Pages(sz) - Pages(sz + n))
    ensures SpaceOk(owner, flat, root, sz + n)
  {
    forall k | k in flat && k.root == root && k.page < TOP ensures k.page < Pages(sz + n) {
      assert k == Key(root, k.page) && k !in Range(root, Pages(sz + n), Pages(sz) - Pages(sz + n));
    }
  }

  lemma NothingReleased(mem0: seq<Page>, owner0: seq<Use>, list0: seq<int>, flat0: map<Key, int>, home0: map<Loc, int>,
                        mem: seq<Page>, owner: seq<Use>, list: seq<int>, flat: map<Key, int>, root: int, sz: int,
                        page: int, n: int)
    requires SpacesOk(mem0, owner0, flat0, home0, {}) && SpaceOk(owner0, flat0, root, sz) && n <= 0
    requires Released(mem0, owner0, list0, mem, owner, list, root, page, n, true)
             && flat == flat0 - Range(root, page, n)
    ensures SpaceOk(owner, flat, root, sz) && ImageOf(mem, flat, root, sz) == ImageOf(mem0, flat0, root, sz)
  {
    RangeEmpty(flat0, root, page, n);
    forall p | 0 <= p < Pages(sz) ensures Seen(mem, flat, root, p) == Seen(mem0, flat0, root, p) {
      MappedAt(owner0, flat0, Key(root, p));
    }
  }

  lemma GrownSpace(owner: seq<Use>, flat: map<Key, int>, root: int, sz: int, n: int)
    requires SpaceOk(owner, flat, root, sz) && 0 <= n && sz + n <= TOP * 4096
    ensures SpaceOk(owner, flat, root, sz + n)
  {
  }

  lemma CopiedSpaces(mem0: seq<Page>, owner0: seq<Use>, flat0: map<Key, int>, mem: seq<Page>, owner: seq<Use>,
                     flat: map<Key, int>, src: int, dst: int, sz: int)
    requires SpaceOk(owner0, flat0, src, sz) && IsRoot(owner0, dst) && src != dst && forall k ::
               k in flat0 ==> k.root != dst
    requires Copied(mem0, owner0, flat0, mem, owner, flat, src, dst, Pages(sz))
    ensures SpaceOk(owner, flat, src, sz) && SpaceOk(owner, flat, dst, sz)
  {
  }

  /** No page is in use for an address space whose root is still free. */
  lemma NoneBelong(mem: seq<Page>, owner: seq<Use>, flat: map<Key, int>, home: map<Loc, int>, root: int)
    requires SpacesOk(mem, owner, flat, home, {}) && 0 <= root < |owner| && owner[root].Free?
    ensures forall f :: 0 <= f < |owner| ==> !Belongs(owner[f], root)
  {
    forall f | 0 <= f < |owner| ensures !Belongs(owner[f], root) {
      if owner[f].Table? {
        TableHasRoot(mem, owner, flat, home, f);
      } else if owner[f].Mapped? {
        var k := Key(owner[f].root, owner[f].page);
        assert k in flat && Block(k) in home;
        TableHasRoot(mem, owner, flat, home, home[Block(k)]);
      }
    }
  }

  lemma TableHasRoot(mem: seq<Page>, owner: seq<Use>, flat: map<Key, int>, home: map<Loc, int>, t: int)
    requires SpacesOk(mem, owner, flat, home, {}) && 0 <= t < |owner| && owner[t].Table?
    ensures 0 <= owner[t].root < |owner| && owner[owner[t].root].Table?
    decreases 2 - owner[t].level
  {
    assert PlaceOk(mem, owner, home, {}, t);
    if owner[t].level < 2 {
      TableHasRoot(mem, owner, flat, home, owner[t].parent);
    }
  }

  /** A space that was begun and taken apart again leaves the same pages free and the same image. */
  lemma UndoneSpace(mem0: seq<Page>, owner0: seq<Use>, flat: map<Key, int>, home0: map<Loc, int>, mem1: seq<Page>,
                    owner1: seq<Use>,
                    mem2: seq<Page>, owner2: seq<Use>, mem3: seq<Page>, owner3: seq<Use>, child: int, root: int,
                    sz: int)
    requires SpacesOk(mem0, owner0, flat, home0, {}) && 0 <= child < |owner0| && owner0[child].Free?
             && 0 <= sz <= TOP * 4096
    requires Took(mem0, owner0, mem1, owner1, child) && Took(mem1, owner1, mem2, owner2, child)
             && SpaceFreed(mem2, owner2, mem3, owner3, child)
    ensures SameFree(owner0, owner3) && ImageOf(mem3, flat, root, sz) == ImageOf(mem0, flat, root, sz)
  {
    hide SpacesOk;
    NoneBelong(mem0, owner0, flat, home0, child);
    forall f | 0 <= f < |owner0|
      ensures owner0[f].Free? <==> owner3[f].Free?
      ensures owner0[f].Mapped? ==> mem3[f] == mem0[f]
    {
      assert !Belongs(owner0[f], child);
    }
    forall p | 0 <= p < Pages(sz) ensures Seen(mem3, flat, root, p) == Seen(mem0, flat, root, p) {
      if Key(root, p) in flat {
        MappedAtKey(mem0, owner0, flat, home0, Key(root, p));
      }
    }
  }

  ghost predicate SameFree(owner: seq<Use>, owner': seq<Use>) {
    |owner'| == |owner| && forall f :: 0 <= f < |owner| ==> (owner[f].Free? <==> owner'[f].Free?)
  }

  lemma AllSameFree(owner: seq<Use>)
    ensures SameFree(owner, owner)
  {
  }

  lemma FreedSpace(mem0: seq<Page>, owner0: seq<Use>, flat0: map<Key, int>, mem: seq<Page>, owner: seq<Use>,
                   flat: map<Key, int>, root: int, dst: int, sz: int)
    requires SpaceOk(owner0, flat0, root, sz) && owner0[root].root == root != dst
             && SpaceFreed(mem0, owner0, mem, owner, dst)
    requires flat == map k | k in flat0 && k.root != dst :: flat0[k]
    ensures SpaceOk(owner, flat, root, sz)
  {
  }

  // ----- runs

  datatype Call =
    | SbrkCall(n: int)
    | LoadCall(va: int)
    | StoreCall(va: int, b: Byte)
    | ReadCall(va: int, len: int)             // a system call that copies in
    | WriteCall(va: int, bytes: seq<Byte>)    // a system call that copies out
    | ForkCall(child: bool)                   // go on as the child, or as the parent

  datatype Observed = Number(n: int) | Data(got: Got)

  /** Calls with arguments in range; user accesses below the size. */
  predicate InScope(sz: int, c: Call) {
    match c
    case SbrkCall(n) => -0x8000_0000 <= n < 0x8000_0000
    case LoadCall(va) => 0 <= va < sz
    case StoreCall(va, _) => 0 <= va < sz
    case ReadCall(va, len) => 0 <= va && 0 <= len
    case WriteCall(va, _) => 0 <= va
    case ForkCall(_) => true
  }

  predicate WellFormed(m: Image) {
    0 <= m.sz && |m.pages| == Pages(m.sz)
  }

  function Behave(m: Image, c: Call): (r: (Image, Observed))
    requires WellFormed(m) && InScope(m.sz, c)
    ensures WellFormed(r.0)
  {
    match c
    case SbrkCall(n) => var (m', addr) := Sbrk(m, n); (m', Number(addr))
    case LoadCall(va) => (m, Data(Load(m, va)))
    case StoreCall(va, b) => var (m', got) := Store(m, va, b); (m', Data(got))
    case ReadCall(va, len) => (m, Data(Copyin(m, va, len)))
    case WriteCall(va, bytes) => var (m', r) := Copyout(m, va, bytes); (m', Number(r))
    case ForkCall(_) => (m, Number(0))
  }

  /** What a call does that fails because memory has run out. Only copyout can leave a trace: the bytes up
      to the page that could not be had. */
  ghost predicate Failed(m: Image, c: Call, m': Image, o: Observed)
    requires InScope(m.sz, c)
  {
    match c
    case SbrkCall(n) => n > 0 && m' == m && o == Number(-1)
    case LoadCall(_) => m' == m && o == Data(Fault)
    case StoreCall(_, _) => m' == m && o == Data(Fault)
    case ReadCall(_, _) => m' == m && o == Data(Fault)
    case WriteCall(va, bytes) => o == Number(-1) && exists k :: PartlyOut(m, va, bytes, k, m')
    case ForkCall(_) => m' == m && o == Number(-1)
  }

  /** Enough free pages for a call: three for each page that it may have to map, one of them for the page and the
      others for tables; and one for the root of a new address space. */
  ghost function Need(flat: map<Key, int>, root: int, sz: int, c: Call): (n: int) {
    match c
    case SbrkCall(n) => if n > 0 then 3 * (Pages(sz + n) - Pages(sz)) else 0
    case LoadCall(_) => 3
    case StoreCall(_, _) => 3
    case ReadCall(va, len) => 3 * Touches(va, len)
    case WriteCall(va, bytes) => 3 * Touches(va, |bytes|)
    case ForkCall(_) => 1 + 3 * MappedBelow(flat, root, Pages(sz))
  }

  /** One call, which may fail for want of memory only if memory has run out. */
  ghost predicate Step(m: Image, c: Call, m': Image, o: Observed, starved: bool)
    requires WellFormed(m) && InScope(m.sz, c)
  {
    WellFormed(m') && ((m', o) == Behave(m, c) || (starved && Failed(m, c, m', o)))
  }

  ghost predicate Lives(m: Image, calls: seq<Call>, obs: seq<Observed>, starved: bool)
    requires WellFormed(m)
    decreases |calls|
  {
    if calls == [] || !InScope(m.sz, calls[0]) then obs == []
    else if obs == [] then false
    else if Killed(calls[0], obs[0]) then |obs| == 1 && exists m' :: Step(m, calls[0], m', obs[0], starved)
    else exists m' :: Step(m, calls[0], m', obs[0], starved) && Lives(m', calls[1..], obs[1..], starved)
  }

  /** While memory lasts there is one way to go on. */
  lemma {:induction false} FedLives(m: Image, calls: seq<Call>, obs: seq<Observed>)
    requires WellFormed(m) && Lives(m, calls, obs, false)
    ensures obs == Observations(m, calls)
    decreases |calls|
  {
    if calls != [] && InScope(m.sz, calls[0]) {
      var (m1, o) := Behave(m, calls[0]);
      if Killed(calls[0], obs[0]) {
        assert obs == [obs[0]];
      } else {
        FedLives(m1, calls[1..], obs[1..]);
        assert obs == [obs[0]] + obs[1..];
      }
    }
  }

  /** What a process observes over a run, up to a fatal fault. */
  function Observations(m: Image, calls: seq<Call>): (r: seq<Observed>)
    requires WellFormed(m)
    decreases |calls|
  {
    if calls == [] || !InScope(m.sz, calls[0]) then [] else
      var (m', o) := Behave(m, calls[0]);
      if Killed(calls[0], o) then [o] else [o] + Observations(m', calls[1..])
  }

  predicate Killed(c: Call, o: Observed) {
    (c.LoadCall? || c.StoreCall?) && o == Data(Fault)
  }

  /** Pages at the top of the address space are not for the user. */
  lemma NotAbove(owner: seq<Use>, flat: map<Key, int>, root: int, sz: int, page: int)
    requires SpaceOk(owner, flat, root, sz) && 0 <= page
    ensures Key(root, page) in flat && User(flat[Key(root, page)]) ==> page < Pages(sz)
  {
  }
}
