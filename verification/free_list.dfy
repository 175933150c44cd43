/** user/umalloc.c: the Kernighan and Ritchie allocator. Addresses count header-sized units, so
    pointer arithmetic on headers is plain addition. */
module FreeList {
  type Addr = int

  // ----- the free list as a value: `base` (size 0, below the heap) and then `fs`, by address

  function Node(base: Addr, fs: seq<Addr>, i: int): (a: Addr) {
    if 1 <= i <= |fs| then fs[i - 1] else base
  }

  /** Following `ptr` from base visits fs in order and returns to base. */
  ghost predicate Linked(base: Addr, fs: seq<Addr>, ptr: map<Addr, Addr>) {
    && base in ptr && ptr[base] == Node(base, fs, 1)
    && (forall i {:trigger fs[i] in ptr} {:trigger ptr[fs[i]]} ::
        0 <= i < |fs| ==> fs[i] in ptr && ptr[fs[i]] == Node(base, fs, i + 2))
  }

  /** Free blocks lie above base in address order, and no two touch. */
  ghost predicate Ordered(base: Addr, fs: seq<Addr>, size: map<Addr, int>) {
    && (forall i :: 0 <= i < |fs| ==> base < fs[i] && fs[i] in size && size[fs[i]] > 0)
    && (forall i, j :: 0 <= i < j < |fs| ==> fs[i] + size[fs[i]] < fs[j])
  }

  /** The units of block `b` are exactly those that `owner` gives to it. */
  ghost predicate Owns(size: map<Addr, int>, owner: map<Addr, Addr>, b: Addr) {
    && b in size && size[b] > 0
    && (forall u :: b <= u < b + size[b] ==> u in owner && owner[u] == b)
  }

  /** Every obtained unit belongs to exactly one block, which is either free or live. */
  ghost predicate Tiled(free: set<Addr>, live: set<Addr>, size: map<Addr, int>, owner: map<Addr, Addr>) {
    && free !! live
    && (forall b :: b in free || b in live ==> Owns(size, owner, b))
    && (forall u :: u in owner ==> (owner[u] in free || owner[u] in live) && owner[u] <= u < owner[u] + size[owner[u]])
  }

  ghost function Elems(fs: seq<Addr>): (r: set<Addr>) {
    set x | x in fs
  }

  /** Free list `fs` with the blocks from `lo` up to `hi` replaced by `nb`. */
  function Splice(fs: seq<Addr>, lo: nat, hi: nat, nb: Addr): (r: seq<Addr>)
    requires lo <= hi <= |fs|
  {
    fs[..lo] + [nb] + fs[hi..]
  }

  lemma SpliceAt(fs: seq<Addr>, lo: nat, hi: nat, nb: Addr)
    requires lo <= hi <= |fs|
    ensures |Splice(fs, lo, hi, nb)| == |fs| - (hi - lo) + 1
    ensures forall i {:trigger Splice(fs, lo, hi, nb)[i]} :: 0 <= i < |fs| - (hi - lo) + 1 ==>
              Splice(fs, lo, hi, nb)[i] == if i < lo then fs[i] else if i == lo then nb else fs[i - 1 + (hi - lo)]
  {
  }

  lemma SpliceOrdered(base: Addr, fs: seq<Addr>, size: map<Addr, int>, lo: nat, hi: nat, nb: Addr, ns: int)
    requires Ordered(base, fs, size) && lo <= hi <= |fs| && base < nb && ns > 0
    requires forall i :: 0 <= i < lo ==> fs[i] + size[fs[i]] < nb
    requires forall i :: hi <= i < |fs| ==> nb + ns < fs[i]
    ensures Ordered(base, Splice(fs, lo, hi, nb), size[nb := ns])
  {
    hide Splice;
    SpliceAt(fs, lo, hi, nb);
    var r, size' := Splice(fs, lo, hi, nb), size[nb := ns];
    forall i | 0 <= i < |r| ensures base < r[i] && r[i] in size' && size'[r[i]] == if i == lo then ns else size[r[i]] {
      SpliceItem(base, fs, size, lo, hi, nb, ns, i);
    }
    forall i, j | 0 <= i < j < |r| ensures r[i] + size'[r[i]] < r[j] {
      assert i != lo && j != lo ==> r[i] + size[r[i]] < r[j];
    }
  }

  lemma SpliceItem(base: Addr, fs: seq<Addr>, size: map<Addr, int>, lo: nat, hi: nat, nb: Addr, ns: int, i: nat)
    requires Ordered(base, fs, size) && lo <= hi <= |fs| && base < nb && ns > 0 && i < |fs| - (hi - lo) + 1
    requires forall i :: 0 <= i < lo ==> fs[i] + size[fs[i]] < nb
    requires forall i :: hi <= i < |fs| ==> nb + ns < fs[i]
    ensures var x := if i < lo then fs[i] else if i == lo then nb else fs[i - 1 + (hi - lo)];
            base < x && x in size[nb := ns] && (i != lo ==> x in size && x != nb)
  {
  }

  lemma SpliceLinkBelow(base: Addr, fs: seq<Addr>, ptr: map<Addr, Addr>, lo: nat, hi: nat, nb: Addr, r: seq<Addr>,
                        i: nat)
    requires Linked(base, fs, ptr) && lo <= hi <= |fs| && r == Splice(fs, lo, hi, nb) && i < lo
    requires fs[i] != base && (forall j :: 0 <= j < lo ==> fs[j] < nb) && (i < lo - 1 ==> fs[i] < fs[lo - 1])
    ensures var p := ptr[nb := Node(base, fs, hi + 1)][Node(base, fs, lo) := nb];
            r[i] in p && p[r[i]] == Node(base, r, i + 2)
  {
    SpliceAt(fs, lo, hi, nb);
    assert r[i] == fs[i] && ptr[fs[i]] == Node(base, fs, i + 2);
    assert i + 1 < lo ==> r[i + 1] == fs[i + 1];
  }

  lemma SpliceLinkAbove(base: Addr, fs: seq<Addr>, ptr: map<Addr, Addr>, lo: nat, hi: nat, nb: Addr, r: seq<Addr>,
                        i: nat, k: nat)
    requires Linked(base, fs, ptr) && lo <= hi <= |fs| && r == Splice(fs, lo, hi, nb) && lo < i < |r|
             && k == i - 1 + (hi - lo)
    requires fs[k] != base && nb < fs[k] && (lo > 0 ==> fs[lo - 1] < fs[k])
    ensures var p := ptr[nb := Node(base, fs, hi + 1)][Node(base, fs, lo) := nb];
            r[i] in p && p[r[i]] == Node(base, r, i + 2)
  {
    SpliceAt(fs, lo, hi, nb);
    assert r[i] == fs[k] && ptr[fs[k]] == Node(base, fs, k + 2);
    assert i + 1 < |r| ==> r[i + 1] == fs[k + 1];
  }

  lemma SpliceLinkAt(base: Addr, fs: seq<Addr>, size: map<Addr, int>, ptr: map<Addr, Addr>, lo: nat, hi: nat, nb: Addr,
                     r: seq<Addr>, i: nat)
    requires Ordered(base, fs, size) && Linked(base, fs, ptr) && lo <= hi <= |fs| && base < nb
             && r == Splice(fs, lo, hi, nb) && i < |r|
    requires forall j :: 0 <= j < lo ==> fs[j] < nb
    requires forall j :: hi <= j < |fs| ==> nb < fs[j]
    ensures var p := ptr[nb := Node(base, fs, hi + 1)][Node(base, fs, lo) := nb];
            r[i] in p && p[r[i]] == Node(base, r, i + 2)
  {
    hide Linked, Splice;
    SpliceAt(fs, lo, hi, nb);
    if i < lo {
      assert i < lo - 1 ==> fs[i] < fs[lo - 1];
      SpliceLinkBelow(base, fs, ptr, lo, hi, nb, r, i);
    } else if i > lo {
      var k := i - 1 + (hi - lo);
      SpliceLinkAbove(base, fs, ptr, lo, hi, nb, r, i, k);
    } else {
      assert r[i] == nb && (i + 1 < |r| ==> r[i + 1] == fs[hi]);
    }
  }

  lemma SpliceLinkHead(base: Addr, fs: seq<Addr>, ptr: map<Addr, Addr>, lo: nat, hi: nat, nb: Addr, r: seq<Addr>)
    requires Linked(base, fs, ptr) && lo <= hi <= |fs| && base < nb && r == Splice(fs, lo, hi, nb)
    requires forall j :: 0 <= j < lo ==> base < fs[j]
    ensures var p := ptr[nb := Node(base, fs, hi + 1)][Node(base, fs, lo) := nb];
            base in p && p[base] == Node(base, r, 1)
  {
    assert lo > 0 ==> r[0] == fs[0];
    assert lo == 0 ==> r[0] == nb;
  }

  lemma SpliceLinked(base: Addr, fs: seq<Addr>, size: map<Addr, int>, ptr: map<Addr, Addr>, lo: nat, hi: nat, nb: Addr)
    requires Ordered(base, fs, size) && Linked(base, fs, ptr) && lo <= hi <= |fs| && base < nb
    requires forall i :: 0 <= i < lo ==> fs[i] < nb
    requires forall i :: hi <= i < |fs| ==> nb < fs[i]
    ensures Linked(base, Splice(fs, lo, hi, nb), ptr[nb := Node(base, fs, hi + 1)][Node(base, fs, lo) := nb])
  {
    var r := Splice(fs, lo, hi, nb);
    var p := ptr[nb := Node(base, fs, hi + 1)][Node(base, fs, lo) := nb];
    SpliceLinkHead(base, fs, ptr, lo, hi, nb, r);
    hide Splice, Ordered, Node;
    forall i {:trigger p[r[i]]} {:trigger r[i] in p} | 0 <= i < |r|
      ensures r[i] in p && p[r[i]] == Node(base, r, i + 2) {
      SpliceLinkAt(base, fs, size, ptr, lo, hi, nb, r, i);
    }
  }

  function Reown(owner: map<Addr, Addr>, nb: Addr, ns: int): (r: map<Addr, Addr>) {
    map u | u in owner :: if nb <= u < nb + ns then nb else owner[u]
  }

  /** A block that is not merged keeps its units. */
  lemma MergedOther(size: map<Addr, int>, owner: map<Addr, Addr>, gone: set<Addr>, bp: Addr, nb: Addr, ns: int, x: Addr)
    requires Owns(size, owner, x) && x != bp && x !in gone && (nb == bp || nb in gone)
    requires forall u :: nb <= u < nb + ns ==> u in owner && (owner[u] == bp || owner[u] in gone)
    ensures Owns(size[nb := ns], Reown(owner, nb, ns), x)
  {
    var owner' := Reown(owner, nb, ns);
    forall u | x <= u < x + size[x] ensures u in owner' && owner'[u] == x {
      assert u in owner && owner[u] == x;
    }
  }

  lemma MergedNew(size: map<Addr, int>, owner: map<Addr, Addr>, nb: Addr, ns: int)
    requires ns > 0 && forall u :: nb <= u < nb + ns ==> u in owner
    ensures Owns(size[nb := ns], Reown(owner, nb, ns), nb)
  {
  }

  /** A unit outside the merged block belongs to the block it belonged to, which was not merged. */
  lemma MergedUnit(free: set<Addr>, live: set<Addr>, size: map<Addr, int>, owner: map<Addr, Addr>,
                   gone: set<Addr>, bp: Addr, nb: Addr, ns: int, u: Addr)
    requires Tiled(free, live, size, owner) && bp in size && (forall b :: b in gone ==> b in size) && u in owner
             && (nb == bp || nb in gone)
    requires forall b :: b == bp || b in gone ==> nb <= b && b + size[b] <= nb + ns
    ensures var size', owner' := size[nb := ns], Reown(owner, nb, ns);
            && (owner'[u] in free - gone + {nb} || owner'[u] in live - {bp})
            && owner'[u] in size' && owner'[u] <= u < owner'[u] + size'[owner'[u]]
  {
    var x := owner[u];
    assert (x in free || x in live) && Owns(size, owner, x) && x <= u < x + size[x];
  }

  /** The live block `bp` and the free blocks `gone` fill [nb, nb + ns) between them; one free block
      takes their place. */
  lemma MergeTiled(free: set<Addr>, live: set<Addr>, size: map<Addr, int>, owner: map<Addr, Addr>,
                   gone: set<Addr>, bp: Addr, nb: Addr, ns: int)
    requires Tiled(free, live, size, owner) && gone <= free && bp in live && ns > 0
    requires nb == bp || nb in gone
    requires forall u :: nb <= u < nb + ns ==> u in owner && (owner[u] == bp || owner[u] in gone)
    requires forall b :: b == bp || b in gone ==> nb <= b && b + size[b] <= nb + ns
    ensures Tiled(free - gone + {nb}, live - {bp}, size[nb := ns], Reown(owner, nb, ns))
  {
    hide Owns, Reown;
    var size', owner' := size[nb := ns], Reown(owner, nb, ns);
    MergedNew(size, owner, nb, ns);
    forall b | (b in free && b !in gone) || (b in live && b != bp) ensures b != nb && Owns(size', owner', b) {
      assert Owns(size, owner, b);
      MergedOther(size, owner, gone, bp, nb, ns, b);
    }
    ReownKeys(owner, nb, ns);
    forall u | u in owner'
      ensures (owner'[u] in free - gone + {nb} || owner'[u] in live - {bp}) && owner'[u] in size'
              && owner'[u] <= u < owner'[u] + size'[owner'[u]]
    {
      forall b | b == bp || b in gone ensures b in size {
        OwnsSize(size, owner, b);
      }
      MergedUnit(free, live, size, owner, gone, bp, nb, ns, u);
    }
  }

  lemma OwnsSize(size: map<Addr, int>, owner: map<Addr, Addr>, b: Addr)
    requires Owns(size, owner, b)
    ensures b in size && size[b] > 0
  {
  }

  /** Taking all of the free block `b` makes it live. */
  lemma TakeAllTiled(free: set<Addr>, live: set<Addr>, size: map<Addr, int>, owner: map<Addr, Addr>, b: Addr)
    requires Tiled(free, live, size, owner) && b in free
    ensures b in size && b !in live && Tiled(free - {b}, live + {b}, size, Reown(owner, b, size[b]))
  {
    assert Owns(size, owner, b);
    assert Reown(owner, b, size[b]) == owner;
  }

  lemma TailOwns(size: map<Addr, int>, owner: map<Addr, Addr>, b: Addr, n: nat, x: Addr)
    requires Owns(size, owner, b) && 0 < n < size[b]
    ensures var p := b + size[b] - n; var size', owner' := size[b := size[b] - n][p := n], Reown(owner, p, n);
            Owns(size', owner', b) && Owns(size', owner', p) && owner[p] == b
                && (Owns(size, owner, x) && x != b ==> x != p && Owns(size', owner', x))
  {
    var p := b + size[b] - n;
    assert owner[p] == b;
    if Owns(size, owner, x) && x != b {
      assert owner[x] == x;
    }
  }

  lemma TailUnit(free: set<Addr>, live: set<Addr>, size: map<Addr, int>, owner: map<Addr, Addr>, b: Addr, n: nat,
                 u: Addr)
    requires Tiled(free, live, size, owner) && b in free && b in size && 0 < n < size[b] && u in owner
             && Owns(size, owner, b)
    ensures var p := b + size[b] - n; var size', owner' := size[b := size[b] - n][p := n], Reown(owner, p, n);
            (owner'[u] in free || owner'[u] in live + {p}) && owner'[u] in size'
                && owner'[u] <= u < owner'[u] + size'[owner'[u]]
  {
    var p := b + size[b] - n;
    assert owner[u] in free || owner[u] in live;
    assert Owns(size, owner, owner[u]);
    TailOwns(size, owner, b, n, owner[u]);
    if p <= u < p + n {
      assert owner[u] == b;
    }
  }

  /** Taking the last `n` units of the free block `b` makes them a live block. */
  lemma TakeTiled(free: set<Addr>, live: set<Addr>, size: map<Addr, int>, owner: map<Addr, Addr>, b: Addr, n: nat)
    requires Tiled(free, live, size, owner) && b in free && b in size && 0 < n < size[b]
    ensures var p := b + size[b] - n;
            p !in live && p !in free && Tiled(free, live + {p}, size[b := size[b] - n][p := n], Reown(owner, p, n))
  {
    hide Owns, Reown;
    var p := b + size[b] - n;
    var size', owner' := size[b := size[b] - n][p := n], Reown(owner, p, n);
    assert Owns(size, owner, b);
    TailOwns(size, owner, b, n, b);
    ReownKeys(owner, p, n);
    forall x | x in free || x in live ensures x != p && Owns(size', owner', x) {
      assert Owns(size, owner, x);
      TailOwns(size, owner, b, n, x);
    }
    forall u | u in owner'
      ensures (owner'[u] in free || owner'[u] in live + {p}) && owner'[u] in size'
              && owner'[u] <= u < owner'[u] + size'[owner'[u]]
    {
      TailUnit(free, live, size, owner, b, n, u);
    }
  }

  lemma ReownKeys(owner: map<Addr, Addr>, p: Addr, n: int)
    ensures forall u :: u in Reown(owner, p, n) <==> u in owner
  {
  }

  /** `owner` extended by the block [p, p + n). */
  function Grant(owner: map<Addr, Addr>, p: Addr, n: nat): (r: map<Addr, Addr>)
    ensures forall u :: u in r <==> u in owner || p <= u < p + n
    ensures forall u :: u in r ==> r[u] == if p <= u < p + n then p else owner[u]
  {
    if n == 0 then owner else Grant(owner, p, n - 1)[p + n - 1 := p]
  }

  /** Some free block has at least n units. */
  ghost predicate HasRoom(fs: seq<Addr>, size: map<Addr, int>, n: int) {
    exists b :: b in fs && b in size && size[b] >= n
  }

  /** No units were obtained from sbrk, or the granted ones were. */
  ghost predicate Obtained(owner: map<Addr, Addr>, owner': map<Addr, Addr>, grant: Addr, nunits: int) {
    owner'.Keys == owner.Keys
        || (grant != 0 && owner'.Keys == Grant(owner, grant, if nunits < 4096 then 4096 else nunits).Keys)
  }

  /** Fresh units make a new live block. */
  lemma ExtendTiled(free: set<Addr>, live: set<Addr>, size: map<Addr, int>, owner: map<Addr, Addr>, p: Addr, n: nat)
    requires Tiled(free, live, size, owner) && n > 0 && forall u :: u in owner ==> u < p
    ensures p !in free && p !in live
    ensures Tiled(free, live + {p}, size[p := n], Grant(owner, p, n))
  {
    var size', owner' := size[p := n], Grant(owner, p, n);
    forall b | b in free || b in live ensures b != p && Owns(size', owner', b) {
      assert Owns(size, owner, b);
      assert owner[b] == b;
      forall u | b <= u < b + size[b] ensures u in owner' && owner'[u] == b {
        assert u in owner;
      }
    }
  }

  // ----- where a block belongs in the list

  /** The number of free blocks below `bp`. */
  function Below(fs: seq<Addr>, bp: Addr): (t: nat)
    ensures t <= |fs|
  {
    if fs == [] then 0 else if fs[|fs| - 1] < bp then |fs| else Below(fs[..|fs| - 1], bp)
  }

  lemma {:induction false} BelowSplits(base: Addr, fs: seq<Addr>, size: map<Addr, int>, bp: Addr)
    requires Ordered(base, fs, size) && bp !in fs
    ensures forall i :: 0 <= i < Below(fs, bp) ==> fs[i] < bp
    ensures forall i :: Below(fs, bp) <= i < |fs| ==> bp < fs[i]
  {
    if fs != [] && !(fs[|fs| - 1] < bp) {
      BelowSplits(base, fs[..|fs| - 1], size, bp);
    }
  }

  /** A block that shares no unit with the free blocks starts and ends between two of them. */
  lemma FitsBetween(base: Addr, fs: seq<Addr>, live: set<Addr>, size: map<Addr, int>, owner: map<Addr, Addr>, bp: Addr)
    requires Ordered(base, fs, size) && Tiled(Elems(fs), live, size, owner) && bp in live
    ensures bp !in fs
    ensures forall i :: 0 <= i < Below(fs, bp) ==> fs[i] + size[fs[i]] <= bp
    ensures forall i :: Below(fs, bp) <= i < |fs| ==> bp + size[bp] <= fs[i]
  {
    assert Owns(size, owner, bp);
    assert forall i :: 0 <= i < |fs| ==> fs[i] in Elems(fs) && Owns(size, owner, fs[i]);
    BelowSplits(base, fs, size, bp);
    forall i | 0 <= i < Below(fs, bp) ensures fs[i] + size[fs[i]] <= bp {
      assert owner[bp] == bp;
    }
    forall i | Below(fs, bp) <= i < |fs| ensures bp + size[bp] <= fs[i] {
      assert owner[fs[i]] == fs[i];
    }
  }

  // ----- freeing a block, case by case at once: it may touch the next free block, the previous, or both

  predicate Up(base: Addr, fs: seq<Addr>, size: map<Addr, int>, bp: Addr)
    requires bp in size
  {
    var t := Below(fs, bp);
    t < |fs| && bp + size[bp] == fs[t]
  }

  predicate Down(base: Addr, fs: seq<Addr>, size: map<Addr, int>, bp: Addr)
    requires forall i :: 0 <= i < |fs| ==> fs[i] in size
  {
    var t := Below(fs, bp);
    t > 0 && fs[t - 1] + size[fs[t - 1]] == bp
  }

  /** The blocks of `fs` from lo up to hi and the freed block become one block of ns units at nb. */
  datatype Merged = Merged(lo: nat, hi: nat, nb: Addr, ns: int)

  function Merge(base: Addr, fs: seq<Addr>, size: map<Addr, int>, bp: Addr): (m: Merged)
    requires bp in size && forall i :: 0 <= i < |fs| ==> fs[i] in size
    ensures m.lo <= m.hi <= |fs|
  {
    var t := Below(fs, bp);
    var up, down := Up(base, fs, size, bp), Down(base, fs, size, bp);
    Merged(if down then t - 1 else t,
           if up then t + 1 else t,
           if down then fs[t - 1] else bp,
           size[bp] + (if up then size[fs[t]] else 0) + (if down then size[fs[t - 1]] else 0))
  }

  ghost predicate Freeable(base: Addr, fs: seq<Addr>, live: set<Addr>, size: map<Addr, int>, owner: map<Addr, Addr>,
                           bp: Addr) {
    && Ordered(base, fs, size) && Tiled(Elems(fs), live, size, owner) && bp in live && base < bp && bp in size
  }

  lemma MergeOrdered(base: Addr, fs: seq<Addr>, live: set<Addr>, size: map<Addr, int>, owner: map<Addr, Addr>, bp: Addr)
    requires Freeable(base, fs, live, size, owner, bp)
    ensures var m := Merge(base, fs, size, bp); Ordered(base, Splice(fs, m.lo, m.hi, m.nb), size[m.nb := m.ns])
  {
    var m := Merge(base, fs, size, bp);
    FitsBetween(base, fs, live, size, owner, bp);
    assert Owns(size, owner, bp);
    SpliceOrdered(base, fs, size, m.lo, m.hi, m.nb, m.ns);
  }

  lemma MergeLinked(base: Addr, fs: seq<Addr>, live: set<Addr>, size: map<Addr, int>, owner: map<Addr, Addr>, bp: Addr,
                    ptr: map<Addr, Addr>)
    requires Freeable(base, fs, live, size, owner, bp) && Linked(base, fs, ptr)
    ensures var m := Merge(base, fs, size, bp);
            Linked(base, Splice(fs, m.lo, m.hi, m.nb),
                   ptr[m.nb := Node(base, fs, m.hi + 1)][Node(base, fs, m.lo) := m.nb])
  {
    var m := Merge(base, fs, size, bp);
    FitsBetween(base, fs, live, size, owner, bp);
    assert Owns(size, owner, bp);
    SpliceLinked(base, fs, size, ptr, m.lo, m.hi, m.nb);
  }

  lemma SpliceElems(base: Addr, fs: seq<Addr>, size: map<Addr, int>, lo: nat, hi: nat, nb: Addr)
    requires Ordered(base, fs, size) && lo <= hi <= |fs|
    ensures Elems(Splice(fs, lo, hi, nb)) == Elems(fs) - Elems(fs[lo..hi]) + {nb}
  {
    assert fs == fs[..lo] + fs[lo..hi] + fs[hi..];
  }

  /** The free neighbours that the freed block touches. */
  ghost function Touched(base: Addr, fs: seq<Addr>, size: map<Addr, int>, bp: Addr): (r: set<Addr>)
    requires bp in size && forall i :: 0 <= i < |fs| ==> fs[i] in size
  {
    var t := Below(fs, bp);
    (if Down(base, fs, size, bp) then {fs[t - 1]} else {}) + (if Up(base, fs, size, bp) then {fs[t]} else {})
  }

  lemma TouchedIsSpliced(base: Addr, fs: seq<Addr>, size: map<Addr, int>, bp: Addr)
    requires bp in size && forall i :: 0 <= i < |fs| ==> fs[i] in size
    ensures var m := Merge(base, fs, size, bp); Elems(fs[m.lo..m.hi]) == Touched(base, fs, size, bp)
  {
    var m := Merge(base, fs, size, bp);
    var t := Below(fs, bp);
    var part := fs[m.lo..m.hi];
    assert part == (if m.lo < t then [fs[t - 1]] else []) + (if t < m.hi then [fs[t]] else []);
  }

  lemma MergeUnits(base: Addr, fs: seq<Addr>, live: set<Addr>, size: map<Addr, int>, owner: map<Addr, Addr>, bp: Addr)
    requires Freeable(base, fs, live, size, owner, bp)
    ensures var m := Merge(base, fs, size, bp);
            Tiled(Elems(fs) - Touched(base, fs, size, bp) + {m.nb}, live - {bp}, size[m.nb := m.ns],
                  Reown(owner, m.nb, m.ns))
  {
    var m := Merge(base, fs, size, bp);
    var t := Below(fs, bp);
    FitsBetween(base, fs, live, size, owner, bp);
    assert Owns(size, owner, bp);
    assert t > 0 ==> fs[t - 1] in Elems(fs) && Owns(size, owner, fs[t - 1]);
    assert t < |fs| ==> fs[t] in Elems(fs) && Owns(size, owner, fs[t]);
    MergeTiled(Elems(fs), live, size, owner, Touched(base, fs, size, bp), bp, m.nb, m.ns);
  }

  /** Headers of blocks that are neither free nor live do not matter. */
  lemma OtherHeaders(base: Addr, fs: seq<Addr>, live: set<Addr>, size: map<Addr, int>, size': map<Addr, int>,
                     owner: map<Addr, Addr>)
    requires Ordered(base, fs, size) && Tiled(Elems(fs), live, size, owner)
    requires forall b :: b in fs || b in live ==> b in size && b in size' && size'[b] == size[b]
    ensures Ordered(base, fs, size') && Tiled(Elems(fs), live, size', owner)
  {
    forall b | b in Elems(fs) || b in live ensures Owns(size', owner, b) {
      assert Owns(size, owner, b);
    }
  }

  lemma OtherLinks(base: Addr, fs: seq<Addr>, ptr: map<Addr, Addr>, ptr': map<Addr, Addr>)
    requires Linked(base, fs, ptr)
    requires base in ptr && base in ptr' && ptr'[base] == ptr[base]
    requires forall i :: 0 <= i < |fs| ==> fs[i] in ptr && fs[i] in ptr' && ptr'[fs[i]] == ptr[fs[i]]
    ensures Linked(base, fs, ptr')
  {
  }

  // The header fields after free's two tests: `q` is the free block that follows `p`.

  function UpSize(size: map<Addr, int>, q: Addr, bp: Addr): (r: map<Addr, int>)
    requires bp in size && q in size
  {
    if bp + size[bp] == q then size[bp := size[bp] + size[q]] else size
  }

  function UpPtr(ptr: map<Addr, Addr>, size: map<Addr, int>, q: Addr, bp: Addr): (r: map<Addr, Addr>)
    requires bp in size && q in ptr
  {
    ptr[bp := if bp + size[bp] == q then ptr[q] else q]
  }

  function DownSize(size: map<Addr, int>, p: Addr, bp: Addr): (r: map<Addr, int>)
    requires bp in size && p in size
  {
    if p + size[p] == bp then size[p := size[p] + size[bp]] else size
  }

  function DownPtr(ptr: map<Addr, Addr>, size: map<Addr, int>, p: Addr, bp: Addr): (r: map<Addr, Addr>)
    requires p in size && bp in ptr
  {
    ptr[p := if p + size[p] == bp then ptr[bp] else bp]
  }

  ghost predicate Linkable(base: Addr, fs: seq<Addr>, live: set<Addr>, size: map<Addr, int>, owner: map<Addr, Addr>,
                           ptr: map<Addr, Addr>, bp: Addr, p: Addr, q: Addr) {
    && Freeable(base, fs, live, size, owner, bp) && Linked(base, fs, ptr) && base in size && size[base] == 0
    && p == Node(base, fs, Below(fs, bp)) && q == Node(base, fs, Below(fs, bp) + 1)
    && p in size && q in size && q in ptr && p != bp
  }

  lemma SizesMerge(base: Addr, fs: seq<Addr>, live: set<Addr>, size: map<Addr, int>, owner: map<Addr, Addr>,
                   ptr: map<Addr, Addr>, bp: Addr, p: Addr, q: Addr)
    requires Linkable(base, fs, live, size, owner, ptr, bp, p, q)
    ensures var m := Merge(base, fs, size, bp);
            var size' := DownSize(UpSize(size, q, bp), p, bp);
            && m.nb in size' && size'[m.nb] == m.ns
            && (forall b :: b in size && b != bp && b != m.nb ==> b in size' && size'[b] == size[b])
            && (bp + size[bp] == q <==> Up(base, fs, size, bp)) && (p + size[p] == bp <==> Down(base, fs, size, bp))
  {
    FitsBetween(base, fs, live, size, owner, bp);
    assert Owns(size, owner, bp);
  }

  /** The links after free's two tests. */
  lemma LinksShape(base: Addr, fs: seq<Addr>, live: set<Addr>, size: map<Addr, int>, owner: map<Addr, Addr>,
                   ptr: map<Addr, Addr>, bp: Addr, p: Addr, q: Addr)
    requires Linkable(base, fs, live, size, owner, ptr, bp, p, q)
    ensures var m := Merge(base, fs, size, bp); var after := Node(base, fs, m.hi + 1);
            && DownPtr(UpPtr(ptr, size, q, bp), UpSize(size, q, bp), p, bp)
               == ptr[bp := after][p := if Down(base, fs, size, bp) then after else bp]
            && (if Down(base, fs, size, bp) then p == m.nb == Node(base, fs, m.lo + 1) && m.lo < |fs|
                else m.nb == bp && p == Node(base, fs, m.lo))
  {
    hide Tiled, Owns, Below, Elems;
    SizesMerge(base, fs, live, size, owner, ptr, bp, p, q);
    var m := Merge(base, fs, size, bp);
    assert UpPtr(ptr, size, q, bp)[bp] == Node(base, fs, m.hi + 1);
  }

  lemma LinkBefore(base: Addr, fs: seq<Addr>, size: map<Addr, int>, ptr: map<Addr, Addr>, k: nat)
    requires Ordered(base, fs, size) && Linked(base, fs, ptr) && k < |fs|
    ensures var a := Node(base, fs, k); a in ptr && ptr[a] == Node(base, fs, k + 1) == fs[k] && a < fs[k]
  {
  }

  /** free leaves every list member the link that splicing would give it. */
  lemma LinksAgree(base: Addr, fs: seq<Addr>, live: set<Addr>, size: map<Addr, int>, owner: map<Addr, Addr>,
                   ptr: map<Addr, Addr>, bp: Addr, p: Addr, q: Addr, b: Addr)
    requires Linkable(base, fs, live, size, owner, ptr, bp, p, q)
    requires var m := Merge(base, fs, size, bp); b == base || b == m.nb || (b in fs && b != bp)
    ensures var m := Merge(base, fs, size, bp);
            var spliced := ptr[m.nb := Node(base, fs, m.hi + 1)][Node(base, fs, m.lo) := m.nb];
            var ptr' := DownPtr(UpPtr(ptr, size, q, bp), UpSize(size, q, bp), p, bp);
            b in spliced && b in ptr' && ptr'[b] == spliced[b]
  {
    hide Tiled, Owns, Below, Elems, Merge, Up, Down, UpPtr, DownPtr, UpSize, Node;
    LinksShape(base, fs, live, size, owner, ptr, bp, p, q);
    NotInList(base, fs, live, size, owner, bp);
    var m := Merge(base, fs, size, bp);
    if m.lo < |fs| {
      LinkBefore(base, fs, size, ptr, m.lo);
    }
    NodeInList(base, fs, m.lo);
    assert b in fs ==> b in ptr;
  }

  lemma NotInList(base: Addr, fs: seq<Addr>, live: set<Addr>, size: map<Addr, int>, owner: map<Addr, Addr>, bp: Addr)
    requires Freeable(base, fs, live, size, owner, bp)
    ensures bp !in fs && bp != base
  {
    assert forall x :: x in fs ==> x in Elems(fs);
  }

  lemma NodeInList(base: Addr, fs: seq<Addr>, i: int)
    ensures Node(base, fs, i) == base || Node(base, fs, i) in fs
  {
  }

  lemma LinksMerge(base: Addr, fs: seq<Addr>, live: set<Addr>, size: map<Addr, int>, owner: map<Addr, Addr>,
                   ptr: map<Addr, Addr>, bp: Addr, p: Addr, q: Addr)
    requires Linkable(base, fs, live, size, owner, ptr, bp, p, q)
    ensures var m := Merge(base, fs, size, bp);
            Linked(base, Splice(fs, m.lo, m.hi, m.nb), DownPtr(UpPtr(ptr, size, q, bp), UpSize(size, q, bp), p, bp))
  {
    var m := Merge(base, fs, size, bp);
    var ptr' := DownPtr(UpPtr(ptr, size, q, bp), UpSize(size, q, bp), p, bp);
    FitsBetween(base, fs, live, size, owner, bp);
    MergeLinked(base, fs, live, size, owner, bp, ptr);
    var spliced := ptr[m.nb := Node(base, fs, m.hi + 1)][Node(base, fs, m.lo) := m.nb];
    hide Linkable, Freeable, Ordered, Tiled, Linked, Merge, UpSize, UpPtr, DownPtr, Below, Node;
    var r := Splice(fs, m.lo, m.hi, m.nb);
    LinksAgree(base, fs, live, size, owner, ptr, bp, p, q, base);
    forall i | 0 <= i < |r| ensures r[i] in spliced && r[i] in ptr' && ptr'[r[i]] == spliced[r[i]] {
      assert r[i] == m.nb || r[i] in fs;
      LinksAgree(base, fs, live, size, owner, ptr, bp, p, q, r[i]);
    }
    OtherLinks(base, r, spliced, ptr');
  }

  /** Blocks that stay keep their sizes. */
  lemma HeadersKept(base: Addr, fs: seq<Addr>, live: set<Addr>, size: map<Addr, int>, owner: map<Addr, Addr>,
                    ptr: map<Addr, Addr>, bp: Addr, p: Addr, q: Addr, b: Addr)
    requires Linkable(base, fs, live, size, owner, ptr, bp, p, q)
    requires var m := Merge(base, fs, size, bp); b in Splice(fs, m.lo, m.hi, m.nb) || (b in live && b != bp)
    ensures var m := Merge(base, fs, size, bp);
            var size' := DownSize(UpSize(size, q, bp), p, bp);
            b in size' && (b == m.nb || b in size) && size'[b] == if b == m.nb then m.ns else size[b]
  {
    hide Linked, Below;
    SizesMerge(base, fs, live, size, owner, ptr, bp, p, q);
    FitsBetween(base, fs, live, size, owner, bp);
    var m := Merge(base, fs, size, bp);
    if b in live {
      assert Owns(size, owner, b);
    } else {
      assert b == m.nb || b in fs;
      assert b in fs ==> b in Elems(fs);
    }
  }

  lemma TilesMerge(base: Addr, fs: seq<Addr>, live: set<Addr>, size: map<Addr, int>, owner: map<Addr, Addr>,
                   ptr: map<Addr, Addr>, bp: Addr, p: Addr, q: Addr)
    requires Linkable(base, fs, live, size, owner, ptr, bp, p, q)
    ensures var m := Merge(base, fs, size, bp);
            var fs' := Splice(fs, m.lo, m.hi, m.nb);
            var size' := DownSize(UpSize(size, q, bp), p, bp);
            && Ordered(base, fs', size')
            && Tiled(Elems(fs'), live - {bp}, size', Reown(owner, m.nb, m.ns))
  {
    var m := Merge(base, fs, size, bp);
    var fs' := Splice(fs, m.lo, m.hi, m.nb);
    var size' := DownSize(UpSize(size, q, bp), p, bp);
    MergeOrdered(base, fs, live, size, owner, bp);
    MergeUnits(base, fs, live, size, owner, bp);
    TouchedIsSpliced(base, fs, size, bp);
    SpliceElems(base, fs, size, m.lo, m.hi, m.nb);
    hide Linkable, Freeable, Linked, Merge, UpSize, DownSize, Below, Touched, Up, Down, Owns, Reown, Ordered, Tiled,
        Splice;
    forall b | b in fs' || b in live - {bp}
      ensures b in size[m.nb := m.ns] && b in size' && size'[b] == size[m.nb := m.ns][b] {
      HeadersKept(base, fs, live, size, owner, ptr, bp, p, q, b);
    }
    OtherHeaders(base, fs', live - {bp}, size[m.nb := m.ns], size', Reown(owner, m.nb, m.ns));
  }

  /** Two tilings with the same blocks in use agree on which units are free. */
  lemma SameUnitsInUse(free: set<Addr>, live: set<Addr>, size: map<Addr, int>, owner: map<Addr, Addr>,
                       free': set<Addr>, live': set<Addr>, size': map<Addr, int>, owner': map<Addr, Addr>, bp: Addr)
    requires Tiled(free, live, size, owner) && Tiled(free', live', size', owner')
    requires live' == live - {bp} && owner.Keys == owner'.Keys
    requires forall b :: b in live' ==> b in size && b in size' && size'[b] == size[b]
    ensures forall u :: u in owner ==> (owner'[u] in free' <==> owner[u] in free || owner[u] == bp)
  {
    forall u | u in owner ensures owner'[u] in free' <==> owner[u] in free || owner[u] == bp {
      if owner[u] in live' {
        assert Owns(size', owner', owner[u]);
      }
      if owner'[u] in live' {
        assert Owns(size, owner, owner'[u]);
      }
    }
  }

  /** The allocator's invariant on its variables; 0 is the null `freep` before the first malloc. */
  ghost predicate HeapOk(base: Addr, freep: Addr, ptr: map<Addr, Addr>, size: map<Addr, int>,
                         fs: seq<Addr>, live: set<Addr>, owner: map<Addr, Addr>) {
    && base > 0
    && Ordered(base, fs, size)
    && Tiled(Elems(fs), live, size, owner)
    && (forall u :: u in owner ==> base < u)
    && (if freep == 0 then fs == [] && live == {} && owner == map[]
        else Linked(base, fs, ptr) && base in size && size[base] == 0 && (freep == base || freep in fs))
  }

  /** free establishes the invariant again: the merged list, with the freed units now free. */
  lemma FreeKeeps(base: Addr, freep: Addr, ptr: map<Addr, Addr>, size: map<Addr, int>,
                  fs: seq<Addr>, live: set<Addr>, owner: map<Addr, Addr>, bp: Addr, p: Addr, q: Addr)
    requires HeapOk(base, freep, ptr, size, fs, live, owner) && bp in live
    requires Linkable(base, fs, live, size, owner, ptr, bp, p, q)
    ensures var m := Merge(base, fs, size, bp);
            var fs', owner' := Splice(fs, m.lo, m.hi, m.nb), Reown(owner, m.nb, m.ns);
            var size' := DownSize(UpSize(size, q, bp), p, bp);
            && HeapOk(base, p, DownPtr(UpPtr(ptr, size, q, bp), UpSize(size, q, bp), p, bp), size', fs', live - {bp},
                      owner')
            && owner'.Keys == owner.Keys
            && bp in owner' && owner'[bp] in fs' && owner'[bp] in size' && size'[owner'[bp]] >= size[bp]
            && (forall b :: b in live && b != bp ==> b in size && b in size' && size'[b] == size[b])
            && forall u :: u in owner ==> (owner'[u] in fs' <==> owner[u] in fs || owner[u] == bp)
  {
    var m := Merge(base, fs, size, bp);
    SizesMerge(base, fs, live, size, owner, ptr, bp, p, q);
    LinksMerge(base, fs, live, size, owner, ptr, bp, p, q);
    TilesMerge(base, fs, live, size, owner, ptr, bp, p, q);
    SpliceAt(fs, m.lo, m.hi, m.nb);
    FitsBetween(base, fs, live, size, owner, bp);
    assert Owns(size, owner, bp) && owner[bp] == bp;
    assert Splice(fs, m.lo, m.hi, m.nb)[m.lo] == m.nb;
    SameUnitsInUse(Elems(fs), live, size, owner, Elems(Splice(fs, m.lo, m.hi, m.nb)), live - {bp},
                   DownSize(UpSize(size, q, bp), p, bp), Reown(owner, m.nb, m.ns), bp);
  }

  // ----- taking a block

  function Removed(fs: seq<Addr>, k: nat): (r: seq<Addr>)
    requires k < |fs|
  {
    fs[..k] + fs[k + 1..]
  }

  lemma RemovedAt(fs: seq<Addr>, k: nat)
    requires k < |fs|
    ensures |Removed(fs, k)| == |fs| - 1
    ensures forall i {:trigger Removed(fs, k)[i]} ::
              0 <= i < |fs| - 1 ==> Removed(fs, k)[i] == fs[if i < k then i else i + 1]
    ensures Elems(fs) == Elems(Removed(fs, k)) + {fs[k]}
  {
    assert fs == fs[..k] + [fs[k]] + fs[k + 1..];
  }

  lemma RemovedOrdered(base: Addr, fs: seq<Addr>, size: map<Addr, int>, k: nat)
    requires Ordered(base, fs, size) && k < |fs|
    ensures Ordered(base, Removed(fs, k), size) && Elems(Removed(fs, k)) == Elems(fs) - {fs[k]}
  {
    RemovedAt(fs, k);
  }

  /** Unlinking free block `k` after its predecessor. */
  lemma RemovedLinked(base: Addr, fs: seq<Addr>, ptr: map<Addr, Addr>, size: map<Addr, int>, k: nat)
    requires Ordered(base, fs, size) && Linked(base, fs, ptr) && k < |fs|
    ensures Linked(base, Removed(fs, k), ptr[Node(base, fs, k) := ptr[fs[k]]])
  {
    hide Removed, Node;
    RemovedAt(fs, k);
    var r, ptr' := Removed(fs, k), ptr[Node(base, fs, k) := ptr[fs[k]]];
    RemovedHead(base, fs, ptr, size, k);
    forall i {:trigger ptr'[r[i]]} {:trigger r[i] in ptr'} | 0 <= i < |r|
      ensures r[i] in ptr' && ptr'[r[i]] == Node(base, r, i + 2) {
      RemovedLink(base, fs, ptr, size, k, i);
    }
  }

  lemma RemovedHead(base: Addr, fs: seq<Addr>, ptr: map<Addr, Addr>, size: map<Addr, int>, k: nat)
    requires Ordered(base, fs, size) && Linked(base, fs, ptr) && k < |fs|
    ensures var ptr' := ptr[Node(base, fs, k) := ptr[fs[k]]];
            base in ptr' && ptr'[base] == Node(base, Removed(fs, k), 1)
  {
    hide Removed;
    RemovedAt(fs, k);
  }

  lemma RemovedLink(base: Addr, fs: seq<Addr>, ptr: map<Addr, Addr>, size: map<Addr, int>, k: nat, i: nat)
    requires Ordered(base, fs, size) && Linked(base, fs, ptr) && k < |fs| && i < |fs| - 1
    ensures var r, ptr' := Removed(fs, k), ptr[Node(base, fs, k) := ptr[fs[k]]];
            |r| == |fs| - 1 && r[i] in ptr' && ptr'[r[i]] == Node(base, r, i + 2)
  {
    hide Removed;
    RemovedAt(fs, k);
    var j := if i < k then i else i + 1;
    assert Removed(fs, k)[i] == fs[j] && ptr[fs[j]] == Node(base, fs, j + 2);
    if k > 0 && i != k - 1 {
      assert fs[j] != fs[k - 1];
    }
  }

  lemma WholeTiled(base: Addr, fs: seq<Addr>, live: set<Addr>, size: map<Addr, int>, owner: map<Addr, Addr>, k: nat)
    requires Ordered(base, fs, size) && Tiled(Elems(fs), live, size, owner) && k < |fs|
    ensures fs[k] !in live
    ensures Tiled(Elems(Removed(fs, k)), live + {fs[k]}, size, Reown(owner, fs[k], size[fs[k]]))
  {
    assert fs[k] in Elems(fs);
    RemovedOrdered(base, fs, size, k);
    TakeAllTiled(Elems(fs), live, size, owner, fs[k]);
  }

  /** What sbrk grants is a block in use, until free gets it. */
  lemma GrantKeeps(base: Addr, freep: Addr, ptr: map<Addr, Addr>, size: map<Addr, int>,
                   fs: seq<Addr>, live: set<Addr>, owner: map<Addr, Addr>, p: Addr, n: nat)
    requires HeapOk(base, freep, ptr, size, fs, live, owner) && freep != 0 && n > 0 && p > base && forall u ::
               u in owner ==> u < p
    ensures p !in live && HeapOk(base, freep, ptr, size[p := n], fs, live + {p}, Grant(owner, p, n))
    ensures forall b :: b in live ==> b in size && b != p
  {
    ExtendTiled(Elems(fs), live, size, owner, p, n);
    LiveHaveSizes(fs, live, size, owner);
    assert forall i :: 0 <= i < |fs| ==> fs[i] in Elems(fs) && fs[i] != p;
  }

  /** A block of exactly the right size leaves the list. */
  lemma TakeWholeKeeps(base: Addr, freep: Addr, ptr: map<Addr, Addr>, size: map<Addr, int>,
                       fs: seq<Addr>, live: set<Addr>, owner: map<Addr, Addr>, k: nat)
    requires HeapOk(base, freep, ptr, size, fs, live, owner) && freep != 0 && k < |fs|
    ensures fs[k] in ptr && fs[k] !in live && Node(base, fs, k) != 0
    ensures HeapOk(base, Node(base, fs, k), ptr[Node(base, fs, k) := ptr[fs[k]]], size,
                   Removed(fs, k), live + {fs[k]}, Reown(owner, fs[k], size[fs[k]]))
    ensures Reown(owner, fs[k], size[fs[k]]).Keys == owner.Keys && forall x :: x in live ==> x in size
  {
    RemovedOrdered(base, fs, size, k);
    RemovedLinked(base, fs, ptr, size, k);
    WholeTiled(base, fs, live, size, owner, k);
    assert k > 0 ==> Removed(fs, k)[k - 1] == fs[k - 1];
  }

  /** A block that shrinks keeps the order. */
  lemma ShrinkOrdered(base: Addr, fs: seq<Addr>, size: map<Addr, int>, k: nat, n: int, p: Addr)
    requires Ordered(base, fs, size) && k < |fs| && 0 < n < size[fs[k]] && p !in fs
    ensures Ordered(base, fs, size[fs[k] := n][p := size[fs[k]] - n])
  {
  }

  /** A larger block gives up its tail end and stays where it is. */
  lemma TakeTailKeeps(base: Addr, freep: Addr, ptr: map<Addr, Addr>, size: map<Addr, int>,
                      fs: seq<Addr>, live: set<Addr>, owner: map<Addr, Addr>, k: nat, n: nat)
    requires HeapOk(base, freep, ptr, size, fs, live, owner) && freep != 0 && k < |fs| && 0 < n < size[fs[k]]
    ensures Node(base, fs, k) != 0
    ensures var p := fs[k] + size[fs[k]] - n;
            && p !in live
            && HeapOk(base, Node(base, fs, k), ptr, size[fs[k] := size[fs[k]] - n][p := n],
                      fs, live + {p}, Reown(owner, p, n))
            && Reown(owner, p, n).Keys == owner.Keys
            && forall x :: x in live ==> x in size && x != p && x != fs[k]
  {
    var p := fs[k] + size[fs[k]] - n;
    TailTiled(base, fs, live, size, owner, k, n);
    ShrinkOrdered(base, fs, size, k, size[fs[k]] - n, p);
  }

  lemma TailTiled(base: Addr, fs: seq<Addr>, live: set<Addr>, size: map<Addr, int>, owner: map<Addr, Addr>, k: nat,
                  n: nat)
    requires Ordered(base, fs, size) && Tiled(Elems(fs), live, size, owner) && k < |fs| && 0 < n < size[fs[k]]
    ensures var p := fs[k] + size[fs[k]] - n;
            && p !in live && p !in fs
            && Tiled(Elems(fs), live + {p}, size[fs[k] := size[fs[k]] - n][p := n], Reown(owner, p, n))
  {
    hide Tiled, Reown;
    assert fs[k] in Elems(fs);
    TakeTiled(Elems(fs), live, size, owner, fs[k], n);
    var p := fs[k] + size[fs[k]] - n;
    assert p in fs ==> p in Elems(fs);
  }

  lemma LiveAboveBase(base: Addr, freep: Addr, ptr: map<Addr, Addr>, size: map<Addr, int>,
                      fs: seq<Addr>, live: set<Addr>, owner: map<Addr, Addr>, x: Addr)
    requires HeapOk(base, freep, ptr, size, fs, live, owner) && x in live
    ensures x > base
  {
    assert Owns(size, owner, x) && owner[x] == x;
  }

  lemma SameRoom(fs: seq<Addr>, size: map<Addr, int>, size': map<Addr, int>, base: Addr, n: int)
    requires size' == size || (fs == [] && size' == size[base := 0])
    ensures HasRoom(fs, size', n) == HasRoom(fs, size, n)
  {
  }

  lemma LiveHaveSizes(fs: seq<Addr>, live: set<Addr>, size: map<Addr, int>, owner: map<Addr, Addr>)
    requires Tiled(Elems(fs), live, size, owner)
    ensures forall x :: x in live ==> x in size
  {
    forall x | x in live ensures x in size {
      assert Owns(size, owner, x);
    }
  }

  ghost function Position(base: Addr, fs: seq<Addr>, p: Addr): (i: nat)
    requires p == base || p in fs
    ensures i <= |fs| && Node(base, fs, i) == p
  {
    if p == base then 0 else
      var k :| 0 <= k < |fs| && fs[k] == p;
      k + 1
  }

  /** Header-sized units for a request, with one for the header itself. */
  function Units(nbytes: nat): (n: nat)
    ensures n >= 1 && (n - 1) * 16 >= nbytes > (n - 2) * 16
  {
    (nbytes + 16 - 1) / 16 + 1
  }

  class Heap {
    const base: Addr
    var freep: Addr
    var ptr: map<Addr, Addr>
    var size: map<Addr, int>
    ghost var fs: seq<Addr>         // the free blocks, by address
    ghost var live: set<Addr>       // headers of blocks handed out and not yet freed
    ghost var owner: map<Addr, Addr>

    /** Before the first call nothing has been obtained. */
    constructor (b: Addr)
      requires b > 0
      ensures Valid() && base == b && freep == 0 && owner == map[]
    {
      base, freep, ptr, size := b, 0, map[], map[];
      fs, live, owner := [], {}, map[];
    }

    ghost predicate Valid()
      reads this
    {
      HeapOk(base, freep, ptr, size, fs, live, owner)
    }

    /** free's search: the free block (or base) after which `bp` belongs. */
    method FindSlot(bp: Addr) returns (p: Addr)
      requires Valid() && freep != 0 && bp in live
      ensures p == Node(base, fs, Below(fs, bp))
    {
      ghost var t := Below(fs, bp);
      FitsBetween(base, fs, live, size, owner, bp);
      BelowSplits(base, fs, size, bp);
      assert owner[bp] == bp && base < bp;
      ghost var i := Position(base, fs, freep);
      p := freep;
      while !(bp > p && bp < ptr[p])
        invariant 0 <= i <= |fs| && p == Node(base, fs, i) && p in ptr
        decreases if i <= t then t - i else t - i + |fs| + 1
      {
        assert ptr[p] == Node(base, fs, i + 1);
        if p >= ptr[p] && (bp > p || bp < ptr[p]) {
          break;
        }
        p := ptr[p];
        i := if i == |fs| then 0 else i + 1;
      }
    }

    /** free: insert the block by address and merge it with the free neighbours it touches. */
    method Free(bp: Addr)
      requires Valid() && bp in live
      modifies this`freep, this`ptr, this`size, this`fs, this`live, this`owner
      ensures Valid() && live == old(live) - {bp} && owner.Keys == old(owner).Keys
      ensures forall b :: b in live ==> b in size && b in old(size) && size[b] == old(size)[b]
      ensures forall u :: u in owner ==> (owner[u] in fs <==> old(owner[u] in fs) || old(owner[u]) == bp)
      ensures freep == Node(base, old(fs), Below(old(fs), bp)) != 0
      ensures bp in owner && owner[bp] in fs && owner[bp] in size && size[owner[bp]] >= old(size)[bp]
    {
      var p := FindSlot(bp);
      assert Owns(size, owner, bp) && owner[bp] == bp;
      ghost var m := Merge(base, fs, size, bp);
      var q := ptr[p];
      FreeKeeps(base, freep, ptr, size, fs, live, owner, bp, p, q);
      UpdateHeaders(bp, p, q);
      hide HeapOk, Splice, Merge, Reown, Linkable;
      fs, live, owner := Splice(fs, m.lo, m.hi, m.nb), live - {bp}, Reown(owner, m.nb, m.ns);
    }

    /** free's two tests and the header assignments they choose. */
    method UpdateHeaders(bp: Addr, p: Addr, q: Addr)
      requires bp in size && p in size && q in size && q in ptr
      modifies this`freep, this`ptr, this`size
      ensures ptr == DownPtr(UpPtr(old(ptr), old(size), q, bp), UpSize(old(size), q, bp), p, bp)
      ensures size == DownSize(UpSize(old(size), q, bp), p, bp)
      ensures freep == p
    {
      if bp + size[bp] == q {
        ptr := ptr[bp := ptr[q]];
        size := size[bp := size[bp] + size[q]];
      } else {
        ptr := ptr[bp := q];
      }
      if p + size[p] == bp {
        ptr := ptr[p := ptr[bp]];
        size := size[p := size[p] + size[bp]];
      } else {
        ptr := ptr[p := bp];
      }
      freep := p;
    }

    /** morecore: at least 4096 units from sbrk, handed to free. `grant` is what sbrk returns, 0 for
        SBRK_ERROR; new memory lies above all memory obtained before. */
    method Morecore(nu: int, grant: Addr) returns (ok: bool)
      requires Valid() && freep != 0 && nu > 0
      requires grant == 0 || (grant > base && forall u :: u in owner ==> u < grant)
      modifies this`freep, this`ptr, this`size, this`fs, this`live, this`owner
      ensures Valid() && freep != 0 && live == old(live) && (ok <==> grant != 0)
      ensures !ok ==> owner == old(owner) && fs == old(fs) && size == old(size) && freep == old(freep)
      ensures ok ==> owner.Keys == Grant(old(owner), grant, if nu < 4096 then 4096 else nu).Keys
      ensures ok ==> HasRoom(fs, size, nu)
      ensures forall b :: b in live ==> b in size && b in old(size) && size[b] == old(size)[b]
    {
      var n := if nu < 4096 then 4096 else nu;
      if grant == 0 {
        return false;
      }
      GrantKeeps(base, freep, ptr, size, fs, live, owner, grant, n);
      hide HeapOk, Grant;
      size := size[grant := n];
      live, owner := live + {grant}, Grant(owner, grant, n);
      Free(grant);
      return true;
    }

    /** The end of malloc's loop, for a block of exactly the size asked for. */
    method CarveWhole(prevp: Addr, p: Addr, ghost k: int)
      requires Valid() && freep != 0 && 0 <= k < |fs| && p == fs[k] && prevp == Node(base, fs, k) && p in size
      modifies this`freep, this`ptr, this`fs, this`live, this`owner
      ensures Valid() && freep == prevp != 0 && p !in old(live) && live == old(live) + {p}
      ensures owner.Keys == old(owner).Keys && forall x :: x in old(live) ==> x in size
    {
      hide HeapOk, Reown, Removed;
      TakeWholeKeeps(base, freep, ptr, size, fs, live, owner, k);
      ptr := ptr[prevp := ptr[p]];
      freep := prevp;
      fs, live, owner := Removed(fs, k), live + {p}, Reown(owner, p, size[p]);
    }

    /** The end of malloc's loop, for a larger block: its tail end is handed out. */
    method CarveTail(prevp: Addr, b: Addr, nunits: int, ghost k: int) returns (p: Addr)
      requires Valid() && freep != 0 && 0 <= k < |fs| && b == fs[k] && prevp == Node(base, fs, k)
      requires b in size && 0 < nunits < size[b]
      modifies this`freep, this`size, this`live, this`owner
      ensures Valid() && freep == prevp != 0 && p !in old(live) && live == old(live) + {p}
              && p == b + old(size)[b] - nunits
      ensures owner.Keys == old(owner).Keys && size == old(size)[b := old(size)[b] - nunits][p := nunits]
      ensures forall x :: x in old(live) ==> x in old(size) && x != b && x != p
    {
      hide HeapOk, Reown;
      TakeTailKeeps(base, freep, ptr, size, fs, live, owner, k, nunits);
      size := size[b := size[b] - nunits];
      p := b + size[b];
      size := size[p := nunits];
      freep := prevp;
      live, owner := live + {p}, Reown(owner, p, nunits);
    }

    /** The end of malloc's loop. */
    method Carve(prevp: Addr, b: Addr, nunits: int, ghost k: int) returns (p: Addr)
      requires Valid() && freep != 0 && 0 <= k < |fs| && b == fs[k] && prevp == Node(base, fs, k)
      requires b in size && 0 < nunits <= size[b]
      modifies this`freep, this`ptr, this`size, this`fs, this`live, this`owner
      ensures Valid() && freep == prevp != 0 && p > base && p !in old(live) && live == old(live) + {p}
      ensures p == b + old(size)[b] - nunits && p in size && size[p] == nunits && owner.Keys == old(owner).Keys
      ensures forall x :: x in old(live) ==> x in size && x in old(size) && size[x] == old(size)[x]
    {
      LiveHaveSizes(fs, live, size, owner);
      hide HeapOk;
      if size[b] == nunits {
        CarveWhole(prevp, b, k);
        p := b;
      } else {
        p := CarveTail(prevp, b, nunits, k);
      }
      LiveAboveBase(base, freep, ptr, size, fs, live, owner, p);
    }

    /** malloc's loop. It asks sbrk at most once, because the lap after a successful morecore finds a
        block. */
    method Allocate(nunits: int, grant: Addr) returns (p: Addr)
      requires Valid() && freep != 0 && nunits > 0
      requires grant == 0 || (grant > base && forall u :: u in owner ==> u < grant)
      modifies this`freep, this`ptr, this`size, this`fs, this`live, this`owner
      ensures Valid() && freep != 0
      ensures p == 0 ==> live == old(live) && fs == old(fs) && owner == old(owner) && size == old(size)
      ensures p == 0 <==> grant == 0 && !HasRoom(old(fs), old(size), nunits)
      ensures p != 0 ==> p > base && p !in old(live) && live == old(live) + {p} && p in size && size[p] == nunits
      ensures forall x :: x in old(live) ==> x in size && x in old(size) && size[x] == old(size)[x]
      ensures Obtained(old(owner), owner, grant, nunits)
      ensures HasRoom(old(fs), old(size), nunits) ==>
                Served(old(ptr), old(size), old(freep), nunits, p, freep) && owner.Keys == old(owner).Keys
    {
      LiveHaveSizes(fs, live, size, owner);
      assert base > 0;
      hide HeapOk, HasRoom, Grant, FirstFit;
      var prevp, b, found, k := Lap(nunits);
      if !found {
        var ok := Morecore(nunits, grant);
        if !ok {
          return 0;
        }
        prevp, b, found, k := Lap(nunits);
      }
      assert HasRoom(old(fs), old(size), nunits) ==> FirstFit(old(ptr), old(size), old(freep), nunits, prevp, b);
      p := Carve(prevp, b, nunits, k);
    }

    /** malloc's first call makes base the only member of the list. */
    method Initialise()
      requires Valid()
      modifies this`freep, this`ptr, this`size
      ensures Valid() && freep != 0
      ensures size == if old(freep) == 0 then old(size)[base := 0] else old(size)
      ensures old(freep) == 0 ==> fs == [] && live == {}
      ensures old(freep) != 0 ==> ptr == old(ptr) && freep == old(freep)
    {
      if freep == 0 {
        freep, ptr, size := base, ptr[base := base], size[base := 0];
      }
    }

    /** malloc: fails exactly if no free block is large enough and sbrk fails, hands out room for the
        bytes asked for, and leaves every other block in use alone. */
    method Malloc(nbytes: nat, grant: Addr) returns (ap: Addr)
      requires Valid()
      requires grant == 0 || (grant > base && forall u :: u in owner ==> u < grant)
      modifies this`freep, this`ptr, this`size, this`fs, this`live, this`owner
      ensures Valid() && freep != 0
      ensures ap == 0 <==> grant == 0 && !HasRoom(old(fs), old(size), Units(nbytes))
      ensures ap == 0 ==> live == old(live) && fs == old(fs) && owner == old(owner)
      ensures ap != 0 ==>
                ap - 1 !in old(live) && live == old(live) + {ap - 1} && ap - 1 in size && size[ap - 1] == Units(nbytes)
      ensures forall x :: x in old(live) ==> x in size && x in old(size) && size[x] == old(size)[x]
      ensures Obtained(old(owner), owner, grant, Units(nbytes))
      ensures HasRoom(old(fs), old(size), Units(nbytes)) ==>
                old(freep) != 0 && Served(old(ptr), old(size), old(freep), Units(nbytes), ap - 1, freep)
                    && owner.Keys == old(owner).Keys
    {
      LiveHaveSizes(fs, live, size, owner);
      assert base > 0;
      hide HeapOk, Obtained, Units, HasRoom;
      ghost var size0 := size;
      Initialise();
      SameRoom(fs, size0, size, base, Units(nbytes));
      var p := Allocate(Units(nbytes), grant);
      ap := if p == 0 then 0 else p + 1;
    }

    /** malloc's walk, one lap from freep: the first block that is large enough, and its predecessor. */
    method Lap(nunits: int) returns (prevp: Addr, p: Addr, found: bool, ghost k: int)
      requires Valid() && freep != 0 && nunits > 0
      ensures found ==> 0 <= k < |fs| && p == fs[k] && prevp == Node(base, fs, k) && p in size && size[p] >= nunits
      ensures found == HasRoom(fs, size, nunits)
      ensures found ==> FirstFit(ptr, size, freep, nunits, prevp, p)
    {
      hide HeapOk, Node, HasRoom, Passed;
      PassedNone(ptr, size, nunits, freep);
      FreepIsNode(base, freep, ptr, size, fs, live, owner);
      ghost var start := Position(base, fs, freep);
      ghost var i := start;          // prevp is node i
      ghost var seen := 0;           // nodes looked at so far
      prevp := freep;
      NodeLinked(base, freep, ptr, size, fs, live, owner, start);
      p := ptr[prevp];
      while true
        invariant 0 <= start <= |fs| && 0 <= i <= |fs| && prevp == Node(base, fs, i) && p == Node(base, fs, i + 1)
        invariant 0 <= seen <= |fs| && i == (if start + seen <= |fs| then start + seen else start + seen - |fs| - 1)
        invariant forall d :: start < d <= start + seen ==> TooSmall(base, fs, size, nunits, d)
        invariant Passed(ptr, size, nunits, freep, seen, prevp) && prevp in ptr && ptr[prevp] == p
        decreases |fs| - seen
      {
        var next := if i == |fs| then 0 else i + 1;
        NodeLinked(base, freep, ptr, size, fs, live, owner, next);
        if size[p] >= nunits {
          RoomAt(base, freep, ptr, size, fs, live, owner, nunits, next);
          assert FirstFit(ptr, size, freep, nunits, prevp, p);
          return prevp, p, true, i;
        }
        assert TooSmall(base, fs, size, nunits, start + 1 + seen);
        if p == freep {
          NodesDiffer(base, freep, ptr, size, fs, live, owner, next, start);
          AllTooSmall(base, fs, size, nunits, start);
          return prevp, p, false, i;
        }
        PassedOne(ptr, size, nunits, freep, seen, prevp);
        prevp, p := p, ptr[p];
        NodesDiffer(base, freep, ptr, size, fs, live, owner, next, start);
        i := next;
        seen := seen + 1;
      }
    }
  }

  /** Going on from `from` for n links comes to `to`, over nodes that are all smaller than a request. */
  ghost predicate Passed(ptr: map<Addr, Addr>, size: map<Addr, int>, nunits: int, from: Addr, n: nat, to: Addr)
    decreases n
  {
    if n == 0 then to == from
    else
      && from in ptr && ptr[from] in size && size[ptr[from]] < nunits
      && Passed(ptr, size, nunits, ptr[from], n - 1, to)
  }

  /** The first block after `from` that is large enough, and the node before it. */
  ghost predicate FirstFit(ptr: map<Addr, Addr>, size: map<Addr, int>, from: Addr, nunits: int, before: Addr, b: Addr) {
    && before in ptr && ptr[before] == b && b in size && size[b] >= nunits
    && exists n: nat :: Passed(ptr, size, nunits, from, n, before)
  }

  lemma PassedNone(ptr: map<Addr, Addr>, size: map<Addr, int>, nunits: int, from: Addr)
    ensures Passed(ptr, size, nunits, from, 0, from)
  {
  }

  lemma {:induction false} PassedOne(ptr: map<Addr, Addr>, size: map<Addr, int>, nunits: int, from: Addr, n: nat,
                                     to: Addr)
    requires Passed(ptr, size, nunits, from, n, to) && to in ptr && ptr[to] in size && size[ptr[to]] < nunits
    ensures Passed(ptr, size, nunits, from, n + 1, ptr[to])
    decreases n
  {
    if n > 0 {
      PassedOne(ptr, size, nunits, ptr[from], n - 1, to);
    }
  }

  /** malloc's choice: the first block after freep that is large enough, or the end of it if it is larger;
      the next search starts from the node before. */
  ghost predicate Served(ptr: map<Addr, Addr>, size: map<Addr, int>, freep: Addr, nunits: int, p: Addr, freep': Addr) {
    exists b :: FirstFit(ptr, size, freep, nunits, freep', b) && p == b + size[b] - nunits
  }

  /** There is one such choice. */
  lemma {:induction false} OnePassed(ptr: map<Addr, Addr>, size: map<Addr, int>, nunits: int, from: Addr, m: nat,
                                     x: Addr,
                                     n: nat, y: Addr)
    requires Passed(ptr, size, nunits, from, m, x) && x in ptr && ptr[x] in size && size[ptr[x]] >= nunits
    requires Passed(ptr, size, nunits, from, n, y) && y in ptr && ptr[y] in size && size[ptr[y]] >= nunits
    ensures x == y
    decreases m
  {
    if m > 0 && n > 0 {
      OnePassed(ptr, size, nunits, ptr[from], m - 1, x, n - 1, y);
    }
  }

  lemma {:induction false} OneChoice(ptr: map<Addr, Addr>, size: map<Addr, int>, freep: Addr, nunits: int, p: Addr,
                                     q: Addr, p': Addr, q': Addr)
    requires Served(ptr, size, freep, nunits, p, p') && Served(ptr, size, freep, nunits, q, q')
    ensures p == q && p' == q'
  {
    var b :| FirstFit(ptr, size, freep, nunits, p', b) && p == b + size[b] - nunits;
    var c :| FirstFit(ptr, size, freep, nunits, q', c) && q == c + size[c] - nunits;
    var m: nat :| Passed(ptr, size, nunits, freep, m, p');
    var n: nat :| Passed(ptr, size, nunits, freep, n, q');
    OnePassed(ptr, size, nunits, freep, m, p', n, q');
  }

  lemma FreepIsNode(base: Addr, freep: Addr, ptr: map<Addr, Addr>, size: map<Addr, int>, fs: seq<Addr>, live: set<Addr>,
                    owner: map<Addr, Addr>)
    requires HeapOk(base, freep, ptr, size, fs, live, owner) && freep != 0
    ensures Position(base, fs, freep) <= |fs| && Node(base, fs, Position(base, fs, freep)) == freep
  {
    hide Tiled, Ordered, Linked;
  }

  /** The links go from node to node, and back to base after the last. */
  lemma NodeLinked(base: Addr, freep: Addr, ptr: map<Addr, Addr>, size: map<Addr, int>, fs: seq<Addr>, live: set<Addr>,
                   owner: map<Addr, Addr>, i: nat)
    requires HeapOk(base, freep, ptr, size, fs, live, owner) && freep != 0 && i <= |fs|
    ensures var p := Node(base, fs, i); p in ptr && p in size && ptr[p] == Node(base, fs, i + 1)
    ensures Node(base, fs, |fs| + 1) == Node(base, fs, 0) == base && size[base] == 0
    ensures i > 0 ==> Node(base, fs, i) == fs[i - 1]
  {
    hide Tiled;
  }

  lemma NodesDiffer(base: Addr, freep: Addr, ptr: map<Addr, Addr>, size: map<Addr, int>, fs: seq<Addr>, live: set<Addr>,
                    owner: map<Addr, Addr>,
                    i: nat, j: nat)
    requires HeapOk(base, freep, ptr, size, fs, live, owner) && i <= |fs| && j <= |fs|
    ensures Node(base, fs, i) == Node(base, fs, j) ==> i == j
  {
    hide Tiled, Linked;
  }

  lemma RoomAt(base: Addr, freep: Addr, ptr: map<Addr, Addr>, size: map<Addr, int>, fs: seq<Addr>, live: set<Addr>,
               owner: map<Addr, Addr>,
               nunits: int, i: nat)
    requires HeapOk(base, freep, ptr, size, fs, live, owner) && freep != 0 && nunits > 0 && i <= |fs|
    requires Node(base, fs, i) in size && size[Node(base, fs, i)] >= nunits
    ensures i > 0 && HasRoom(fs, size, nunits)
  {
    hide Tiled, Linked;
    assert Node(base, fs, i) in fs;
  }

  /** The node `d` steps after base, going round, is smaller than a request. */
  ghost predicate TooSmall(base: Addr, fs: seq<Addr>, size: map<Addr, int>, nunits: int, d: int) {
    var i := if d <= |fs| then d else d - |fs| - 1;
    Node(base, fs, i) in size && size[Node(base, fs, i)] < nunits
  }

  lemma AllTooSmall(base: Addr, fs: seq<Addr>, size: map<Addr, int>, nunits: int, start: nat)
    requires start <= |fs| && forall d :: start < d <= start + |fs| + 1 ==> TooSmall(base, fs, size, nunits, d)
    ensures !HasRoom(fs, size, nunits)
  {
    forall i | 0 <= i < |fs| ensures fs[i] in size && size[fs[i]] < nunits {
      assert TooSmall(base, fs, size, nunits, if i >= start then i + 1 else i + |fs| + 2);
    }
  }

  // ----- what the invariant says about the heap as a whole

  /** The list is one cycle through base in address order, no two free blocks touch, and any two different
      blocks, free or in use, are disjoint. */
  lemma OneOrderedCycle(base: Addr, freep: Addr, ptr: map<Addr, Addr>, size: map<Addr, int>, fs: seq<Addr>,
                        live: set<Addr>, owner: map<Addr, Addr>, i: nat, a: Addr, b: Addr)
    requires HeapOk(base, freep, ptr, size, fs, live, owner) && freep != 0 && i <= |fs|
    ensures Steps(ptr, base, i, Node(base, fs, i)) && (i == |fs| ==> Steps(ptr, base, i + 1, base))
    ensures i > 0 ==> base < Node(base, fs, i)
    ensures (a in fs || a in live) && (b in fs || b in live) && a < b ==> a in size && a + size[a] <= b
    ensures a in fs && b in fs && a < b ==> a in size && a + size[a] < b
  {
    StepsAlong(base, fs, ptr, i);
    if (a in fs || a in live) && (b in fs || b in live) && a < b {
      assert a in Elems(fs) || a in live;
      assert b in Elems(fs) || b in live;
      assert Owns(size, owner, a) && Owns(size, owner, b);
      assert owner[b] == b;
    }
  }

  /** Following the links n times. */
  ghost predicate Steps(ptr: map<Addr, Addr>, from: Addr, n: nat, to: Addr)
    decreases n
  {
    if n == 0 then to == from else from in ptr && Steps(ptr, ptr[from], n - 1, to)
  }

  lemma {:induction false} StepsMore(ptr: map<Addr, Addr>, from: Addr, n: nat, to: Addr)
    requires Steps(ptr, from, n, to) && to in ptr
    ensures Steps(ptr, from, n + 1, ptr[to])
    decreases n
  {
    if n > 0 {
      StepsMore(ptr, ptr[from], n - 1, to);
    }
  }

  lemma {:induction false} StepsAlong(base: Addr, fs: seq<Addr>, ptr: map<Addr, Addr>, i: nat)
    requires Linked(base, fs, ptr) && i <= |fs|
    ensures Steps(ptr, base, i, Node(base, fs, i)) && (i == |fs| ==> Steps(ptr, base, i + 1, base))
  {
    if i > 0 {
      StepsAlong(base, fs, ptr, i - 1);
      var here := Node(base, fs, i - 1);
      assert here in ptr && ptr[here] == Node(base, fs, i);
      StepsMore(ptr, base, i - 1, here);
    }
    if i == |fs| {
      var last := Node(base, fs, i);
      assert last in ptr && ptr[last] == base;
      StepsMore(ptr, base, i, last);
    }
  }

  ghost predicate InBlock(size: map<Addr, int>, b: Addr, u: Addr) {
    b in size && b <= u < b + size[b]
  }

  /** Free and live blocks together make up exactly the units obtained: every such unit is in one block and
      in no other, and every unit of a block was obtained. */
  lemma {:induction false} UnitsPartitioned(base: Addr, freep: Addr, ptr: map<Addr, Addr>, size: map<Addr, int>,
                                            fs: seq<Addr>, live: set<Addr>, owner: map<Addr, Addr>, u: Addr)
    requires HeapOk(base, freep, ptr, size, fs, live, owner)
    ensures u in owner <==> exists b :: (b in fs || b in live) && InBlock(size, b, u)
    ensures forall a, b ::
              (a in fs || a in live) && (b in fs || b in live) && InBlock(size, a, u) && InBlock(size, b, u) ==> a == b
    ensures forall b :: b in fs ==> b !in live
  {
    forall b | (b in fs || b in live) && InBlock(size, b, u) ensures u in owner && owner[u] == b {
      assert b in Elems(fs) || b in live;
      assert Owns(size, owner, b);
    }
    if u in owner {
      assert owner[u] in Elems(fs) || owner[u] in live;
      assert Owns(size, owner, owner[u]);
      assert InBlock(size, owner[u], u);
    }
    assert forall b :: b in fs ==> b in Elems(fs);
  }
}
