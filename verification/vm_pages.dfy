/** Page conservation: what the invariant says about the pages of physical memory as a whole. */
module VmPages {
  import opened VmFormat
  import opened VmModel

  /** The numbers from `lo` up to `hi`. */
  ghost function Interval(lo: int, hi: int): (s: set<int>)
    ensures forall f :: f in s <==> lo <= f < hi
    ensures |s| == if lo <= hi then hi - lo else 0
    decreases hi - lo
  {
    if lo < hi then Interval(lo, hi - 1) + {hi - 1} else {}
  }

  ghost function FreePages(owner: seq<Use>, end: int): (s: set<int>)
    requires 0 <= end
  {
    set f | f in Interval(end, |owner|) && owner[f].Free?
  }

  ghost function TablePages(owner: seq<Use>, end: int): (s: set<int>)
    requires 0 <= end
  {
    set f | f in Interval(end, |owner|) && owner[f].Table?
  }

  ghost function UserPages(owner: seq<Use>, end: int): (s: set<int>)
    requires 0 <= end
  {
    set f | f in Interval(end, |owner|) && owner[f].Mapped?
  }

  /** Pages that kalloc handed out and that are in no user address space. */
  ghost function HeldPages(owner: seq<Use>, end: int): (s: set<int>)
    requires 0 <= end
  {
    set f | f in Interval(end, |owner|) && owner[f].Held?
  }

  /** The page behind each user mapping. */
  ghost function Backing(flat: map<Key, int>): (m: map<Key, int>) {
    map k | k in flat && k.page < TOP :: Frame(flat[k])
  }

  ghost predicate Injective<K(!new), V>(m: map<K, V>) {
    forall a, b :: a in m && b in m && m[a] == m[b] ==> a == b
  }

  lemma {:induction false} InjectiveSize<K(!new), V>(m: map<K, V>)
    requires Injective(m)
    ensures |m.Values| == |m|
  {
    if m == map[] {
      assert m.Values == {};
    } else {
      var a :| a in m;
      var rest := m - {a};
      InjectiveSize(rest);
      assert m == rest[a := m[a]];
      assert m[a] !in rest.Values;
      assert m.Values == rest.Values + {m[a]};
      assert |m.Keys| == |rest.Keys + {a}|;
    }
  }

  ghost function Numbered(list: seq<int>): (m: map<int, int>) {
    map n | 0 <= n < |list| :: list[n]
  }

  lemma FreeIsListed(mem: seq<Page>, owner: seq<Use>, list: seq<int>, end: int)
    requires |owner| == |mem| && FreeOk(mem, owner, list) && RangeOk(owner, end)
    ensures Injective(Numbered(list)) && Numbered(list).Values == FreePages(owner, end)
            && |FreePages(owner, end)| == |list|
  {
    var m := Numbered(list);
    forall a, b | a in m && b in m && m[a] == m[b] ensures a == b {
      assert owner[list[a]] == Free(a) && owner[list[b]] == Free(b);
    }
    InjectiveSize(m);
    forall f | f in FreePages(owner, end) ensures f in m.Values {
      assert m[owner[f].pos] == f;
    }
    forall n | n in m ensures m[n] in FreePages(owner, end) {
      assert owner[list[n]] == Free(n);
    }
    assert m.Keys == Interval(0, |list|);
  }

  lemma TablesHaveHomes(mem: seq<Page>, owner: seq<Use>, flat: map<Key, int>, home: map<Loc, int>, end: int)
    requires SpacesOk(mem, owner, flat, home, {}) && RangeOk(owner, end)
    ensures Injective(home) && home.Values == TablePages(owner, end) && |TablePages(owner, end)| == |home|
  {
    InjectiveSize(home);
    forall f | f in TablePages(owner, end) ensures f in home.Values {
      assert PlaceOk(mem, owner, home, {}, f);
      assert home[LocOf(owner[f])] == f;
    }
  }

  lemma UsersAreMapped(owner: seq<Use>, flat: map<Key, int>, end: int)
    requires MappedOk(owner, flat) && RangeOk(owner, end)
    ensures Injective(Backing(flat)) && Backing(flat).Values == UserPages(owner, end)
            && |UserPages(owner, end)| == |Backing(flat)|
  {
    var m := Backing(flat);
    InjectiveSize(m);
    forall f | f in UserPages(owner, end) ensures f in m.Values {
      assert m[Key(owner[f].root, owner[f].page)] == f;
    }
  }

  lemma UsesPartition(owner: seq<Use>, end: int)
    requires RangeOk(owner, end)
    ensures FreePages(owner, end) !! TablePages(owner, end) !! UserPages(owner, end) !! HeldPages(owner, end)
    ensures FreePages(owner, end) + TablePages(owner, end) + UserPages(owner, end) + HeldPages(owner, end)
            == Interval(end, |owner|)
    ensures |FreePages(owner, end)| + |TablePages(owner, end)| + |UserPages(owner, end)| + |HeldPages(owner, end)|
            == |owner| - end
  {
    assert forall f :: f in Interval(end, |owner|) ==> !owner[f].Outside?;
  }

  /** No page serves two purposes: positions in the free list, places in the page-table trees and user
      mappings are at distinct pages. What is left over is held by the kernel, and together they are all
      the pages after the kernel image, so the total is constant. */
  lemma {:induction false} PagesConserved(end: int, mem: seq<Page>, owner: seq<Use>, list: seq<int>, flat: map<Key,
                                          int>, home: map<Loc, int>)
    requires VmOk(end, mem, owner, list, flat, home, {})
    ensures Injective(Numbered(list)) && Injective(home) && Injective(Backing(flat))
    ensures Numbered(list).Values !! home.Values !! Backing(flat).Values !! HeldPages(owner, end)
    ensures Numbered(list).Values + home.Values + Backing(flat).Values + HeldPages(owner, end) == Interval(end, |mem|)
    ensures |list| + |home| + |Backing(flat)| + |HeldPages(owner, end)| == |mem| - end
  {
    FreeIsListed(mem, owner, list, end);
    TablesHaveHomes(mem, owner, flat, home, end);
    UsersAreMapped(owner, flat, end);
    UsesPartition(owner, end);
  }
}
