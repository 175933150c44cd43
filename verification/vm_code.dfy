/** kernel/kalloc.c and the user page tables of kernel/vm.c, over the bytes of physical memory.
    Addresses are byte addresses; page number f is the page at address f * 4096. */
module VmCode {
  import opened VmFormat
  import opened VmModel

  class Vm {
    const end: int           // the first page after the kernel image
    var mem: seq<Page>
    var freelist: int        // kmem.freelist
    ghost var owner: seq<Use>
    ghost var list: seq<int>
    ghost var flat: map<Key, int>
    ghost var home: map<Loc, int>
    ghost var stale: set<Edge>
    ghost var starved: bool  // kalloc has failed

    ghost predicate Ok()
      reads this
    {
      VmOk(end, mem, owner, list, flat, home, stale) && freelist == Head(list)
    }

    /** kinit: every page after the kernel image is handed to kfree. */
    constructor (memory: seq<Page>, first: int)
      requires 0 < first <= |memory| <= FRAMES
      ensures Ok() && stale == {} && flat == map[] && !starved && end == first && |mem| == |memory|
      ensures forall f :: 0 <= f < |owner| ==> if f < end then owner[f].Outside? else owner[f].Free?
    {
      hide FreeOk, SpacesOk, RangeOk;
      end, mem, freelist := first, memory, 0;
      owner := seq(|memory|, f => if f < first then Outside else Held);
      list, flat, home, stale, starved := [], map[], map[], {}, false;
      new;
      NoSpacesYet(end, mem, owner);
      var p := first;
      while p < |mem|
        invariant first <= p <= |mem| == |memory| == |owner| && Ok() && stale == {} && flat == map[] && !starved
        invariant forall f ::
                    0 <= f < |owner| ==>
                        if f < end then owner[f].Outside? else if f < p then owner[f].Free? else owner[f].Held?
      {
        Kfree(p * 4096);
        p := p + 1;
      }
    }

    /** kfree's panic is not reached: a held page is aligned and in range. */
    method Kfree(pa: int)
      requires Ok() && 0 <= pa && pa % 4096 == 0 && pa / 4096 < |mem| && owner[pa / 4096].Held?
      modifies this`mem, this`freelist, this`owner, this`list
      ensures Ok() && end * 4096 <= pa
      ensures owner == old(owner)[pa / 4096 := Free(|old(list)|)] && list == old(list) + [pa / 4096]
      ensures |mem| == |old(mem)| && forall f :: 0 <= f < |mem| && f != pa / 4096 ==> mem[f] == old(mem)[f]
    {
      var f := pa / 4096;
      var p := PutEntry(Filled(1), 0, freelist);
      PushKeeps(end, mem, owner, list, flat, home, stale, f, p);
      mem := mem[f := p];
      freelist := pa;
      owner := owner[f := Free(|list|)];
      list := list + [f];
    }

    /** kalloc: the page freed last, filled with junk, or 0 if no page is free. */
    method Kalloc() returns (pa: int)
      requires Ok()
      modifies this`mem, this`freelist, this`owner, this`list, this`starved
      ensures Ok()
      ensures old(list) == [] ==> pa == 0 && starved && mem == old(mem) && owner == old(owner) && list == old(list)
      ensures old(list) != [] ==>
                && 0 < pa && pa % 4096 == 0 && pa / 4096 == old(list)[|old(list)| - 1] < |old(owner)| == |old(mem)|
                && old(owner)[pa / 4096].Free?
                && starved == old(starved) && list == old(list)[..|old(list)| - 1]
                && mem == old(mem)[pa / 4096 := Filled(5)] && owner == old(owner)[pa / 4096 := Held]
    {
      pa := freelist;
      if pa != 0 {
        PopKeeps(end, mem, owner, list, flat, home, stale, Filled(5));
        var f := pa / 4096;
        freelist := Entry(mem[f], 0);
        mem := mem[f := Filled(5)];
        owner := owner[f := Held];
        list := list[..|list| - 1];
      } else {
        HeadIsZero(mem, owner, list);
        starved := true;
      }
    }

    /** memset or memmove of a whole page that the kernel holds or a user has mapped. */
    method WritePage(pa: int, p: Page)
      requires Ok() && 0 <= pa / 4096 < |mem| && (owner[pa / 4096].Held? || owner[pa / 4096].Mapped?)
      modifies this`mem
      ensures Ok() && mem == old(mem)[pa / 4096 := p]
    {
      DataWrite(end, mem, owner, list, flat, home, stale, pa / 4096, p);
      mem := mem[pa / 4096 := p];
    }

    /** walk's allocation: a cleared page becomes the table below an unused entry. */
    method AddTable(t: int, i: int) returns (next: int)
      requires Ok() && stale == {} && 0 < t < |mem| && owner[t].Table? && 0 < owner[t].level && 0 <= owner[t].prefix
      requires 0 <= i < 512 && !Valid(Entry(mem[t], i))
      modifies this`mem, this`freelist, this`owner, this`list, this`home, this`starved
      ensures Ok() && Grew(old(mem), old(owner), old(list), mem, owner, list, old(owner)[t].root)
      ensures next == 0 ==>
                mem == old(mem) && owner == old(owner) && list == old(list) == [] && home == old(home) && starved
      ensures next != 0 ==> 0 < next < |mem| && owner[next] == NewTable(old(owner)[t], t, i) && starved == old(starved)
      ensures next != 0 ==> |list| == |old(list)| - 1
    {
      hide FreeOk, SpacesOk;
      var pa := Kalloc();
      if pa == 0 {
        return 0;
      }
      WritePage(pa, Filled(0));
      next := pa / 4096;
      assert CanAdd(mem, owner, t, i, next);
      AddTableKeeps(end, mem, owner, list, flat, home, t, i, next);
      home := home[LocOf(NewTable(owner[t], t, i)) := next];
      mem := AddedMem(mem, t, i, next);
      owner := owner[next := NewTable(owner[t], t, i)];
    }

    /** One level of walk: the table below entry `i` of table `t`, added if it is missing. */
    method WalkDown(t: int, i: int, alloc: bool) returns (next: int)
      requires Ok() && stale == {} && 0 < t < |mem| && owner[t].Table? && owner[t].level > 0 && 0 <= i < 512
      modifies this`mem, this`freelist, this`owner, this`list, this`home, this`starved
      ensures Ok() && Grew(old(mem), old(owner), old(list), mem, owner, list, old(owner)[t].root)
      ensures next != 0 ==> 0 < next < |mem| && owner[next] == NewTable(old(owner)[t], t, i) && starved == old(starved)
      ensures next == 0 ==>
                mem == old(mem) && owner == old(owner) && list == old(list) && home == old(home)
                    && !Valid(Entry(mem[t], i))
      ensures next == 0 ==> if alloc then starved && list == [] else starved == old(starved)
      ensures |list| >= |old(list)| - 1
      ensures !alloc ==>
                mem == old(mem) && owner == old(owner) && list == old(list) && home == old(home)
                    && starved == old(starved)
    {
      assert PlaceOk(mem, owner, home, stale, t) && EntriesOk(mem, owner, flat, stale, t);
      var pte := Entry(mem[t], i);
      if Valid(pte) {
        next := Frame(pte);
      } else if !alloc {
        next := 0;
      } else {
        next := AddTable(t, i);
      }
    }

    /** walk: the leaf entry of a virtual page. The flat map stays as it is, also when memory runs out
        half-way; without `alloc` nothing changes at all. t == 0 means that there is no entry. At most two
        pages become tables. */
    method Walk(root: int, va: int, alloc: bool) returns (t: int, i: int)
      requires Ok() && stale == {} && IsRoot(owner, root) && 0 <= va < MAXPAGE * 4096
      modifies this`mem, this`freelist, this`owner, this`list, this`home, this`starved
      ensures Ok() && Grew(old(mem), old(owner), old(list), mem, owner, list, root)
      ensures t != 0 ==> LeafAt(mem, owner, root, va / 4096, t, i) && starved == old(starved)
      ensures t == 0 ==> Key(root, va / 4096) !in flat
      ensures t == 0 ==> if alloc then starved && list == [] else starved == old(starved)
      ensures !alloc ==> mem == old(mem) && owner == old(owner) && list == old(list) && home == old(home)
      ensures |list| >= |old(list)| - 2 && (t == 0 && alloc ==> |old(list)| < 2)
    {
      hide FreeOk, SpacesOk;
      RootPlace(mem, owner, flat, home, root);
      t := root;
      var level := 2;
      PxParts(va, 2);
      while level > 0
        invariant 0 <= level <= 2 && Ok() && 0 < t < |mem| && owner[t].Table?
        invariant owner[t].root == root && owner[t].level == level && owner[t].prefix == Up(va / 4096, level + 1)
        invariant Grew(old(mem), old(owner), old(list), mem, owner, list, root) && starved == old(starved)
        invariant !alloc ==> mem == old(mem) && owner == old(owner) && list == old(list) && home == old(home)
        invariant |list| >= |old(list)| - (2 - level)
      {
        PxParts(va, level);
        ghost var t0, mem0, owner0, list0 := t, mem, owner, list;
        i := Px(level, va);
        t := WalkDown(t, i, alloc);
        GrewTrans(old(mem), old(owner), old(list), mem0, owner0, list0, mem, owner, list, root);
        if t == 0 {
          MissingTable(mem, owner, flat, home, t0, i, va / 4096);
          return;
        }
        level := level - 1;
      }
      PxParts(va, 0);
      i := Px(0, va);
    }

    /** Write an unused leaf entry. */
    method MapLeaf(t: int, i: int, e: int, ghost k: Key)
      requires Ok() && stale == {} && CanMap(mem, owner, t, i, e) && PageOf(owner[t], i) == k
      modifies this`mem, this`owner, this`flat
      ensures Ok() && flat == old(flat)[k := e] && owner == MapOwner(old(owner), k, e)
      ensures mem == old(mem)[t := PutEntry(old(mem)[t], i, e)]
    {
      MapKeeps(end, mem, owner, list, flat, home, t, i, e);
      mem := mem[t := PutEntry(mem[t], i, e)];
      owner := MapOwner(owner, k, e);
      flat := flat[k := e];
    }

    /** One turn of mappages: fill the leaf entry of one page. */
    method MapPage(root: int, va: int, pa: int, perm: int) returns (ok: bool)
      requires Ok() && stale == {} && IsRoot(owner, root) && 0 <= va < MAXPAGE * 4096 && 0 <= perm < 1024
               && MapsPage(perm)
      requires Key(root, va / 4096) !in flat && 0 <= pa / 4096 < |mem|
      requires va / 4096 < TOP ==> owner[pa / 4096].Held?
      modifies this`mem, this`freelist, this`owner, this`list, this`home, this`starved, this`flat
      ensures Ok() && IsRoot(owner, root)
      ensures MappedRange(old(mem), old(owner), old(list), mem, owner, list, root, va / 4096, if ok then 1 else 0,
                          pa / 4096)
      ensures flat == if ok then old(flat)[Key(root, va / 4096) := Pte(pa / 4096, WithValid(perm))] else old(flat)
      ensures !ok ==> starved && list == [] && |old(list)| < 2
      ensures ok ==> starved == old(starved) && |list| >= |old(list)| - 2
    {
      hide FreeOk, SpacesOk, MappedRange, Pte, Frame, Valid, MapsPage;
      var t, i := Walk(root, va, true);
      if t == 0 {
        GrewNothingMapped(old(mem), old(owner), old(list), mem, owner, list, root, va / 4096, pa / 4096);
        return false;
      }
      LeafEntry(mem, owner, flat, home, t, i);
      var e := Pte(pa / 4096, WithValid(perm));
      PteFits(pa / 4096, perm);
      assert CanMap(mem, owner, t, i, e);
      GrewMapped(old(mem), old(owner), old(list), mem, owner, list, root, va / 4096, t, i, e);
      MapLeaf(t, i, e, Key(root, va / 4096));
      ok := true;
    }

    /** mappages: on success the flat map gains exactly the range; on failure, only when memory has run
        out, the first `done` pages of it. The panics on misaligned arguments, an empty range and a page
        that is already mapped are the caller's to avoid. */
    method Mappages(root: int, va: int, size: int, pa: int, perm: int) returns (r: int, ghost done: int)
      requires Ok() && stale == {} && IsRoot(owner, root) && 0 <= perm < 1024 && MapsPage(perm)
      requires va % 4096 == 0 && size % 4096 == 0 && 0 < size && 0 <= va && va + size <= MAXPAGE * 4096
      requires 0 <= pa && pa / 4096 + size / 4096 <= |mem|
      requires forall k :: k in Range(root, va / 4096, size / 4096) ==> k !in flat
      requires HeldRange(owner, va / 4096, size / 4096, pa / 4096)
      modifies this`mem, this`freelist, this`owner, this`list, this`home, this`starved, this`flat
      ensures Ok() && IsRoot(owner, root) && 0 <= done <= size / 4096
      ensures flat == WithRange(old(flat), root, va / 4096, done, pa / 4096, WithValid(perm))
      ensures MappedRange(old(mem), old(owner), old(list), mem, owner, list, root, va / 4096, done, pa / 4096)
      ensures r == if done == size / 4096 then 0 else -1
      ensures r == -1 ==> starved && list == [] && |old(list)| < 2 * (done + 1)
      ensures r == 0 ==> starved == old(starved) && |list| >= |old(list)| - 2 * done
    {
      hide FreeOk, SpacesOk, MappedRange, WithRange;
      assert MappedRange(mem, owner, list, mem, owner, list, root, va / 4096, 0, pa / 4096) by {
        MappedRangeNone(mem, owner, list, root, va / 4096, pa / 4096);
      }
      RangeNone(flat, root, va / 4096, pa / 4096, WithValid(perm));
      var a, q := va, pa;
      var last := va + size - 4096;
      done := 0;
      while true
        invariant a == va + done * 4096 && q == pa + done * 4096 && 0 <= done < size / 4096
        invariant Ok() && IsRoot(owner, root) && |mem| == |old(mem)| && starved == old(starved)
        invariant flat == WithRange(old(flat), root, va / 4096, done, pa / 4096, WithValid(perm))
        invariant MappedRange(old(mem), old(owner), old(list), mem, owner, list, root, va / 4096, done, pa / 4096)
        invariant |list| >= |old(list)| - 2 * done
        decreases size / 4096 - done
      {
        ghost var mem1, owner1, list1 := mem, owner, list;
        StillUnmapped(old(mem), old(owner), old(list), old(flat), mem, owner, list, root, va / 4096, size / 4096, done,
                      pa / 4096, WithValid(perm));
        var ok := MapPage(root, a, q, perm);
        HeldPrefix(old(owner), va / 4096, size / 4096, done + 1, pa / 4096);
        MappedRangeNext(old(mem), old(owner), old(list), mem1, owner1, list1, mem, owner, list, root, va / 4096, done,
                        pa / 4096, if ok then 1 else 0);
        if !ok {
          return -1, done;
        }
        WithRangeNext(old(flat), root, va / 4096, done, pa / 4096, WithValid(perm));
        done := done + 1;
        if a == last {
          break;
        }
        a := a + 4096;
        q := q + 4096;
      }
      r := 0;
    }

    /** uvmunmap at a valid entry: the page is freed before the entry is cleared. */
    method UnmapLeaf(t: int, i: int, ghost k: Key, doFree: bool)
      requires Ok() && stale == {} && LeafAt(mem, owner, k.root, k.page, t, i) && k in flat
               && flat[k] == Entry(mem[t], i)
      requires doFree ==> k.page < TOP
      modifies this`mem, this`freelist, this`owner, this`list, this`flat, this`stale
      ensures Ok() && stale == {} && flat == old(flat) - {k}
      ensures k.page < TOP ==> 0 < Frame(old(flat)[k]) < |old(owner)|
      ensures owner == if k.page >= TOP then old(owner)
              else old(owner)[Frame(old(flat)[k]) := if doFree then Free(|old(list)|) else Held]
      ensures list == if doFree then old(list) + [Frame(old(flat)[k])] else old(list)
      ensures |mem| == |old(mem)| && forall f ::
                0 <= f < |mem| && f != t && !(doFree && f == Frame(old(flat)[k])) ==> mem[f] == old(mem)[f]
    {
      hide FreeOk, SpacesOk;
      var pa := Frame(Entry(mem[t], i)) * 4096;
      DetachKeeps(end, mem, owner, list, flat, home, t, i);
      owner, flat, stale := UnmapOwner(owner, k, flat[k]), flat - {k}, {Edge(t, i)};
      if doFree {
        Kfree(pa);
      }
      ClearKeeps(end, mem, owner, list, flat, home, stale, t, i);
      mem := mem[t := PutEntry(mem[t], i, 0)];
      assert stale - {Edge(t, i)} == {};
      stale := {};
    }

    /** One turn of uvmunmap. */
    method UnmapPage(root: int, va: int, doFree: bool)
      requires Ok() && stale == {} && IsRoot(owner, root) && 0 <= va < MAXPAGE * 4096 && (doFree ==> va / 4096 < TOP)
      modifies this`mem, this`freelist, this`owner, this`list, this`home, this`starved, this`flat, this`stale
      ensures Ok() && stale == {} && IsRoot(owner, root) && starved == old(starved)
      ensures flat == old(flat) - {Key(root, va / 4096)}
      ensures Released(old(mem), old(owner), old(list), mem, owner, list, root, va / 4096, 1, doFree)
    {
      hide FreeOk, SpacesOk;
      var t, i := Walk(root, va, false);
      ghost var k := Key(root, va / 4096);
      MappedAtKey(mem, owner, flat, home, k);
      if t != 0 {
        LeafEntry(mem, owner, flat, home, t, i);
        if Valid(Entry(mem[t], i)) {
          UnmapLeaf(t, i, k, doFree);
          return;
        }
      }
      assert flat == flat - {k};
    }

    /** uvmunmap: the flat map loses exactly the range. */
    method Uvmunmap(root: int, va: int, npages: int, doFree: bool)
      requires Ok() && stale == {} && IsRoot(owner, root) && va % 4096 == 0 && 0 <= va && 0 <= npages
      requires va / 4096 + npages <= MAXPAGE && (doFree ==> va / 4096 + npages <= TOP)
      modifies this`mem, this`freelist, this`owner, this`list, this`home, this`starved, this`flat, this`stale
      ensures Ok() && stale == {} && IsRoot(owner, root) && starved == old(starved)
      ensures flat == old(flat) - Range(root, va / 4096, npages)
      ensures Released(old(mem), old(owner), old(list), mem, owner, list, root, va / 4096, npages, doFree)
    {
      hide FreeOk, SpacesOk, Released, Range;
      RangeNone(flat, root, va / 4096, 0, 0);
      ReleasedNone(mem, owner, list, root, va / 4096, doFree);
      var a := va;
      ghost var n := 0;
      while a < va + npages * 4096
        invariant a == va + n * 4096 && 0 <= n <= npages && Ok() && stale == {} && IsRoot(owner, root)
                  && starved == old(starved)
        invariant flat == old(flat) - Range(root, va / 4096, n)
        invariant Released(old(mem), old(owner), old(list), mem, owner, list, root, va / 4096, n, doFree)
      {
        ghost var mem1, owner1, list1 := mem, owner, list;
        UnmapPage(root, a, doFree);
        ReleasedNext(old(mem), old(owner), old(list), mem1, owner1, list1, mem, owner, list, root, va / 4096, n,
                     doFree);
        WithoutRangeNext(old(flat), root, va / 4096, n);
        a := a + 4096;
        n := n + 1;
      }
    }

    /** uvmdealloc */
    method Uvmdealloc(root: int, oldsz: int, newsz: int) returns (r: int)
      requires Ok() && stale == {} && IsRoot(owner, root) && 0 <= oldsz <= TOP * 4096 && 0 <= newsz
      modifies this`mem, this`freelist, this`owner, this`list, this`home, this`starved, this`flat, this`stale
      ensures Ok() && stale == {} && IsRoot(owner, root) && starved == old(starved)
      ensures r == if newsz >= oldsz then oldsz else newsz
      ensures flat == old(flat) - Range(root, Pages(newsz), Pages(oldsz) - Pages(newsz))
      ensures Released(old(mem), old(owner), old(list), mem, owner, list, root, Pages(newsz),
                       Pages(oldsz) - Pages(newsz), true)
    {
      hide FreeOk, SpacesOk, Released, Range;
      ReleasedEmpty(mem, owner, list, root, Pages(newsz), Pages(oldsz) - Pages(newsz));
      if newsz < oldsz && Pages(newsz) < Pages(oldsz) {
        Uvmunmap(root, Pages(newsz) * 4096, Pages(oldsz) - Pages(newsz), true);
      } else {
        RangeEmpty(flat, root, Pages(newsz), Pages(oldsz) - Pages(newsz));
      }
      r := if newsz >= oldsz then oldsz else newsz;
    }

    /** kalloc, fill, mappages of one user page, and kfree if that fails: what uvmalloc, uvmcopy and
        vmfault do for each page. Three free pages are always enough. */
    method MapNew(root: int, va: int, perm: int, contents: Page) returns (pa: int)
      requires Ok() && stale == {} && IsRoot(owner, root) && va % 4096 == 0 && 0 <= va / 4096 < TOP && 0 <= perm < 1024
               && MapsPage(perm)
      requires Key(root, va / 4096) !in flat
      modifies this`mem, this`freelist, this`owner, this`list, this`home, this`starved, this`flat
      ensures Ok() && IsRoot(owner, root) && Took(old(mem), old(owner), mem, owner, root)
      ensures pa == 0 ==> flat == old(flat) && starved && |old(list)| < 3
      ensures pa != 0 ==> |list| >= |old(list)| - 3
      ensures pa != 0 ==>
                && 0 < pa && pa % 4096 == 0 && pa / 4096 < |old(owner)| == |mem| && old(owner)[pa / 4096].Free?
                && flat == old(flat)[Key(root, va / 4096) := Pte(pa / 4096, WithValid(perm))] && starved == old(starved)
                && owner[pa / 4096] == Mapped(root, va / 4096) && mem[pa / 4096] == contents
    {
      hide FreeOk, SpacesOk, MappedRange, Took, Range, WithRange, HeldRange, RangeOk;
      TookNothing(mem, owner, root);
      pa := Kalloc();
      if pa == 0 {
        return;
      }
      WritePage(pa, contents);
      OnePage(flat, owner, root, va / 4096, pa / 4096, WithValid(perm));
      ghost var mem1, owner1, list1 := mem, owner, list;
      ghost var done;
      var r;
      r, done := Mappages(root, va, 4096, pa, perm);
      TookOne(old(mem), old(owner), pa / 4096, contents, mem1, owner1, list1, list, mem, owner, root, va / 4096, done);
      if r != 0 {
        ghost var mem2, owner2, list2 := mem, owner, list;
        Kfree(pa);
        TookNone(old(mem), old(owner), pa / 4096, contents, mem1, owner1, list1, list2, mem2, owner2, mem, owner, root,
                 va / 4096);
        pa := 0;
      }
    }

    /** uvmalloc: on success exactly the new pages are mapped, cleared, on pages of memory that were
        free; on failure, only when there are fewer than three free pages for each, the mapping is as before. */
    method Uvmalloc(root: int, oldsz: int, newsz: int, xperm: int) returns (r: int, ghost ok: bool)
      requires Ok() && stale == {} && IsRoot(owner, root) && 0 <= oldsz && 0 <= newsz <= TOP * 4096
               && xperm in {0, PTE_W, PTE_X, PTE_W + PTE_X}
      requires forall k :: k in Range(root, Pages(oldsz), Pages(newsz) - Pages(oldsz)) ==> k !in flat
      modifies this`mem, this`freelist, this`owner, this`list, this`home, this`starved, this`flat, this`stale
      ensures Ok() && stale == {} && IsRoot(owner, root) && Took(old(mem), old(owner), mem, owner, root)
      ensures r == if newsz < oldsz then oldsz else if ok then newsz else 0
      ensures newsz < oldsz ==> ok && flat == old(flat)
      ensures newsz >= oldsz && ok ==>
                Filling(old(mem), old(owner), old(flat), mem, owner, flat, root, Pages(oldsz),
                        Pages(newsz) - Pages(oldsz), WithValid(PTE_R + PTE_U + xperm))
      ensures if ok then starved == old(starved) else starved && flat == old(flat)
      ensures !ok ==> |old(list)| < 3 * (Pages(newsz) - Pages(oldsz))
    {
      hide FreeOk, SpacesOk, Filling, Took;
      ok := true;
      TookNothing(mem, owner, root);
      if newsz < oldsz {
        return oldsz, true;
      }
      var first := Pages(oldsz) * 4096;
      ghost var flags := WithValid(PTE_R + PTE_U + xperm);
      FillingNone(mem, owner, flat, root, Pages(oldsz), flags);
      var a := first;
      ghost var n := 0;
      while a < newsz
        invariant a == first + n * 4096 && 0 <= n <= Pages(newsz) - Pages(oldsz) && Ok() && stale == {}
                  && IsRoot(owner, root) && starved == old(starved)
        invariant Filling(old(mem), old(owner), old(flat), mem, owner, flat, root, Pages(oldsz), n, flags)
        invariant |list| >= |old(list)| - 3 * n
      {
        ghost var mem1, owner1, flat1 := mem, owner, flat;
        FillingMore(old(mem), old(owner), old(flat), mem, owner, flat, root, Pages(oldsz), n,
                    Pages(newsz) - Pages(oldsz), flags);
        var pa := MapNew(root, a, PTE_R + PTE_U + xperm, Filled(0));
        if pa == 0 {
          ghost var mem2, owner2, list2 := mem, owner, list;
          FillingTook(old(mem), old(owner), old(flat), mem1, owner1, flat1, mem2, owner2, root, Pages(oldsz), n, flags);
          var _ := Uvmdealloc(root, a, first);
          FillingUndone(old(mem), old(owner), old(flat), old(home), mem1, owner1, flat1, mem2, owner2, list2, mem,
                        owner, list, root, Pages(oldsz), n, flags);
          return 0, false;
        }
        FillingNext(old(mem), old(owner), old(flat), mem1, owner1, flat1, mem, owner, flat, root, Pages(oldsz), n,
                    flags, pa / 4096);
        a := a + 4096;
        n := n + 1;
      }
      FillingTook(old(mem), old(owner), old(flat), mem, owner, flat, mem, owner, root, Pages(oldsz), n, flags);
      r := newsz;
    }

    /** One entry of freewalk: the table below it is freed first, then the entry is cleared. */
    method FreeEntry(t: int, i: int, ghost mem0: seq<Page>, ghost owner0: seq<Use>)
      requires Ok() && 0 < t < |mem| && owner[t].Table? && StaleAbove(owner, stale, owner[t].level)
               && NoneUnder(flat, owner[t])
      requires 0 <= owner[t].level && 0 <= owner[t].prefix && 0 <= i < 512 && FreedPart(mem0, owner0, mem, owner, t, i)
      modifies this`mem, this`freelist, this`owner, this`list, this`home, this`stale
      ensures Ok() && stale == old(stale) && FreedPart(mem0, owner0, mem, owner, t, i + 1)
      ensures StaleAbove(owner, stale, owner[t].level)
      ensures !Valid(Entry(mem[t], i)) && forall j ::
                0 <= j < 512 && j != i ==> Entry(mem[t], j) == Entry(old(mem)[t], j)
      decreases owner[t].level, 0
    {
      hide FreeOk, SpacesOk, FreedPart, FreedBelow, StaleAbove, NoneUnder, Unreferenced;
      FreedPartSizes(mem0, owner0, mem, owner, t, i);
      var pte := Entry(mem[t], i);
      if Valid(pte) {
        EntryIsTable(mem, owner, flat, home, stale, t, i);
      }
      if Valid(pte) && !MapsPage(pte) {
        var c := Frame(pte);
        ghost var mem1, owner1, home1, stale1 := mem, owner, home, stale;
        ChildReady(mem, owner, flat, home, stale, t, i, c);
        NotStale(owner, stale, t, i);
        MarkStale(end, mem, owner, list, flat, home, stale, Edge(t, i));
        stale := stale + {Edge(t, i)};
        Freewalk(c);
        ChildGone(mem1, owner1, flat, home1, stale1, mem, owner, home, stale, t, i, c);
        StaleStill(mem1, owner1, mem, owner, stale1, owner1[c], owner[t].level);
        ClearKeeps(end, mem, owner, list, flat, home, stale, t, i);
        ghost var mem2 := mem;
        mem := mem[t := PutEntry(mem[t], i, 0)];
        stale := stale - {Edge(t, i)};
        assert stale == stale1;
        FreedPartNext(mem0, owner0, mem1, owner1, mem2, owner, mem, flat, home1, stale1, t, i, c);
      } else if Valid(pte) {
        assert false;  // panic("freewalk: leaf")
      } else {
        FreedPartSkip(mem0, owner0, mem, owner, flat, home, stale, t, i);
      }
    }

    /** freewalk: the tables of a subtree that maps nothing are freed, each once; its panic on a leaf is
        not reached. */
    method Freewalk(t: int)
      requires Ok() && 0 < t < |mem| && owner[t].Table? && StaleAbove(owner, stale, owner[t].level)
               && NoneUnder(flat, owner[t])
      requires 0 <= owner[t].level && 0 <= owner[t].prefix
      requires owner[t].level < 2 ==> Edge(owner[t].parent, owner[t].prefix % 512) in stale
      modifies this`mem, this`freelist, this`owner, this`list, this`home, this`stale
      ensures Ok() && stale == old(stale) && FreedBelow(old(mem), old(owner), mem, owner, old(owner)[t])
      decreases owner[t].level, 1
    {
      hide FreeOk, SpacesOk, FreedPart, FreedBelow, StaleAbove, NoneUnder;
      FreedPartNone(mem, owner, t);
      var i := 0;
      while i < 512
        invariant 0 <= i <= 512 && Ok() && stale == old(stale) && |mem| == |old(mem)| && owner[t] == old(owner)[t]
        invariant FreedPart(old(mem), old(owner), mem, owner, t, i) && StaleAbove(owner, stale, owner[t].level)
        invariant forall j :: 0 <= j < i ==> !Valid(Entry(mem[t], j))
      {
        FreeEntry(t, i, old(mem), old(owner));
        FreedPartSizes(old(mem), old(owner), mem, owner, t, i + 1);
        i := i + 1;
      }
      forall j | 0 <= j < 512 ensures Edge(t, j) !in stale {
        NotStale(owner, stale, t, j);
      }
      RetireKeeps(end, mem, owner, list, flat, home, stale, t);
      ghost var mem1, owner1 := mem, owner;
      home := home - {LocOf(owner[t])};
      owner := owner[t := Held];
      Kfree(t * 4096);
      FreedAll(old(mem), old(owner), flat, old(home), stale, mem1, owner1, mem, owner, t);
    }

    /** uvmfree: every page of the address space, user page or table, is free afterwards, each once, and
        no other page has changed hands. The pages at the top must have been unmapped before. */
    method Uvmfree(root: int, sz: int)
      requires Ok() && stale == {} && IsRoot(owner, root) && 0 <= sz <= TOP * 4096
      requires forall k :: k in flat && k.root == root ==> k.page < Pages(sz)
      modifies this`mem, this`freelist, this`owner, this`list, this`home, this`starved, this`flat, this`stale
      ensures Ok() && stale == {} && flat == map k | k in old(flat) && k.root != root :: old(flat)[k]
      ensures SpaceFreed(old(mem), old(owner), mem, owner, root) && starved == old(starved)
    {
      hide FreeOk, SpacesOk, Released, FreedBelow, Range;
      RootPlace(mem, owner, flat, home, root);
      UserPagesOnly(mem, owner, flat, home, root, Pages(sz));
      if sz > 0 {
        Uvmunmap(root, 0, Pages(sz), true);
      } else {
        RangeEmpty(flat, root, 0, Pages(sz));
        ReleasedEmpty(mem, owner, list, root, 0, Pages(sz));
      }
      RootPlace(mem, owner, flat, home, root);
      WithoutSpace(old(flat), flat, root, Pages(sz), owner[root]);
      ghost var mem1, owner1, list1 := mem, owner, list;
      AllBelowRoot(mem, owner, flat, home, root);
      Freewalk(root);
      SpaceIsFreed(old(mem), old(owner), old(list), mem1, owner1, list1, mem, owner, root, Pages(sz));
    }

    /** uvmcreate: an address space that maps nothing, or 0. */
    method Uvmcreate() returns (root: int)
      requires Ok() && stale == {}
      modifies this`mem, this`freelist, this`owner, this`list, this`home, this`starved
      ensures Ok() && Took(old(mem), old(owner), mem, owner, root)
      ensures root == 0 ==> starved && mem == old(mem) && owner == old(owner) && old(list) == []
      ensures root != 0 ==> |list| == |old(list)| - 1
      ensures root != 0 ==>
                IsRoot(owner, root) && |owner| == |old(owner)| && old(owner)[root].Free? && starved == old(starved)
                    && forall k :: k in flat ==> k.root != root
    {
      hide FreeOk, SpacesOk;
      var pa := Kalloc();
      if pa == 0 {
        return 0;
      }
      WritePage(pa, Filled(0));
      root := pa / 4096;
      NewRootKeeps(end, mem, owner, list, flat, home, root);
      owner := owner[root := Table(root, 2, 0, 0)];
      home := home[Loc(root, 2, 0) := root];
    }

    /** One turn of uvmcopy's loop. */
    method CopyPage(src: int, dst: int, i: int, ghost n: int, ghost mem0: seq<Page>, ghost owner0: seq<Use>,
                    ghost flat0: map<Key, int>, ghost home0: map<Loc, int>)
      returns (ok: bool)
      requires Ok() && stale == {} && IsRoot(owner, src) && IsRoot(owner, dst) && src != dst && i == n * 4096
               && 0 <= n < TOP
      requires Copied(mem0, owner0, flat0, mem, owner, flat, src, dst, n) && SpacesOk(mem0, owner0, flat0, home0, {})
      requires forall k :: k in flat0 && k.root == dst ==> n < k.page
      modifies this`mem, this`freelist, this`owner, this`list, this`home, this`starved, this`flat
      ensures Ok() && IsRoot(owner, src) && IsRoot(owner, dst)
      ensures ok ==> starved == old(starved) && Copied(mem0, owner0, flat0, mem, owner, flat, src, dst, n + 1)
      ensures !ok ==> starved && flat == old(flat) && Took(old(mem), old(owner), mem, owner, dst)
      ensures ok ==> |list| >= |old(list)| - (if Key(src, n) in old(flat) then 3 else 0)
      ensures !ok ==> Key(src, n) in old(flat) && |old(list)| < 3
    {
      hide FreeOk, SpacesOk, Copied, Took;
      CopiedFresh(mem0, owner0, flat0, mem, owner, flat, src, dst, n);
      ghost var mem1, owner1, flat1 := mem, owner, flat;
      var t, j := Walk(src, i, false);
      if t == 0 {
        CopiedSkip(mem0, owner0, flat0, mem, owner, flat, src, dst, n);
        return true;
      }
      LeafEntry(mem, owner, flat, home, t, j);
      var pte := Entry(mem[t], j);
      if !Valid(pte) {
        CopiedSkip(mem0, owner0, flat0, mem, owner, flat, src, dst, n);
        return true;
      }
      MappedAtKey(mem, owner, flat, home, Key(src, n));
      FlagsOfLeaf(mem, owner, flat, home, Key(src, n));
      var pa := MapNew(dst, i, Flags(pte), mem[Frame(pte)]);
      TookRoot(mem1, owner1, mem, owner, src, dst);
      ok := pa != 0;
      if ok {
        CopiedNext(mem0, owner0, flat0, home0, mem1, owner1, flat1, mem, owner, flat, src, dst, n, pa / 4096,
                   Flags(pte));
      }
    }

    /** uvmcopy: the child maps exactly the user pages that the parent maps, with equal flags and
        contents, on pages that were free; if there are fewer than three free pages for each, and memory runs
        out, the mapping is as before. */
    method Uvmcopy(src: int, dst: int, sz: int) returns (r: int)
      requires Ok() && stale == {} && IsRoot(owner, src) && IsRoot(owner, dst) && src != dst && 0 <= sz <= TOP * 4096
      requires forall k :: k in flat && k.root == dst ==> Pages(sz) <= k.page
      modifies this`mem, this`freelist, this`owner, this`list, this`home, this`starved, this`flat, this`stale
      ensures Ok() && stale == {} && Took(old(mem), old(owner), mem, owner, dst)
      ensures r == 0 || r == -1
      ensures r == 0 ==>
                starved == old(starved)
                    && Copied(old(mem), old(owner), old(flat), mem, owner, flat, src, dst, Pages(sz))
      ensures r == -1 ==> starved && flat == old(flat) && |old(list)| < 3 * MappedBelow(old(flat), src, Pages(sz))
    {
      hide FreeOk, SpacesOk, Copied, Took;
      CopiedNone(mem, owner, flat, src, dst);
      var i := 0;
      ghost var n := 0;
      while i < sz
        invariant i == n * 4096 && 0 <= n <= Pages(sz) && Ok() && stale == {} && starved == old(starved)
        invariant IsRoot(owner, src) && IsRoot(owner, dst)
        invariant Copied(old(mem), old(owner), old(flat), mem, owner, flat, src, dst, n)
        invariant |list| >= |old(list)| - 3 * MappedBelow(old(flat), src, n)
      {
        ghost var mem1, owner1, flat1 := mem, owner, flat;
        MoreMapped(old(flat), src, n + 1, Pages(sz));
        CopiedSource(old(mem), old(owner), old(flat), mem, owner, flat, src, dst, n);
        var ok := CopyPage(src, dst, i, n, old(mem), old(owner), old(flat), old(home));
        if !ok {
          ghost var mem2, owner2, list2 := mem, owner, list;
          Uvmunmap(dst, 0, i / 4096, true);
          CopiedUndone(old(mem), old(owner), old(flat), old(home), mem1, owner1, flat1, mem2, owner2, list2, mem, owner,
                       list, src, dst, n);
          return -1;
        }
        i := i + 4096;
        n := n + 1;
      }
      CopiedTook(old(mem), old(owner), old(flat), mem, owner, flat, src, dst, n);
      r := 0;
    }
  }
}
