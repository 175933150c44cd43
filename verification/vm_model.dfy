/** Who uses each physical page, and the flat page map that a three-level Sv39 tree stands for. */
module VmModel {
  import opened VmFormat

  /** The one use of a physical page. `Outside` is the kernel image; `Held` is a page that kalloc
      handed out and that is in no user address space. A table covers the virtual pages whose number
      starts with `prefix`, and is entered from `parent` unless it is a root. */
  datatype Use =
    | Outside
    | Free(pos: int)
    | Held
    | Table(root: int, level: int, prefix: int, parent: int)
    | Mapped(root: int, page: int)

  /** A virtual page of the address space with this root. */
  datatype Key = Key(root: int, page: int)

  /** A place in the tree with this root; `home` says which page holds the table there. */
  datatype Loc = Loc(root: int, level: int, prefix: int)

  /** Entry `i` of table `t`. A stale entry is one that the kernel is about to clear. */
  datatype Edge = Edge(t: int, i: int)

  // ----- the free list: a stack threaded through the pages themselves

  function Head(list: seq<int>): (a: int) {
    if list == [] then 0 else list[|list| - 1] * 4096
  }

  ghost predicate FreeOk(mem: seq<Page>, owner: seq<Use>, list: seq<int>)
    requires |owner| == |mem|
  {
    && (forall n :: 0 <= n < |list| ==> 0 < list[n] < |mem|)
    && (forall n {:trigger owner[list[n]]} :: 0 <= n < |list| ==> owner[list[n]] == Free(n))
    && (forall n {:trigger mem[list[n]]} :: 0 <= n < |list| ==> Entry(mem[list[n]], 0) == Head(list[..n]))
    && (forall f :: 0 <= f < |owner| && owner[f].Free? ==> 0 <= owner[f].pos < |list| && list[owner[f].pos] == f)
  }

  /** The pages below `end` belong to the kernel image, for ever. */
  ghost predicate RangeOk(owner: seq<Use>, end: int) {
    0 < end <= |owner| <= FRAMES && forall f :: 0 <= f < |owner| ==> (owner[f].Outside? <==> f < end)
  }

  // ----- the page-table trees

  ghost predicate EntryOk(owner: seq<Use>, flat: map<Key, int>, t: int, root: int, level: int, prefix: int, i: int,
                          e: int) {
    if level > 0 then
      && Flags(e) == 1 && 0 < Frame(e) < |owner|
      && owner[Frame(e)] == Table(root, level - 1, prefix * 512 + i, t)
    else
      Key(root, prefix * 512 + i) in flat && flat[Key(root, prefix * 512 + i)] == e
  }

  /** The table's place: it is the root, or its parent's entry names it. */
  ghost predicate PlaceOk(mem: seq<Page>, owner: seq<Use>, home: map<Loc, int>, stale: set<Edge>, t: int)
    requires |owner| == |mem| && 0 <= t < |owner| && owner[t].Table?
  {
    var u := owner[t];
    && 0 < t && 0 <= u.level <= 2 && 0 <= u.prefix
    && (u.level == 2 ==> t == u.root && u.prefix == 0)
    && (u.level < 2 ==>
          && 0 < u.parent < |owner| && owner[u.parent].Table? && owner[u.parent].root == u.root
          && owner[u.parent].level == u.level + 1 && owner[u.parent].prefix == u.prefix / 512
          && (Edge(u.parent, u.prefix % 512) !in stale ==> Entry(mem[u.parent], u.prefix % 512) == Pte(t, 1)))
    && Loc(u.root, u.level, u.prefix) in home && home[Loc(u.root, u.level, u.prefix)] == t
  }

  ghost predicate EntriesOk(mem: seq<Page>, owner: seq<Use>, flat: map<Key, int>, stale: set<Edge>, t: int)
    requires |owner| == |mem| && 0 <= t < |owner| && owner[t].Table?
  {
    forall i {:trigger Entry(mem[t], i)} :: 0 <= i < 512 && Edge(t, i) !in stale && Valid(Entry(mem[t], i)) ==>
      EntryOk(owner, flat, t, owner[t].root, owner[t].level, owner[t].prefix, i, Entry(mem[t], i))
  }

  ghost predicate TablesOk(mem: seq<Page>, owner: seq<Use>, flat: map<Key, int>, home: map<Loc, int>, stale: set<Edge>)
    requires |owner| == |mem|
  {
    forall t {:trigger PlaceOk(mem, owner, home, stale, t)} {:trigger EntriesOk(mem, owner, flat, stale, t)} ::
      0 <= t < |owner| && owner[t].Table? ==>
      PlaceOk(mem, owner, home, stale, t) && EntriesOk(mem, owner, flat, stale, t)
  }

  ghost predicate HomeOk(owner: seq<Use>, home: map<Loc, int>) {
    forall k :: k in home ==>
      && 0 < home[k] < |owner|
      && owner[home[k]].Table? && owner[home[k]].root == k.root && owner[home[k]].level == k.level
      && owner[home[k]].prefix == k.prefix
  }

  // ----- the flat map

  function Block(k: Key): (b: Loc) {
    Loc(k.root, 0, k.page / 512)
  }

  ghost predicate FlatOk(mem: seq<Page>, flat: map<Key, int>, home: map<Loc, int>) {
    forall k :: k in flat ==>
      && 0 <= k.page < MAXPAGE && Valid(flat[k]) && MapsPage(flat[k])
      && Block(k) in home && 0 <= home[Block(k)] < |mem| && Entry(mem[home[Block(k)]], k.page % 512) == flat[k]
  }

  /** A user page is mapped at exactly one place, and every user mapping has a page of its own. */
  ghost predicate MappedOk(owner: seq<Use>, flat: map<Key, int>) {
    && (forall k :: k in flat && k.page < TOP ==>
          0 < Frame(flat[k]) < |owner| && owner[Frame(flat[k])] == Mapped(k.root, k.page))
    && (forall f :: 0 <= f < |owner| && owner[f].Mapped? ==>
          && Key(owner[f].root, owner[f].page) in flat && owner[f].page < TOP
          && Frame(flat[Key(owner[f].root, owner[f].page)]) == f)
  }

  /** The parts of the invariant that say nothing about free or held pages. */
  ghost predicate SpacesOk(mem: seq<Page>, owner: seq<Use>, flat: map<Key, int>, home: map<Loc, int>,
                           stale: set<Edge>) {
    && |owner| == |mem|
    && TablesOk(mem, owner, flat, home, stale) && HomeOk(owner, home) && FlatOk(mem, flat, home)
    && MappedOk(owner, flat)
  }

  ghost predicate VmOk(end: int, mem: seq<Page>, owner: seq<Use>, list: seq<int>, flat: map<Key, int>, home: map<Loc,
                       int>, stale: set<Edge>) {
    && |owner| == |mem| && RangeOk(owner, end)
    && FreeOk(mem, owner, list)
    && SpacesOk(mem, owner, flat, home, stale)
  }

  lemma NoSpacesYet(end: int, mem: seq<Page>, owner: seq<Use>)
    requires 0 < end <= |mem| == |owner| <= FRAMES && forall f ::
               0 <= f < |owner| ==> owner[f] == if f < end then Outside else Held
    ensures VmOk(end, mem, owner, [], map[], map[], {})
  {
  }

  ghost predicate IsRoot(owner: seq<Use>, r: int) {
    0 < r < |owner| && owner[r].Table? && owner[r].level == 2
  }

  // ----- what the hardware sees (section 4.4.1 of the RISC-V privileged architecture: Sv39)

  /** The leaf entry that a walk from `root` finds for a virtual page, 0 if there is none. */
  function Lookup(mem: seq<Page>, root: int, page: int): (e: int)
    requires 0 <= root < |mem| && 0 <= page < MAXPAGE
  {
    var e2 := Entry(mem[root], page / 0x4_0000);
    if !Valid(e2) || !(0 <= Frame(e2) < |mem|) then 0 else
      var e1 := Entry(mem[Frame(e2)], page / 512 % 512);
      if !Valid(e1) || !(0 <= Frame(e1) < |mem|) then 0 else
        var e0 := Entry(mem[Frame(e1)], page % 512);
        if Valid(e0) then e0 else 0
  }

  lemma PageParts(page: int)
    requires 0 <= page < MAXPAGE
    ensures page / 512 / 512 == page / 0x4_0000 < 512 && page / 0x4_0000 % 512 == page / 0x4_0000
            && page / 0x4_0000 / 512 == 0
    ensures page / 0x4_0000 * 512 + page / 512 % 512 == page / 512
    ensures page / 512 * 512 + page % 512 == page
  {
  }

  /** The tree refines the flat map: every walk finds exactly what the map says. */
  lemma TreeRefinesMap(end: int, mem: seq<Page>, owner: seq<Use>, list: seq<int>, flat: map<Key, int>, home: map<Loc,
                       int>, root: int, page: int)
    requires VmOk(end, mem, owner, list, flat, home, {}) && IsRoot(owner, root) && 0 <= page < MAXPAGE
    ensures Lookup(mem, root, page) == if Key(root, page) in flat then flat[Key(root, page)] else 0
  {
    FoundIsMapped(mem, owner, flat, home, root, page);
    if Key(root, page) in flat {
      MappedIsFound(mem, owner, flat, home, root, page);
    }
  }

  lemma FoundIsMapped(mem: seq<Page>, owner: seq<Use>, flat: map<Key, int>, home: map<Loc, int>, root: int, page: int)
    requires |owner| == |mem| && TablesOk(mem, owner, flat, home, {}) && IsRoot(owner, root) && 0 <= page < MAXPAGE
    ensures Lookup(mem, root, page) != 0 ==> Key(root, page) in flat && flat[Key(root, page)] == Lookup(mem, root, page)
  {
    PageParts(page);
    assert PlaceOk(mem, owner, home, {}, root) && EntriesOk(mem, owner, flat, {}, root);
    var e2 := Entry(mem[root], page / 0x4_0000);
    if Valid(e2) {
      assert EntryOk(owner, flat, root, root, 2, 0, page / 0x4_0000, e2);
      var t1 := Frame(e2);
      assert EntriesOk(mem, owner, flat, {}, t1);
      var e1 := Entry(mem[t1], page / 512 % 512);
      if Valid(e1) {
        assert EntryOk(owner, flat, t1, root, 1, page / 0x4_0000, page / 512 % 512, e1);
        assert EntriesOk(mem, owner, flat, {}, Frame(e1));
      }
    }
  }

  /** Above every mapped page there is a chain of tables from the root. */
  lemma MappedIsFound(mem: seq<Page>, owner: seq<Use>, flat: map<Key, int>, home: map<Loc, int>, root: int, page: int)
    requires |owner| == |mem| && TablesOk(mem, owner, flat, home, {}) && HomeOk(owner, home) && FlatOk(mem, flat, home)
    requires IsRoot(owner, root) && Key(root, page) in flat
    ensures 0 <= page < MAXPAGE && Lookup(mem, root, page) == flat[Key(root, page)]
  {
    PageParts(page);
    var t0 := home[Block(Key(root, page))];
    assert PlaceOk(mem, owner, home, {}, t0);
    var t1 := owner[t0].parent;
    assert PlaceOk(mem, owner, home, {}, t1) && PlaceOk(mem, owner, home, {}, root);
    assert PlaceOk(mem, owner, home, {}, owner[t1].parent);
    PteParts(t1, 1);
    PteParts(t0, 1);
  }

  // ----- which changes keep the invariant

  predicate Spare(u: Use) {
    u.Free? || u.Held?
  }

  /** A page that is no table may be written, and a spare one may move between kalloc's list and its users. */
  predicate Harmless(was: Use, u: Use) {
    !was.Table? && (u == was || (Spare(was) && Spare(u)))
  }

  lemma HarmlessTable(mem: seq<Page>, owner: seq<Use>, flat: map<Key, int>, home: map<Loc, int>, stale: set<Edge>,
                      f: int, u: Use, p: Page, t: int)
    requires |owner| == |mem| && 0 <= f < |mem| && Harmless(owner[f], u) && 0 <= t < |mem| && owner[t].Table?
    requires PlaceOk(mem, owner, home, stale, t) && EntriesOk(mem, owner, flat, stale, t)
    ensures PlaceOk(mem[f := p], owner[f := u], home, stale, t) && EntriesOk(mem[f := p], owner[f := u], flat, stale, t)
  {
  }

  lemma HarmlessMap(mem: seq<Page>, owner: seq<Use>, flat: map<Key, int>, home: map<Loc, int>, f: int, u: Use, p: Page)
    requires |owner| == |mem| && HomeOk(owner, home) && FlatOk(mem, flat, home) && 0 <= f < |mem|
             && Harmless(owner[f], u)
    ensures HomeOk(owner[f := u], home) && FlatOk(mem[f := p], flat, home)
  {
    forall k | k in flat ensures Entry(mem[f := p][home[Block(k)]], k.page % 512) == flat[k] {
      assert home[Block(k)] != f;
    }
  }

  lemma HarmlessMapped(owner: seq<Use>, flat: map<Key, int>, f: int, u: Use)
    requires MappedOk(owner, flat) && 0 <= f < |owner| && Harmless(owner[f], u)
    ensures MappedOk(owner[f := u], flat)
  {
  }

  lemma HarmlessChange(mem: seq<Page>, owner: seq<Use>, flat: map<Key, int>, home: map<Loc, int>, stale: set<Edge>,
                       f: int, u: Use, p: Page)
    requires SpacesOk(mem, owner, flat, home, stale) && 0 <= f < |mem| && Harmless(owner[f], u)
    ensures SpacesOk(mem[f := p], owner[f := u], flat, home, stale)
  {
    hide FlatOk, MappedOk, HomeOk, PlaceOk, EntriesOk;
    HarmlessMap(mem, owner, flat, home, f, u, p);
    HarmlessMapped(owner, flat, f, u);
    var mem', owner' := mem[f := p], owner[f := u];
    forall t | 0 <= t < |owner| && owner'[t].Table?
      ensures PlaceOk(mem', owner', home, stale, t) && EntriesOk(mem', owner', flat, stale, t) {
      assert PlaceOk(mem, owner, home, stale, t) && EntriesOk(mem, owner, flat, stale, t);
      HarmlessTable(mem, owner, flat, home, stale, f, u, p, t);
    }
  }

  /** The bytes of a mapped or held page are its user's. */
  lemma DataWrite(end: int, mem: seq<Page>, owner: seq<Use>, list: seq<int>, flat: map<Key, int>, home: map<Loc, int>,
                  stale: set<Edge>, f: int, p: Page)
    requires VmOk(end, mem, owner, list, flat, home, stale) && 0 <= f < |mem| && (owner[f].Mapped? || owner[f].Held?)
    ensures VmOk(end, mem[f := p], owner, list, flat, home, stale)
  {
    HarmlessChange(mem, owner, flat, home, stale, f, owner[f], p);
    assert owner[f := owner[f]] == owner;
    FreeElsewhere(mem, owner, list, f, owner[f], p);
  }

  lemma FreeElsewhere(mem: seq<Page>, owner: seq<Use>, list: seq<int>, f: int, u: Use, p: Page)
    requires |owner| == |mem| && FreeOk(mem, owner, list) && 0 <= f < |mem| && !owner[f].Free? && !u.Free?
    ensures FreeOk(mem[f := p], owner[f := u], list)
  {
    forall n | 0 <= n < |list|
      ensures owner[f := u][list[n]] == Free(n) && Entry(mem[f := p][list[n]], 0) == Head(list[..n]) {
      assert owner[list[n]] == Free(n) && Entry(mem[list[n]], 0) == Head(list[..n]);
    }
  }

  lemma PushFree(mem: seq<Page>, owner: seq<Use>, list: seq<int>, f: int, p: Page)
    requires |owner| == |mem| && FreeOk(mem, owner, list) && 0 < f < |mem| && owner[f].Held?
             && Entry(p, 0) == Head(list)
    ensures FreeOk(mem[f := p], owner[f := Free(|list|)], list + [f])
  {
    var mem', list' := mem[f := p], list + [f];
    forall n | 0 <= n < |list'| ensures Entry(mem'[list'[n]], 0) == Head(list'[..n]) {
      if n < |list| {
        assert owner[list[n]] == Free(n) && Entry(mem[list[n]], 0) == Head(list[..n]);
        assert list'[..n] == list[..n];
      } else {
        assert list'[..n] == list;
      }
    }
    forall n | 0 <= n < |list'| ensures owner[f := Free(|list|)][list'[n]] == Free(n) {
      assert n < |list| ==> owner[list[n]] == Free(n);
    }
  }

  lemma Top(mem: seq<Page>, owner: seq<Use>, list: seq<int>)
    requires |owner| == |mem| && FreeOk(mem, owner, list) && list != []
    ensures var f := list[|list| - 1]; 0 < f < |mem| && owner[f].Free? && Entry(mem[f], 0) == Head(list[..|list| - 1])
    ensures Head(list) / 4096 == list[|list| - 1] && Head(list) != 0
  {
    var n := |list| - 1;
    assert owner[list[n]] == Free(n) && Entry(mem[list[n]], 0) == Head(list[..n]);
  }

  lemma PopFree(mem: seq<Page>, owner: seq<Use>, list: seq<int>, n: int, p: Page)
    requires |owner| == |mem| && FreeOk(mem, owner, list) && 0 <= n == |list| - 1 && 0 <= list[n] < |mem|
    ensures FreeOk(mem[list[n] := p], owner[list[n] := Held], list[..n])
  {
    var f, rest := list[n], list[..n];
    assert owner[list[n]] == Free(n);
    forall m | 0 <= m < |rest|
      ensures owner[f := Held][rest[m]] == Free(m) && Entry(mem[f := p][rest[m]], 0) == Head(rest[..m]) {
      assert owner[list[m]] == Free(m) && Entry(mem[list[m]], 0) == Head(list[..m]);
      assert rest[..m] == list[..m];
    }
    forall g | 0 <= g < |owner| && owner[f := Held][g].Free? ensures owner[g].pos < n {
      assert list[owner[g].pos] == g;
    }
  }

  /** kfree pushes a held page. */
  lemma PushKeeps(end: int, mem: seq<Page>, owner: seq<Use>, list: seq<int>, flat: map<Key, int>, home: map<Loc, int>,
                  stale: set<Edge>, f: int, p: Page)
    requires VmOk(end, mem, owner, list, flat, home, stale) && 0 <= f < |mem| && owner[f].Held?
             && Entry(p, 0) == Head(list)
    ensures VmOk(end, mem[f := p], owner[f := Free(|list|)], list + [f], flat, home, stale)
  {
    hide SpacesOk, FreeOk;
    PushFree(mem, owner, list, f, p);
    HarmlessChange(mem, owner, flat, home, stale, f, Free(|list|), p);
  }

  /** kalloc pops the page on top of the list, whose first word is the new head. */
  lemma PopKeeps(end: int, mem: seq<Page>, owner: seq<Use>, list: seq<int>, flat: map<Key, int>, home: map<Loc, int>,
                 stale: set<Edge>, p: Page)
    requires VmOk(end, mem, owner, list, flat, home, stale) && list != []
    ensures var f, rest := list[|list| - 1], list[..|list| - 1];
            && 0 < f < |mem| && owner[f].Free? && Head(list) / 4096 == f && Head(list) != 0
            && Entry(mem[f], 0) == Head(rest)
            && VmOk(end, mem[f := p], owner[f := Held], rest, flat, home, stale)
  {
    hide SpacesOk, FreeOk;
    Top(mem, owner, list);
    PopFree(mem, owner, list, |list| - 1, p);
    HarmlessChange(mem, owner, flat, home, stale, list[|list| - 1], Held, p);
  }

  // ----- walk adds an empty table below an unused entry

  function NewTable(u: Use, t: int, i: int): (v: Use)
    requires u.Table?
  {
    Table(u.root, u.level - 1, u.prefix * 512 + i, t)
  }

  function LocOf(u: Use): (l: Loc)
    requires u.Table?
  {
    Loc(u.root, u.level, u.prefix)
  }

  /** What walk needs: a table above the last level with an unused entry, and a cleared page. */
  ghost predicate CanAdd(mem: seq<Page>, owner: seq<Use>, t: int, i: int, g: int) {
    && |owner| == |mem| <= FRAMES
    && 0 < t < |mem| && owner[t].Table? && owner[t].level > 0 && owner[t].prefix >= 0 && 0 <= i < 512
    && !Valid(Entry(mem[t], i))
    && 0 < g < |mem| && owner[g].Held? && mem[g] == Filled(0)
  }

  function AddedMem(mem: seq<Page>, t: int, i: int, g: int): (r: seq<Page>)
    requires 0 <= t < |mem| && 0 <= i < 512 && 0 <= g < FRAMES
  {
    mem[t := PutEntry(mem[t], i, Pte(g, 1))]
  }

  /** Under an unused entry there is no table yet. */
  lemma NoHomeYet(mem: seq<Page>, owner: seq<Use>, flat: map<Key, int>, home: map<Loc, int>, t: int, i: int)
    requires |owner| == |mem| && TablesOk(mem, owner, flat, home, {}) && HomeOk(owner, home)
    requires 0 < t < |mem| && owner[t].Table? && owner[t].level > 0 && 0 <= i < 512 && !Valid(Entry(mem[t], i))
    ensures LocOf(NewTable(owner[t], t, i)) !in home
  {
    var l := LocOf(NewTable(owner[t], t, i));
    if l in home {
      assert PlaceOk(mem, owner, home, {}, home[l]) && PlaceOk(mem, owner, home, {}, t);
      assert l.prefix / 512 == owner[t].prefix && l.prefix % 512 == i;
      assert PlaceOk(mem, owner, home, {}, owner[home[l]].parent);
      PteParts(home[l], 1);
      assert false;
    }
  }

  lemma AddPlace(mem: seq<Page>, owner: seq<Use>, home: map<Loc, int>, t: int, i: int, g: int, x: int)
    requires CanAdd(mem, owner, t, i, g) && 0 <= x < |mem| && owner[x].Table? && PlaceOk(mem, owner, home, {}, x)
    requires LocOf(NewTable(owner[t], t, i)) !in home
    ensures PlaceOk(AddedMem(mem, t, i, g), owner[g := NewTable(owner[t], t, i)],
                    home[LocOf(NewTable(owner[t], t, i)) := g], {}, x)
  {
    PteParts(x, 1);
  }

  lemma AddEntries(mem: seq<Page>, owner: seq<Use>, flat: map<Key, int>, t: int, i: int, g: int, x: int)
    requires CanAdd(mem, owner, t, i, g) && 0 <= x < |mem| && owner[x].Table? && EntriesOk(mem, owner, flat, {}, x)
    ensures EntriesOk(AddedMem(mem, t, i, g), owner[g := NewTable(owner[t], t, i)], flat, {}, x)
  {
    PteParts(g, 1);
    var mem', owner' := AddedMem(mem, t, i, g), owner[g := NewTable(owner[t], t, i)];
    forall j | 0 <= j < 512 && Valid(Entry(mem'[x], j))
      ensures EntryOk(owner', flat, x, owner[x].root, owner[x].level, owner[x].prefix, j, Entry(mem'[x], j))
    {
      if x == t && j == i {
      } else {
        assert Entry(mem'[x], j) == Entry(mem[x], j);
      }
    }
  }

  lemma AddNew(mem: seq<Page>, owner: seq<Use>, flat: map<Key, int>, home: map<Loc, int>, t: int, i: int, g: int)
    requires CanAdd(mem, owner, t, i, g) && owner[t].level <= 2
    ensures PlaceOk(AddedMem(mem, t, i, g), owner[g := NewTable(owner[t], t, i)],
                    home[LocOf(NewTable(owner[t], t, i)) := g], {}, g)
    ensures EntriesOk(AddedMem(mem, t, i, g), owner[g := NewTable(owner[t], t, i)], flat, {}, g)
  {
    ZeroEntries();
    assert (owner[t].prefix * 512 + i) / 512 == owner[t].prefix && (owner[t].prefix * 512 + i) % 512 == i;
  }

  lemma AddMap(mem: seq<Page>, owner: seq<Use>, flat: map<Key, int>, home: map<Loc, int>, t: int, i: int, g: int)
    requires CanAdd(mem, owner, t, i, g) && HomeOk(owner, home) && FlatOk(mem, flat, home)
    requires LocOf(NewTable(owner[t], t, i)) !in home
    ensures HomeOk(owner[g := NewTable(owner[t], t, i)], home[LocOf(NewTable(owner[t], t, i)) := g])
    ensures FlatOk(AddedMem(mem, t, i, g), flat, home[LocOf(NewTable(owner[t], t, i)) := g])
  {
    forall k | k in flat ensures Entry(AddedMem(mem, t, i, g)[home[Block(k)]], k.page % 512) == flat[k] {
      assert home[Block(k)] != t;
    }
  }

  lemma AddMapped(owner: seq<Use>, flat: map<Key, int>, g: int, u: Use)
    requires MappedOk(owner, flat) && 0 <= g < |owner| && owner[g].Held? && u.Table?
    ensures MappedOk(owner[g := u], flat)
  {
  }

  /** The new table changes no address space: the flat map is the same. */
  lemma AddTableKeeps(end: int, mem: seq<Page>, owner: seq<Use>, list: seq<int>, flat: map<Key, int>, home: map<Loc,
                      int>, t: int, i: int, g: int)
    requires VmOk(end, mem, owner, list, flat, home, {}) && CanAdd(mem, owner, t, i, g)
    ensures VmOk(end, AddedMem(mem, t, i, g), owner[g := NewTable(owner[t], t, i)], list, flat,
                 home[LocOf(NewTable(owner[t], t, i)) := g], {})
  {
    hide FlatOk, MappedOk, HomeOk, EntriesOk, FreeOk;
    var mem', owner', home' := AddedMem(mem, t, i, g), owner[g := NewTable(owner[t], t, i)],
        home[LocOf(NewTable(owner[t], t, i)) := g];
    assert PlaceOk(mem, owner, home, {}, t);
    NoHomeYet(mem, owner, flat, home, t, i);
    forall x | 0 <= x < |mem| && owner'[x].Table?
      ensures PlaceOk(mem', owner', home', {}, x) && EntriesOk(mem', owner', flat, {}, x) {
      if x == g {
        AddNew(mem, owner, flat, home, t, i, g);
      } else {
        assert PlaceOk(mem, owner, home, {}, x) && EntriesOk(mem, owner, flat, {}, x);
        AddPlace(mem, owner, home, t, i, g, x);
        AddEntries(mem, owner, flat, t, i, g, x);
      }
    }
    AddMap(mem, owner, flat, home, t, i, g);
    AddMapped(owner, flat, g, NewTable(owner[t], t, i));
    FreeElsewhere(mem, owner, list, t, owner[t], mem'[t]);
    assert owner[t := owner[t]] == owner && mem'[g := mem'[g]] == mem';
    FreeElsewhere(mem', owner, list, g, owner'[g], mem'[g]);
  }

  // ----- mappages fills an unused leaf entry

  function PageOf(u: Use, i: int): (k: Key)
    requires u.Table?
  {
    Key(u.root, u.prefix * 512 + i)
  }

  /** What mappages needs: an unused entry of a last-level table; for a user page, a held page to map. */
  ghost predicate CanMap(mem: seq<Page>, owner: seq<Use>, t: int, i: int, e: int) {
    && |owner| == |mem|
    && 0 < t < |mem| && owner[t].Table? && owner[t].level == 0 && 0 <= i < 512 && !Valid(Entry(mem[t], i))
    && 0 <= PageOf(owner[t], i).page < MAXPAGE
    && 0 <= e < 0x1_0000_0000_0000_0000 && Valid(e) && MapsPage(e)
    && (PageOf(owner[t], i).page < TOP ==> 0 < Frame(e) < |mem| && owner[Frame(e)].Held?)
  }

  function MapOwner(owner: seq<Use>, k: Key, e: int): (r: seq<Use>) {
    if k.page < TOP && 0 <= Frame(e) < |owner| then owner[Frame(e) := Mapped(k.root, k.page)] else owner
  }

  lemma Unmapped(mem: seq<Page>, owner: seq<Use>, flat: map<Key, int>, home: map<Loc, int>, stale: set<Edge>, t: int,
                 i: int)
    requires |owner| == |mem| && FlatOk(mem, flat, home) && 0 <= t < |mem| && owner[t].Table?
             && PlaceOk(mem, owner, home, stale, t)
    requires owner[t].level == 0 && 0 <= i < 512 && !Valid(Entry(mem[t], i))
    ensures PageOf(owner[t], i) !in flat
  {
    var k := PageOf(owner[t], i);
    assert k.page / 512 == owner[t].prefix && k.page % 512 == i;
  }

  /** No two leaf entries are for the same virtual page. */
  lemma SamePage(mem: seq<Page>, owner: seq<Use>, home: map<Loc, int>, t: int, i: int, x: int, j: int)
    requires |owner| == |mem| && 0 <= t < |mem| && owner[t].Table? && 0 <= x < |mem| && owner[x].Table?
    requires PlaceOk(mem, owner, home, {}, t) && PlaceOk(mem, owner, home, {}, x) && owner[t].level == owner[x].level
    requires 0 <= i < 512 && 0 <= j < 512 && PageOf(owner[x], j) == PageOf(owner[t], i)
    ensures x == t && j == i
  {
    assert owner[x].prefix == owner[t].prefix;
  }

  lemma MapTable(mem: seq<Page>, owner: seq<Use>, flat: map<Key, int>, home: map<Loc, int>, t: int, i: int, e: int,
                 x: int)
    requires CanMap(mem, owner, t, i, e) && PlaceOk(mem, owner, home, {}, t) && 0 <= x < |mem| && owner[x].Table?
    requires PlaceOk(mem, owner, home, {}, x) && EntriesOk(mem, owner, flat, {}, x)
    ensures var k := PageOf(owner[t], i);
            var owner' := MapOwner(owner, k, e); var mem' := mem[t := PutEntry(mem[t], i, e)];
            |owner'| == |mem'| && owner'[x].Table? && PlaceOk(mem', owner', home, {}, x)
                && EntriesOk(mem', owner', flat[k := e], {}, x)
  {
    var k := PageOf(owner[t], i);
    var mem', owner' := mem[t := PutEntry(mem[t], i, e)], MapOwner(owner, k, e);
    forall j | 0 <= j < 512 && Valid(Entry(mem'[x], j))
      ensures EntryOk(owner', flat[k := e], x, owner[x].root, owner[x].level, owner[x].prefix, j, Entry(mem'[x], j))
    {
      if x == t && j == i {
      } else {
        assert Entry(mem'[x], j) == Entry(mem[x], j);
        assert owner[x].level == 0 ==> PageOf(owner[x], j) != k by {
          if owner[x].level == 0 && PageOf(owner[x], j) == k {
            SamePage(mem, owner, home, t, i, x, j);
          }
        }
      }
    }
  }

  lemma MapMap(mem: seq<Page>, owner: seq<Use>, flat: map<Key, int>, home: map<Loc, int>, t: int, i: int, e: int)
    requires CanMap(mem, owner, t, i, e) && PlaceOk(mem, owner, home, {}, t) && HomeOk(owner, home)
             && FlatOk(mem, flat, home)
    ensures FlatOk(mem[t := PutEntry(mem[t], i, e)], flat[PageOf(owner[t], i) := e], home)
  {
    var k := PageOf(owner[t], i);
    var mem' := mem[t := PutEntry(mem[t], i, e)];
    assert k.page / 512 == owner[t].prefix && k.page % 512 == i;
    forall k' | k' in flat && k' != k ensures Entry(mem'[home[Block(k')]], k'.page % 512) == flat[k'] {
      assert home[Block(k')] == t ==> Block(k') == Block(k);
    }
  }

  lemma MapMapped(owner: seq<Use>, flat: map<Key, int>, home: map<Loc, int>, k: Key, e: int)
    requires HomeOk(owner, home) && MappedOk(owner, flat) && k !in flat
    requires k.page < TOP ==> 0 < Frame(e) < |owner| && owner[Frame(e)].Held?
    ensures MappedOk(MapOwner(owner, k, e), flat[k := e]) && HomeOk(MapOwner(owner, k, e), home)
  {
  }

  /** The flat map gains exactly this page. */
  lemma MapKeeps(end: int, mem: seq<Page>, owner: seq<Use>, list: seq<int>, flat: map<Key, int>, home: map<Loc, int>,
                 t: int, i: int, e: int)
    requires VmOk(end, mem, owner, list, flat, home, {}) && CanMap(mem, owner, t, i, e)
    ensures var k := PageOf(owner[t], i);
            k !in flat && VmOk(end, mem[t := PutEntry(mem[t], i, e)], MapOwner(owner, k, e), list, flat[k := e], home,
                               {})
  {
    hide FlatOk, MappedOk, HomeOk, EntriesOk, FreeOk, PlaceOk;
    var k := PageOf(owner[t], i);
    var mem', owner' := mem[t := PutEntry(mem[t], i, e)], MapOwner(owner, k, e);
    assert PlaceOk(mem, owner, home, {}, t);
    Unmapped(mem, owner, flat, home, {}, t, i);
    forall x | 0 <= x < |mem| && owner'[x].Table?
      ensures PlaceOk(mem', owner', home, {}, x) && EntriesOk(mem', owner', flat[k := e], {}, x) {
      assert PlaceOk(mem, owner, home, {}, x) && EntriesOk(mem, owner, flat, {}, x);
      MapTable(mem, owner, flat, home, t, i, e, x);
    }
    MapMap(mem, owner, flat, home, t, i, e);
    MapMapped(owner, flat, home, k, e);
    FreeElsewhere(mem, owner, list, t, owner[t], mem'[t]);
    assert owner[t := owner[t]] == owner;
    if k.page < TOP {
      assert mem'[Frame(e) := mem'[Frame(e)]] == mem';
      FreeElsewhere(mem', owner, list, Frame(e), owner'[Frame(e)], mem'[Frame(e)]);
    }
  }

  // ----- uvmunmap forgets a page, then clears its entry

  function UnmapOwner(owner: seq<Use>, k: Key, e: int): (r: seq<Use>) {
    if k.page < TOP && 0 <= Frame(e) < |owner| then owner[Frame(e) := Held] else owner
  }

  lemma DetachTable(mem: seq<Page>, owner: seq<Use>, flat: map<Key, int>, home: map<Loc, int>, t: int, i: int, x: int)
    requires |owner| == |mem| && 0 <= t < |mem| && owner[t].Table? && owner[t].level == 0 && 0 <= i < 512
             && PageOf(owner[t], i) in flat
    requires PlaceOk(mem, owner, home, {}, t) && MappedOk(owner, flat) && 0 <= x < |mem| && owner[x].Table?
    requires PlaceOk(mem, owner, home, {}, x) && EntriesOk(mem, owner, flat, {}, x)
    ensures var k := PageOf(owner[t], i); var owner' := UnmapOwner(owner, k, flat[k]);
            owner'[x].Table? && PlaceOk(mem, owner', home, {Edge(t, i)}, x)
                && EntriesOk(mem, owner', flat - {k}, {Edge(t, i)}, x)
  {
    var k := PageOf(owner[t], i);
    var owner' := UnmapOwner(owner, k, flat[k]);
    forall j | 0 <= j < 512 && Valid(Entry(mem[x], j)) && Edge(x, j) != Edge(t, i)
      ensures EntryOk(owner', flat - {k}, x, owner[x].root, owner[x].level, owner[x].prefix, j, Entry(mem[x], j))
    {
      assert owner[x].level == 0 ==> PageOf(owner[x], j) != k by {
        if owner[x].level == 0 && PageOf(owner[x], j) == k {
          SamePage(mem, owner, home, t, i, x, j);
        }
      }
    }
  }

  lemma DetachMapped(owner: seq<Use>, flat: map<Key, int>, home: map<Loc, int>, k: Key)
    requires HomeOk(owner, home) && MappedOk(owner, flat) && k in flat
    ensures MappedOk(UnmapOwner(owner, k, flat[k]), flat - {k}) && HomeOk(UnmapOwner(owner, k, flat[k]), home)
  {
  }

  lemma DetachKeeps(end: int, mem: seq<Page>, owner: seq<Use>, list: seq<int>, flat: map<Key, int>, home: map<Loc, int>,
                    t: int, i: int)
    requires VmOk(end, mem, owner, list, flat, home, {})
    requires 0 <= t < |mem| && owner[t].Table? && owner[t].level == 0 && 0 <= i < 512 && PageOf(owner[t], i) in flat
    ensures var k := PageOf(owner[t], i);
            VmOk(end, mem, UnmapOwner(owner, k, flat[k]), list, flat - {k}, home, {Edge(t, i)})
    ensures var k := PageOf(owner[t], i);
            k.page < TOP ==> 0 < Frame(flat[k]) < |mem| && owner[Frame(flat[k])] == Mapped(k.root, k.page)
    ensures var k := PageOf(owner[t], i); Unreferenced(UnmapOwner(owner, k, flat[k]), flat - {k}, home, t, i)
  {
    hide EntriesOk, FreeOk, PlaceOk, FlatOk, HomeOk, MappedOk;
    var k := PageOf(owner[t], i);
    var owner', flat' := UnmapOwner(owner, k, flat[k]), flat - {k};
    assert PlaceOk(mem, owner, home, {}, t);
    forall x | 0 <= x < |mem| && owner'[x].Table?
      ensures PlaceOk(mem, owner', home, {Edge(t, i)}, x) && EntriesOk(mem, owner', flat', {Edge(t, i)}, x) {
      assert PlaceOk(mem, owner, home, {}, x) && EntriesOk(mem, owner, flat, {}, x);
      DetachTable(mem, owner, flat, home, t, i, x);
    }
    DetachMapped(owner, flat, home, k);
    SubFlat(mem, flat, home, k);
    MappedAt(owner, flat, k);
    LeafUnreferenced(mem, owner, flat, home, t, i);
    if k.page < TOP {
      assert mem[Frame(flat[k]) := mem[Frame(flat[k])]] == mem;
      FreeElsewhere(mem, owner, list, Frame(flat[k]), Held, mem[Frame(flat[k])]);
    }
  }

  lemma OtherPage(owner: seq<Use>, home: map<Loc, int>, t: int, i: int, k: Key)
    requires HomeOk(owner, home) && Block(k) in home && 0 <= t < |owner| && owner[t].Table? && k != PageOf(owner[t], i)
    ensures Edge(home[Block(k)], k.page % 512) != Edge(t, i)
  {
    assert k.page == k.page / 512 * 512 + k.page % 512;
  }

  /** A last-level table has no table below, and the page was the only one at its entry. */
  lemma LeafUnreferenced(mem: seq<Page>, owner: seq<Use>, flat: map<Key, int>, home: map<Loc, int>, t: int, i: int)
    requires SpacesOk(mem, owner, flat, home, {}) && 0 <= t < |mem| && owner[t].Table? && owner[t].level == 0
             && 0 <= i < 512
    requires PageOf(owner[t], i) in flat
    ensures var k := PageOf(owner[t], i); Unreferenced(UnmapOwner(owner, k, flat[k]), flat - {k}, home, t, i)
  {
    hide EntriesOk, FlatOk, Block;
    forall x | 0 <= x < |owner| && owner[x].Table? && owner[x].level < 2 ensures owner[x].parent != t {
      assert PlaceOk(mem, owner, home, {}, x);
    }
    forall k | k in flat - {PageOf(owner[t], i)} && Block(k) in home
      ensures Edge(home[Block(k)], k.page % 512) != Edge(t, i) {
      OtherPage(owner, home, t, i, k);
    }
  }

  lemma SubFlat(mem: seq<Page>, flat: map<Key, int>, home: map<Loc, int>, k: Key)
    requires FlatOk(mem, flat, home)
    ensures FlatOk(mem, flat - {k}, home)
  {
  }

  /** The one page that a mapping uses. */
  lemma MappedAt(owner: seq<Use>, flat: map<Key, int>, k: Key)
    requires MappedOk(owner, flat)
    ensures k in flat && k.page < TOP ==>
              0 < Frame(flat[k]) < |owner| && owner[Frame(flat[k])] == Mapped(k.root, k.page)
    ensures forall f ::
              0 <= f < |owner| && owner[f] == Mapped(k.root, k.page) ==>
                  k.page < TOP && k in flat && f == Frame(flat[k])
  {
  }

  // ----- clearing an entry that nothing relies on any more

  ghost predicate Unreferenced(owner: seq<Use>, flat: map<Key, int>, home: map<Loc, int>, t: int, i: int) {
    && (forall x ::
        0 <= x < |owner| && owner[x].Table? && owner[x].level < 2 ==>
            Edge(owner[x].parent, owner[x].prefix % 512) != Edge(t, i))
    && (forall k :: k in flat && Block(k) in home ==> Edge(home[Block(k)], k.page % 512) != Edge(t, i))
  }

  lemma ClearTable(mem: seq<Page>, owner: seq<Use>, flat: map<Key, int>, home: map<Loc, int>, stale: set<Edge>, t: int,
                   i: int, x: int)
    requires |owner| == |mem| && 0 <= t < |mem| && 0 <= i < 512 && Unreferenced(owner, flat, home, t, i)
    requires 0 <= x < |mem| && owner[x].Table? && PlaceOk(mem, owner, home, stale, x)
             && EntriesOk(mem, owner, flat, stale, x)
    ensures var mem' := mem[t := PutEntry(mem[t], i, 0)];
            PlaceOk(mem', owner, home, stale - {Edge(t, i)}, x) && EntriesOk(mem', owner, flat, stale - {Edge(t, i)}, x)
  {
    var mem' := mem[t := PutEntry(mem[t], i, 0)];
    forall j | 0 <= j < 512 && Valid(Entry(mem'[x], j)) && Edge(x, j) !in stale - {Edge(t, i)}
      ensures EntryOk(owner, flat, x, owner[x].root, owner[x].level, owner[x].prefix, j, Entry(mem'[x], j))
    {
      assert Entry(mem'[x], j) == Entry(mem[x], j);
    }
  }

  lemma ClearMap(mem: seq<Page>, owner: seq<Use>, flat: map<Key, int>, home: map<Loc, int>, t: int, i: int)
    requires FlatOk(mem, flat, home) && 0 <= t < |mem| && 0 <= i < 512 && Unreferenced(owner, flat, home, t, i)
    ensures FlatOk(mem[t := PutEntry(mem[t], i, 0)], flat, home)
  {
    var mem' := mem[t := PutEntry(mem[t], i, 0)];
    forall k | k in flat ensures Entry(mem'[home[Block(k)]], k.page % 512) == flat[k] {
      assert Edge(home[Block(k)], k.page % 512) != Edge(t, i);
    }
  }

  lemma ClearKeeps(end: int, mem: seq<Page>, owner: seq<Use>, list: seq<int>, flat: map<Key, int>, home: map<Loc, int>,
                   stale: set<Edge>, t: int, i: int)
    requires VmOk(end, mem, owner, list, flat, home, stale) && 0 <= t < |mem| && owner[t].Table? && 0 <= i < 512
    requires Unreferenced(owner, flat, home, t, i)
    ensures VmOk(end, mem[t := PutEntry(mem[t], i, 0)], owner, list, flat, home, stale - {Edge(t, i)})
  {
    hide EntriesOk, FreeOk, PlaceOk, FlatOk, HomeOk, MappedOk, Unreferenced;
    var mem', stale' := mem[t := PutEntry(mem[t], i, 0)], stale - {Edge(t, i)};
    forall x | 0 <= x < |mem| && owner[x].Table?
      ensures PlaceOk(mem', owner, home, stale', x) && EntriesOk(mem', owner, flat, stale', x) {
      assert PlaceOk(mem, owner, home, stale, x) && EntriesOk(mem, owner, flat, stale, x);
      ClearTable(mem, owner, flat, home, stale, t, i, x);
    }
    ClearMap(mem, owner, flat, home, t, i);
    FreeElsewhere(mem, owner, list, t, owner[t], mem'[t]);
    assert owner[t := owner[t]] == owner;
  }

  // ----- what an operation leaves alone

  /** Only tables of `root` were added, from free pages; held and mapped pages are untouched. */
  ghost predicate Grew(mem: seq<Page>, owner: seq<Use>, list: seq<int>, mem': seq<Page>, owner': seq<Use>,
                       list': seq<int>, root: int) {
    && |mem| == |owner| == |mem'| == |owner'| && list' <= list
    && forall f :: 0 <= f < |owner| ==>
         || (owner'[f] == owner[f] && (owner[f].Held? || owner[f].Mapped? ==> mem'[f] == mem[f]))
         || (owner[f].Free? && owner'[f].Table? && owner'[f].root == root)
  }

  lemma HeadIsZero(mem: seq<Page>, owner: seq<Use>, list: seq<int>)
    requires |owner| == |mem| && FreeOk(mem, owner, list) && Head(list) == 0
    ensures list == []
  {
  }

  lemma GrewTrans(mem0: seq<Page>, owner0: seq<Use>, list0: seq<int>, mem1: seq<Page>, owner1: seq<Use>,
                  list1: seq<int>,
                  mem2: seq<Page>, owner2: seq<Use>, list2: seq<int>, root: int)
    requires Grew(mem0, owner0, list0, mem1, owner1, list1, root)
             && Grew(mem1, owner1, list1, mem2, owner2, list2, root)
    ensures Grew(mem0, owner0, list0, mem2, owner2, list2, root)
  {
  }

  // ----- the path of a virtual page

  /** The leading part of a page number: what is left above `n` table indices. */
  function Up(page: int, n: int): (r: int) {
    if n <= 0 then page else if n == 1 then page / 512 else if n == 2 then page / 0x4_0000 else page / 0x800_0000
  }

  /** PX(level, va) */
  function Px(level: int, va: int): (i: int)
    ensures 0 <= i < 512
  {
    if level == 2 then va / 0x4000_0000 % 512 else if level == 1 then va / 0x20_0000 % 512 else va / 4096 % 512
  }

  lemma PxParts(va: int, level: int)
    requires 0 <= va < MAXPAGE * 4096 && 0 <= level <= 2
    ensures Px(level, va) == Up(va / 4096, level) % 512 && Up(va / 4096, level) == Up(va / 4096, level + 1) * 512
            + Px(level, va)
    ensures Up(va / 4096, 3) == 0 && 0 <= Up(va / 4096, level)
  {
    assert va / 4096 / 512 == va / 0x20_0000 && va / 4096 / 0x4_0000 == va / 0x4000_0000;
    PageParts(va / 4096);
  }

  /** Above a mapped page the tree has a table at either level. */
  lemma TablesAbove(mem: seq<Page>, owner: seq<Use>, flat: map<Key, int>, home: map<Loc, int>, k: Key)
    requires SpacesOk(mem, owner, flat, home, {}) && k in flat
    ensures Loc(k.root, 0, Up(k.page, 1)) in home && Loc(k.root, 1, Up(k.page, 2)) in home
  {
    PageParts(k.page);
    var t := home[Block(k)];
    assert PlaceOk(mem, owner, home, {}, t);
    assert PlaceOk(mem, owner, home, {}, owner[t].parent);
  }

  /** Where a table is missing on a page's path, the page is not mapped. */
  lemma MissingTable(mem: seq<Page>, owner: seq<Use>, flat: map<Key, int>, home: map<Loc, int>, t: int, i: int,
                     page: int)
    requires SpacesOk(mem, owner, flat, home, {}) && 0 < t < |mem| && owner[t].Table? && owner[t].level > 0
    requires 0 <= i < 512 && !Valid(Entry(mem[t], i)) && owner[t].level <= 2
             && Up(page, owner[t].level) == owner[t].prefix * 512 + i
    ensures Key(owner[t].root, page) !in flat
  {
    NoHomeYet(mem, owner, flat, home, t, i);
    if Key(owner[t].root, page) in flat {
      TablesAbove(mem, owner, flat, home, Key(owner[t].root, page));
    }
  }

  /** A last-level entry is exactly what the flat map has for its page. */
  lemma LeafEntry(mem: seq<Page>, owner: seq<Use>, flat: map<Key, int>, home: map<Loc, int>, t: int, i: int)
    requires SpacesOk(mem, owner, flat, home, {}) && 0 <= t < |mem| && owner[t].Table? && owner[t].level == 0
             && 0 <= i < 512
    ensures Valid(Entry(mem[t], i)) <==> PageOf(owner[t], i) in flat
    ensures PageOf(owner[t], i) in flat ==> flat[PageOf(owner[t], i)] == Entry(mem[t], i)
  {
    assert PlaceOk(mem, owner, home, {}, t) && EntriesOk(mem, owner, flat, {}, t);
    var k := PageOf(owner[t], i);
    assert k.page / 512 == owner[t].prefix && k.page % 512 == i;
  }

  /** Entry `i` of table `t` is the leaf entry of this page. */
  ghost predicate LeafAt(mem: seq<Page>, owner: seq<Use>, root: int, page: int, t: int, i: int) {
    && |owner| == |mem| && 0 < t < |mem| && owner[t].Table? && owner[t].level == 0 && 0 <= i < 512
    && PageOf(owner[t], i) == Key(root, page)
  }

  lemma RootPlace(mem: seq<Page>, owner: seq<Use>, flat: map<Key, int>, home: map<Loc, int>, root: int)
    requires SpacesOk(mem, owner, flat, home, {}) && IsRoot(owner, root)
    ensures owner[root].root == root && owner[root].prefix == 0
  {
    assert PlaceOk(mem, owner, home, {}, root);
  }

  // ----- ranges of virtual pages

  ghost function Range(root: int, page: int, n: int): (s: set<Key>) {
    set p | page <= p < page + n :: Key(root, p)
  }

  /** The flat map with `n` consecutive pages mapped to consecutive frames. */
  ghost function WithRange(flat: map<Key, int>, root: int, page: int, n: int, frame: int, flags: int): (r: map<Key,
        int>) {
    flat + map k | k in Range(root, page, n) :: Pte(frame + k.page - page, flags)
  }

  lemma RangeNext(root: int, page: int, n: int)
    requires 0 <= n
    ensures Range(root, page, n + 1) == Range(root, page, n) + {Key(root, page + n)}
  {
  }

  lemma WithRangeNext(flat: map<Key, int>, root: int, page: int, n: int, frame: int, flags: int)
    requires 0 <= n
    ensures WithRange(flat, root, page, n + 1, frame, flags)
            == WithRange(flat, root, page, n, frame, flags)[Key(root, page + n) := Pte(frame + n, flags)]
  {
    hide Pte, Range;
    RangeNext(root, page, n);
  }

  lemma WithoutRangeNext(flat: map<Key, int>, root: int, page: int, n: int)
    requires 0 <= n
    ensures flat - Range(root, page, n + 1) == flat - Range(root, page, n) - {Key(root, page + n)}
  {
    RangeNext(root, page, n);
  }

  lemma RangeNone(flat: map<Key, int>, root: int, page: int, frame: int, flags: int)
    ensures Range(root, page, 0) == {} && WithRange(flat, root, page, 0, frame, flags) == flat
            && flat - Range(root, page, 0) == flat
  {
  }

  /** Mapping a range in pages that are held, one page of memory for each user page. */
  ghost predicate HeldRange(owner: seq<Use>, page: int, n: int, frame: int) {
    forall f :: 0 <= f < |owner| && frame <= f < frame + n && page + (f - frame) < TOP ==> owner[f].Held?
  }

  /** A range of one page. */
  lemma OnePage(flat: map<Key, int>, owner: seq<Use>, root: int, page: int, frame: int, flags: int)
    requires 0 <= frame < |owner| && owner[frame].Held?
    ensures Range(root, page, 1) == {Key(root, page)} && HeldRange(owner, page, 1, frame)
    ensures WithRange(flat, root, page, 1, frame, flags) == flat[Key(root, page) := Pte(frame, flags)]
            && WithRange(flat, root, page, 0, frame, flags) == flat
  {
    hide Pte;
    RangeNone(flat, root, page, frame, flags);
    WithRangeNext(flat, root, page, 0, frame, flags);
  }

  /** What mapping did to the pages: those mapped are now the user's, and tables may have been added. */
  ghost predicate MappedRange(mem: seq<Page>, owner: seq<Use>, list: seq<int>, mem': seq<Page>, owner': seq<Use>,
                              list': seq<int>,
                              root: int, page: int, n: int, frame: int)
  {
    && |mem| == |owner| == |mem'| == |owner'| && list' <= list
    && forall f :: 0 <= f < |owner| ==>
         if frame <= f < frame + n && page + (f - frame) < TOP then owner'[f] == Mapped(root, page + (f - frame))
             && mem'[f] == mem[f]
         else || (owner'[f] == owner[f] && (owner[f].Held? || owner[f].Mapped? ==> mem'[f] == mem[f]))
              || (owner[f].Free? && owner'[f].Table? && owner'[f].root == root)
  }

  lemma MappedRangeNext(mem0: seq<Page>, owner0: seq<Use>, list0: seq<int>, mem1: seq<Page>, owner1: seq<Use>,
                        list1: seq<int>,
                        mem2: seq<Page>, owner2: seq<Use>, list2: seq<int>, root: int, page: int, n: int, frame: int,
                        m: int)
    requires 0 <= n && 0 <= m <= 1 && HeldRange(owner0, page, n + 1, frame)
    requires MappedRange(mem0, owner0, list0, mem1, owner1, list1, root, page, n, frame)
    requires MappedRange(mem1, owner1, list1, mem2, owner2, list2, root, page + n, m, frame + n)
    ensures MappedRange(mem0, owner0, list0, mem2, owner2, list2, root, page, n + m, frame)
  {
    forall f | 0 <= f < |owner0|
      ensures if frame <= f < frame + (n + m) && page + (f - frame) < TOP then owner2[f]
              == Mapped(root, page + (f - frame)) && mem2[f] == mem0[f]
              else || (owner2[f] == owner0[f] && (owner0[f].Held? || owner0[f].Mapped? ==> mem2[f] == mem0[f]))
                   || (owner0[f].Free? && owner2[f].Table? && owner2[f].root == root)
    {
      if f == frame + n && page + n < TOP {
        assert owner0[frame + n].Held?;
      }
    }
  }

  /** The pages that a range of `root` mapped were given up: freed, or kept by the caller. Nothing else changed. */
  ghost predicate Released(mem: seq<Page>, owner: seq<Use>, list: seq<int>, mem': seq<Page>, owner': seq<Use>,
                           list': seq<int>,
                           root: int, page: int, n: int, freed: bool)
  {
    && |mem| == |owner| == |mem'| == |owner'| && list <= list'
    && forall f :: 0 <= f < |owner| ==>
         if owner[f].Mapped? && owner[f].root == root && page <= owner[f].page < page + n then
           if freed then owner'[f].Free? else owner'[f].Held? && mem'[f] == mem[f]
         else
           owner'[f] == owner[f] && (owner[f].Held? || owner[f].Mapped? ==> mem'[f] == mem[f])
  }

  lemma ReleasedNext(mem0: seq<Page>, owner0: seq<Use>, list0: seq<int>, mem1: seq<Page>, owner1: seq<Use>,
                     list1: seq<int>,
                     mem2: seq<Page>, owner2: seq<Use>, list2: seq<int>, root: int, page: int, n: int, freed: bool)
    requires 0 <= n
    requires Released(mem0, owner0, list0, mem1, owner1, list1, root, page, n, freed)
    requires Released(mem1, owner1, list1, mem2, owner2, list2, root, page + n, 1, freed)
    ensures Released(mem0, owner0, list0, mem2, owner2, list2, root, page, n + 1, freed)
  {
  }

  lemma MappedRangeNone(mem: seq<Page>, owner: seq<Use>, list: seq<int>, root: int, page: int, frame: int)
    requires |mem| == |owner|
    ensures MappedRange(mem, owner, list, mem, owner, list, root, page, 0, frame)
  {
  }

  lemma HeldPrefix(owner: seq<Use>, page: int, n: int, m: int, frame: int)
    requires HeldRange(owner, page, n, frame) && m <= n
    ensures HeldRange(owner, page, m, frame)
  {
  }

  /** Half-way through a range, its next page is still unmapped and the page for it still held. */
  lemma StillUnmapped(mem: seq<Page>, owner: seq<Use>, list: seq<int>, flat: map<Key, int>, mem': seq<Page>,
                      owner': seq<Use>, list': seq<int>,
                      root: int, page: int, n: int, done: int, frame: int, flags: int)
    requires 0 <= done < n && 0 <= frame && frame + n <= |owner| && HeldRange(owner, page, n, frame)
    requires forall k :: k in Range(root, page, n) ==> k !in flat
    requires MappedRange(mem, owner, list, mem', owner', list', root, page, done, frame)
    ensures Key(root, page + done) !in WithRange(flat, root, page, done, frame, flags)
    ensures page + done < TOP ==> |owner'| == |owner| && owner'[frame + done].Held?
  {
    assert Key(root, page + done) in Range(root, page, n);
  }

  lemma MappedAtKey(mem: seq<Page>, owner: seq<Use>, flat: map<Key, int>, home: map<Loc, int>, k: Key)
    requires SpacesOk(mem, owner, flat, home, {})
    ensures k in flat && k.page < TOP ==>
              0 < Frame(flat[k]) < |owner| && owner[Frame(flat[k])] == Mapped(k.root, k.page)
    ensures forall f ::
              0 <= f < |owner| && owner[f] == Mapped(k.root, k.page) ==>
                  k.page < TOP && k in flat && f == Frame(flat[k])
  {
    MappedAt(owner, flat, k);
  }

  lemma GrewNothingMapped(mem: seq<Page>, owner: seq<Use>, list: seq<int>, mem': seq<Page>, owner': seq<Use>,
                          list': seq<int>,
                          root: int, page: int, frame: int)
    requires Grew(mem, owner, list, mem', owner', list', root)
    ensures MappedRange(mem, owner, list, mem', owner', list', root, page, 0, frame)
  {
  }

  lemma GrewMapped(mem: seq<Page>, owner: seq<Use>, list: seq<int>, mem': seq<Page>, owner': seq<Use>, list': seq<int>,
                   root: int, page: int, t: int, i: int, e: int)
    requires Grew(mem, owner, list, mem', owner', list', root) && CanMap(mem', owner', t, i, e)
             && PageOf(owner'[t], i) == Key(root, page)
    requires page < TOP ==> owner[Frame(e)].Held?
    ensures MappedRange(mem, owner, list, mem'[t := PutEntry(mem'[t], i, e)], MapOwner(owner', Key(root, page), e),
                        list', root, page, 1, Frame(e))
  {
  }

  // ----- taking and giving back pages for one address space

  /** Pages were taken from the free list for tables or user pages of `root` (or given back to it);
      no other page changed hands, and no held or mapped page changed its contents. */
  ghost predicate Took(mem: seq<Page>, owner: seq<Use>, mem': seq<Page>, owner': seq<Use>, root: int) {
    && |mem| == |owner| == |mem'| == |owner'|
    && forall f :: 0 <= f < |owner| ==>
         if owner[f].Free? then owner'[f].Free? || (owner'[f].Table? && owner'[f].root == root)
             || (owner'[f].Mapped? && owner'[f].root == root)
         else owner'[f] == owner[f] && (owner[f].Held? || owner[f].Mapped? ==> mem'[f] == mem[f])
  }

  lemma TookNothing(mem: seq<Page>, owner: seq<Use>, root: int)
    requires |mem| == |owner|
    ensures Took(mem, owner, mem, owner, root)
  {
  }

  /** PGROUNDUP(sz) / PGSIZE */
  function Pages(sz: int): (n: int) {
    (sz + 4095) / 4096
  }

  /** Exactly the pages of the range were added to the flat map, each on a page of memory of its own
      that was free before, with these flags and contents. */
  ghost predicate Filling(mem0: seq<Page>, owner0: seq<Use>, flat0: map<Key, int>, mem: seq<Page>, owner: seq<Use>,
                          flat: map<Key, int>,
                          root: int, page: int, n: int, flags: int)
  {
    && Took(mem0, owner0, mem, owner, root)
    && flat.Keys == flat0.Keys + Range(root, page, n)
    && (forall k :: k in flat0 ==> k in flat && flat[k] == flat0[k])
    && (forall k ::
        k in flat && k !in flat0 ==>
            NewPage(mem0, owner0, mem, owner, k, flat[k]) && Flags(flat[k]) == flags
                && mem[Frame(flat[k])] == Filled(0))
  }

  ghost predicate NewPage(mem0: seq<Page>, owner0: seq<Use>, mem: seq<Page>, owner: seq<Use>, k: Key, e: int) {
    && |owner0| == |owner| == |mem| && 0 <= Frame(e) < |mem|
    && owner0[Frame(e)].Free? && owner[Frame(e)] == Mapped(k.root, k.page)
  }

  lemma FillingNone(mem: seq<Page>, owner: seq<Use>, flat: map<Key, int>, root: int, page: int, flags: int)
    requires |mem| == |owner|
    ensures Filling(mem, owner, flat, mem, owner, flat, root, page, 0, flags)
  {
    assert Range(root, page, 0) == {};
  }

  lemma FillingNext(mem0: seq<Page>, owner0: seq<Use>, flat0: map<Key, int>, mem1: seq<Page>, owner1: seq<Use>,
                    flat1: map<Key, int>,
                    mem2: seq<Page>, owner2: seq<Use>, flat2: map<Key, int>, root: int, page: int, n: int, flags: int,
                    f: int)
    requires Filling(mem0, owner0, flat0, mem1, owner1, flat1, root, page, n, flags) && 0 <= n
             && Took(mem1, owner1, mem2, owner2, root)
    requires 0 <= f < |owner1| && 0 <= flags < 1024 && Key(root, page + n) !in flat1
             && flat2 == flat1[Key(root, page + n) := Pte(f, flags)]
    requires owner1[f].Free? && owner2[f] == Mapped(root, page + n) && mem2[f] == Filled(0)
    ensures Filling(mem0, owner0, flat0, mem2, owner2, flat2, root, page, n + 1, flags)
  {
    RangeNext(root, page, n);
    PteParts(f, flags);
    forall k | k in flat2 && k !in flat0
      ensures NewPage(mem0, owner0, mem2, owner2, k, flat2[k]) && Flags(flat2[k]) == flags
              && mem2[Frame(flat2[k])] == Filled(0)
    {
      if k != Key(root, page + n) {
        assert NewPage(mem0, owner0, mem1, owner1, k, flat1[k]);
      }
    }
  }

  lemma ReleasedNone(mem: seq<Page>, owner: seq<Use>, list: seq<int>, root: int, page: int, freed: bool)
    requires |mem| == |owner|
    ensures Released(mem, owner, list, mem, owner, list, root, page, 0, freed)
  {
  }

  lemma RangeEmpty(flat: map<Key, int>, root: int, page: int, n: int)
    requires n <= 0
    ensures flat - Range(root, page, n) == flat
  {
    assert Range(root, page, n) == {};
  }

  lemma ReleasedEmpty(mem: seq<Page>, owner: seq<Use>, list: seq<int>, root: int, page: int, n: int)
    requires |mem| == |owner|
    ensures n <= 0 ==> Released(mem, owner, list, mem, owner, list, root, page, n, true)
  {
  }

  lemma FillingMore(mem0: seq<Page>, owner0: seq<Use>, flat0: map<Key, int>, mem: seq<Page>, owner: seq<Use>,
                    flat: map<Key, int>,
                    root: int, page: int, n: int, m: int, flags: int)
    requires Filling(mem0, owner0, flat0, mem, owner, flat, root, page, n, flags) && 0 <= n < m
    requires forall k :: k in Range(root, page, m) ==> k !in flat0
    ensures Key(root, page + n) !in flat
  {
    assert Key(root, page + n) in Range(root, page, m) && Key(root, page + n) !in Range(root, page, n);
  }

  lemma FillingTook(mem0: seq<Page>, owner0: seq<Use>, flat0: map<Key, int>, mem1: seq<Page>, owner1: seq<Use>,
                    flat1: map<Key, int>,
                    mem2: seq<Page>, owner2: seq<Use>, root: int, page: int, n: int, flags: int)
    requires Filling(mem0, owner0, flat0, mem1, owner1, flat1, root, page, n, flags)
             && (Took(mem1, owner1, mem2, owner2, root) || (mem1 == mem2 && owner1 == owner2))
    ensures Took(mem0, owner0, mem2, owner2, root)
  {
  }

  /** Giving the new pages back undoes the filling. */
  lemma FillingUndone(mem0: seq<Page>, owner0: seq<Use>, flat0: map<Key, int>, home0: map<Loc, int>, mem1: seq<Page>,
                      owner1: seq<Use>, flat1: map<Key, int>,
                      mem2: seq<Page>, owner2: seq<Use>, list2: seq<int>, mem3: seq<Page>, owner3: seq<Use>,
                      list3: seq<int>,
                      root: int, page: int, n: int, flags: int)
    requires Filling(mem0, owner0, flat0, mem1, owner1, flat1, root, page, n, flags)
             && SpacesOk(mem0, owner0, flat0, home0, {})
    requires forall k :: k in Range(root, page, n) ==> k !in flat0
    requires Took(mem1, owner1, mem2, owner2, root)
    requires Released(mem2, owner2, list2, mem3, owner3, list3, root, page, n, true)
    ensures flat1 - Range(root, page, n) == flat0
    ensures Took(mem0, owner0, mem3, owner3, root)
  {
    forall f | 0 <= f < |owner0| && owner0[f].Mapped? && owner0[f].root == root
      ensures !(page <= owner0[f].page < page + n) {
      assert Key(root, owner0[f].page) !in Range(root, page, n);
    }
  }

  // ----- freewalk takes a tree apart from the bottom

  /** A page below the table `u` in its tree. */
  predicate Under(k: Key, u: Use)
    requires u.Table?
  {
    k.root == u.root && Up(k.page, u.level + 1) == u.prefix
  }

  ghost predicate NoneUnder(flat: map<Key, int>, u: Use)
    requires u.Table?
  {
    forall k :: k in flat ==> !Under(k, u)
  }

  /** A table in the subtree of the table `u`. */
  predicate Below(v: Use, u: Use)
    requires u.Table?
  {
    v.Table? && v.root == u.root && v.level <= u.level && Up(v.prefix, u.level - v.level) == u.prefix
  }

  /** The entry of `u` through which a lower table is reached. */
  function ChildIndex(v: Use, u: Use): (i: int)
    requires u.Table? && v.Table?
  {
    Up(v.prefix, u.level - 1 - v.level) % 512
  }

  lemma UpUp(x: int, n: int)
    requires 0 <= x && 0 <= n <= 2
    ensures Up(x, n + 1) == Up(x, n) / 512
  {
  }

  /** The entries about to be cleared are all above level `level`. */
  ghost predicate StaleAbove(owner: seq<Use>, stale: set<Edge>, level: int) {
    forall e :: e in stale ==> 0 <= e.t < |owner| && owner[e.t].Table? && owner[e.t].level > level
  }

  lemma MarkStale(end: int, mem: seq<Page>, owner: seq<Use>, list: seq<int>, flat: map<Key, int>, home: map<Loc, int>,
                  stale: set<Edge>, e: Edge)
    requires VmOk(end, mem, owner, list, flat, home, stale)
    ensures VmOk(end, mem, owner, list, flat, home, stale + {e})
  {
    forall x | 0 <= x < |mem| && owner[x].Table?
      ensures PlaceOk(mem, owner, home, stale + {e}, x) && EntriesOk(mem, owner, flat, stale + {e}, x)
    {
      assert PlaceOk(mem, owner, home, stale, x) && EntriesOk(mem, owner, flat, stale, x);
    }
  }

  /** In a tree without mapped pages every valid entry names the next table, so freewalk's panic is not reached. */
  lemma EntryIsTable(mem: seq<Page>, owner: seq<Use>, flat: map<Key, int>, home: map<Loc, int>, stale: set<Edge>,
                     t: int, i: int)
    requires SpacesOk(mem, owner, flat, home, stale) && 0 <= t < |mem| && owner[t].Table?
             && StaleAbove(owner, stale, owner[t].level)
    requires NoneUnder(flat, owner[t]) && 0 <= i < 512 && Valid(Entry(mem[t], i))
    ensures !MapsPage(Entry(mem[t], i)) && 0 < Frame(Entry(mem[t], i)) < |mem| && 0 < owner[t].level
    ensures owner[Frame(Entry(mem[t], i))] == NewTable(owner[t], t, i)
  {
    var e := Entry(mem[t], i);
    assert PlaceOk(mem, owner, home, stale, t) && EntriesOk(mem, owner, flat, stale, t);
    assert Edge(t, i) !in stale;
    assert EntryOk(owner, flat, t, owner[t].root, owner[t].level, owner[t].prefix, i, e);
    assert (owner[t].prefix * 512 + i) / 512 == owner[t].prefix;
    NextTableEntry(e);
  }

  /** Only that table is reached through the entry. */
  lemma OnlyChild(mem: seq<Page>, owner: seq<Use>, flat: map<Key, int>, home: map<Loc, int>, stale: set<Edge>, t: int,
                  i: int)
    requires SpacesOk(mem, owner, flat, home, stale) && 0 <= t < |mem| && owner[t].Table? && Edge(t, i) !in stale
             && 0 <= i < 512
    ensures forall x ::
              0 <= x < |owner| && owner[x].Table? && owner[x].level < 2 && Edge(owner[x].parent, owner[x].prefix % 512)
                  == Edge(t, i) ==>
              Entry(mem[t], i) == Pte(x, 1) && x == Frame(Entry(mem[t], i)) && Valid(Entry(mem[t], i))
  {
    forall x | 0 <= x < |owner| && owner[x].Table? && owner[x].level < 2 && Edge(owner[x].parent, owner[x].prefix % 512)
        == Edge(t, i)
      ensures Entry(mem[t], i) == Pte(x, 1) && x == Frame(Entry(mem[t], i)) && Valid(Entry(mem[t], i))
    {
      assert PlaceOk(mem, owner, home, stale, x);
      PteParts(x, 1);
    }
  }

  /** The ancestor of a lower table that hangs directly below table `t`. */
  lemma ChildAbove(mem: seq<Page>, owner: seq<Use>, flat: map<Key, int>, home: map<Loc, int>, stale: set<Edge>, t: int,
                   f: int) returns (x: int)
    requires SpacesOk(mem, owner, flat, home, stale) && 0 <= t < |mem| && owner[t].Table?
    requires 0 <= f < |mem| && Below(owner[f], owner[t]) && f != t
    ensures 0 <= x < |mem| && owner[x].Table? && owner[x].level == owner[t].level - 1 < 2 && owner[x].parent == t
    ensures owner[x].prefix % 512 == ChildIndex(owner[f], owner[t])
    decreases if owner[f].Table? then 2 - owner[f].level else 0
  {
    assert PlaceOk(mem, owner, home, stale, f) && PlaceOk(mem, owner, home, stale, t);
    var l := owner[f].level;
    UpUp(owner[f].prefix, 0);
    assert LocOf(owner[f]) != LocOf(owner[t]);
    if l == owner[t].level - 1 {
      assert PlaceOk(mem, owner, home, stale, owner[f].parent);
      assert LocOf(owner[owner[f].parent]) == LocOf(owner[t]);
      x := f;
    } else {
      UpUp(owner[f].prefix, 1);
      x := ChildAbove(mem, owner, flat, home, stale, t, owner[f].parent);
    }
  }

  /** A table without entries, cut off from its parent, may be given up. */
  ghost predicate CanRetire(mem: seq<Page>, owner: seq<Use>, stale: set<Edge>, t: int) {
    && |owner| == |mem| && 0 < t < |mem| && owner[t].Table?
    && (owner[t].level < 2 ==> Edge(owner[t].parent, owner[t].prefix % 512) in stale)
    && (forall i :: 0 <= i < 512 ==> Edge(t, i) !in stale && !Valid(Entry(mem[t], i)))
  }

  lemma RetirePlace(mem: seq<Page>, owner: seq<Use>, home: map<Loc, int>, stale: set<Edge>, t: int, x: int)
    requires CanRetire(mem, owner, stale, t) && 0 <= x < |mem| && owner[x].Table? && x != t
    requires PlaceOk(mem, owner, home, stale, t) && PlaceOk(mem, owner, home, stale, x)
    ensures PlaceOk(mem, owner[t := Held], home - {LocOf(owner[t])}, stale, x)
  {
    assert owner[x].level < 2 ==> owner[x].parent != t by {
      PteParts(x, 1);
    }
    assert LocOf(owner[x]) != LocOf(owner[t]);
  }

  lemma RetireEntries(mem: seq<Page>, owner: seq<Use>, flat: map<Key, int>, home: map<Loc, int>, stale: set<Edge>,
                      t: int, x: int)
    requires CanRetire(mem, owner, stale, t) && 0 <= x < |mem| && owner[x].Table? && x != t
    requires PlaceOk(mem, owner, home, stale, t) && PlaceOk(mem, owner, home, stale, x)
             && EntriesOk(mem, owner, flat, stale, x)
    ensures EntriesOk(mem, owner[t := Held], flat, stale, x)
  {
    forall j | 0 <= j < 512 && Valid(Entry(mem[x], j)) && Edge(x, j) !in stale
      ensures EntryOk(owner[t := Held], flat, x, owner[x].root, owner[x].level, owner[x].prefix, j, Entry(mem[x], j))
    {
      assert EntryOk(owner, flat, x, owner[x].root, owner[x].level, owner[x].prefix, j, Entry(mem[x], j));
      assert (owner[x].prefix * 512 + j) % 512 == j;
      assert owner[x].level > 0 ==> Frame(Entry(mem[x], j)) != t;
    }
  }

  lemma RetireMap(mem: seq<Page>, owner: seq<Use>, flat: map<Key, int>, home: map<Loc, int>, stale: set<Edge>, t: int)
    requires CanRetire(mem, owner, stale, t) && PlaceOk(mem, owner, home, stale, t)
    requires HomeOk(owner, home) && FlatOk(mem, flat, home) && MappedOk(owner, flat)
    ensures HomeOk(owner[t := Held], home - {LocOf(owner[t])}) && FlatOk(mem, flat, home - {LocOf(owner[t])})
  {
    forall k | k in flat ensures Block(k) != LocOf(owner[t]) {
      assert home[Block(k)] != t;
    }
  }

  lemma RetireMapped(owner: seq<Use>, flat: map<Key, int>, t: int)
    requires MappedOk(owner, flat) && 0 <= t < |owner| && owner[t].Table?
    ensures MappedOk(owner[t := Held], flat)
  {
  }

  lemma RetireKeeps(end: int, mem: seq<Page>, owner: seq<Use>, list: seq<int>, flat: map<Key, int>, home: map<Loc, int>,
                    stale: set<Edge>, t: int)
    requires VmOk(end, mem, owner, list, flat, home, stale) && CanRetire(mem, owner, stale, t)
    ensures VmOk(end, mem, owner[t := Held], list, flat, home - {LocOf(owner[t])}, stale)
  {
    hide PlaceOk, EntriesOk, FreeOk, FlatOk, HomeOk, MappedOk;
    var owner', home' := owner[t := Held], home - {LocOf(owner[t])};
    assert PlaceOk(mem, owner, home, stale, t);
    forall x | 0 <= x < |mem| && owner'[x].Table?
      ensures PlaceOk(mem, owner', home', stale, x) && EntriesOk(mem, owner', flat, stale, x) {
      assert PlaceOk(mem, owner, home, stale, x) && EntriesOk(mem, owner, flat, stale, x);
      RetirePlace(mem, owner, home, stale, t, x);
      RetireEntries(mem, owner, flat, home, stale, t, x);
    }
    RetireMap(mem, owner, flat, home, stale, t);
    RetireMapped(owner, flat, t);
    assert mem[t := mem[t]] == mem;
    FreeElsewhere(mem, owner, list, t, Held, mem[t]);
  }

  /** freewalk on the table `u`: its whole subtree is free, and nothing else has changed. */
  ghost predicate FreedBelow(mem: seq<Page>, owner: seq<Use>, mem': seq<Page>, owner': seq<Use>, u: Use)
    requires u.Table?
  {
    && |mem| == |owner| == |mem'| == |owner'|
    && forall f :: 0 <= f < |owner| ==>
         if Below(owner[f], u) then owner'[f].Free? else owner'[f] == owner[f] && mem'[f] == mem[f]
  }

  /** freewalk on table `t` after its first `n` entries. */
  ghost predicate FreedPart(mem: seq<Page>, owner: seq<Use>, mem': seq<Page>, owner': seq<Use>, t: int, n: int) {
    && |mem| == |owner| == |mem'| == |owner'| && 0 <= t < |owner| && owner[t].Table?
    && forall f :: 0 <= f < |owner| ==>
         if Below(owner[f], owner[t]) && owner[f].level < owner[t].level
             && ChildIndex(owner[f], owner[t]) < n then owner'[f].Free?
         else owner'[f] == owner[f] && (f != t ==> mem'[f] == mem[f])
  }

  lemma FreedPartNone(mem: seq<Page>, owner: seq<Use>, t: int)
    requires |mem| == |owner| && 0 <= t < |owner| && owner[t].Table?
    ensures FreedPart(mem, owner, mem, owner, t, 0)
  {
  }

  /** Nothing hangs below an unused entry. */
  lemma FreedPartSkip(mem0: seq<Page>, owner0: seq<Use>, mem: seq<Page>, owner: seq<Use>, flat: map<Key, int>,
                      home: map<Loc, int>, stale: set<Edge>, t: int, n: int)
    requires SpacesOk(mem, owner, flat, home, stale) && FreedPart(mem0, owner0, mem, owner, t, n)
             && StaleAbove(owner, stale, owner[t].level)
    requires 0 <= n < 512 && !Valid(Entry(mem[t], n))
    ensures FreedPart(mem0, owner0, mem, owner, t, n + 1)
  {
    forall f | 0 <= f < |owner| && Below(owner[f], owner[t]) && owner[f].level < owner[t].level
      ensures ChildIndex(owner[f], owner[t]) != n {
      var x := ChildAbove(mem, owner, flat, home, stale, t, f);
      assert PlaceOk(mem, owner, home, stale, x);
      PteParts(x, 1);
    }
  }

  lemma FreedPartNext(mem0: seq<Page>, owner0: seq<Use>, mem1: seq<Page>, owner1: seq<Use>, mem2: seq<Page>,
                      owner2: seq<Use>,
                      mem3: seq<Page>, flat: map<Key, int>, home: map<Loc, int>, stale: set<Edge>, t: int, n: int,
                      c: int)
    requires FreedPart(mem0, owner0, mem1, owner1, t, n) && 0 <= n < 512 && 0 <= c < |owner1| && c != t
             && owner0[t].level > 0 && owner0[t].prefix >= 0
    requires owner1[c] == NewTable(owner0[t], t, n) && FreedBelow(mem1, owner1, mem2, owner2, owner1[c])
    requires |mem3| == |mem2| && forall f :: 0 <= f < |mem2| && f != t ==> mem3[f] == mem2[f]
    requires SpacesOk(mem1, owner1, flat, home, stale)
    ensures FreedPart(mem0, owner0, mem3, owner2, t, n + 1)
  {
    forall f | 0 <= f < |owner0| && owner0[f].Table? && owner1[f] == owner0[f]
      ensures Below(owner0[f], owner1[c]) <==>
                owner0[f].level < owner0[t].level && Below(owner0[f], owner0[t])
                    && ChildIndex(owner0[f], owner0[t]) == n
    {
      assert PlaceOk(mem1, owner1, home, stale, f) && PlaceOk(mem1, owner1, home, stale, t);
      if owner0[f].level < owner0[t].level {
        UpUp(owner0[f].prefix, owner0[t].level - 1 - owner0[f].level);
      }
    }
  }

  /** All entries done and the table itself freed: the subtree is gone. */
  lemma FreedAll(mem0: seq<Page>, owner0: seq<Use>, flat: map<Key, int>, home0: map<Loc, int>, stale: set<Edge>,
                 mem1: seq<Page>, owner1: seq<Use>, mem2: seq<Page>, owner2: seq<Use>, t: int)
    requires SpacesOk(mem0, owner0, flat, home0, stale) && FreedPart(mem0, owner0, mem1, owner1, t, 512)
    requires |mem2| == |mem1| == |owner2| && owner2[t].Free?
    requires forall f :: 0 <= f < |mem1| && f != t ==> owner2[f] == owner1[f] && mem2[f] == mem1[f]
    ensures FreedBelow(mem0, owner0, mem2, owner2, owner0[t])
  {
    forall f | 0 <= f < |owner0| && f != t && Below(owner0[f], owner0[t]) ensures owner0[f].level < owner0[t].level {
      assert PlaceOk(mem0, owner0, home0, stale, f) && PlaceOk(mem0, owner0, home0, stale, t);
      assert LocOf(owner0[f]) != LocOf(owner0[t]);
    }
  }

  /** The table below a valid entry can be walked in turn, once the entry is marked. */
  lemma ChildReady(mem: seq<Page>, owner: seq<Use>, flat: map<Key, int>, home: map<Loc, int>, stale: set<Edge>, t: int,
                   i: int, c: int)
    requires SpacesOk(mem, owner, flat, home, stale) && 0 <= t < |mem| && owner[t].Table?
             && StaleAbove(owner, stale, owner[t].level)
    requires NoneUnder(flat, owner[t]) && 0 <= i < 512 && 0 < c < |mem| && owner[t].level > 0
             && owner[c] == NewTable(owner[t], t, i)
    ensures 0 <= owner[c].level < 2 && 0 <= owner[c].prefix && owner[c].parent == t && owner[c].prefix % 512 == i
            && c != t
    ensures StaleAbove(owner, stale + {Edge(t, i)}, owner[c].level) && NoneUnder(flat, owner[c])
  {
    assert PlaceOk(mem, owner, home, stale, t);
    assert owner[c].prefix / 512 == owner[t].prefix && owner[c].prefix % 512 == i;
    forall k | k in flat && k.root == owner[t].root ensures !Under(k, owner[c]) {
      assert 0 <= k.page;
      UpUp(k.page, owner[t].level);
    }
  }

  /** Once the table below is free, nothing relies on the entry. */
  lemma ChildGone(mem: seq<Page>, owner: seq<Use>, flat: map<Key, int>, home: map<Loc, int>, stale: set<Edge>,
                  mem': seq<Page>, owner': seq<Use>, home': map<Loc, int>, stale': set<Edge>, t: int, i: int, c: int)
    requires SpacesOk(mem, owner, flat, home, stale) && SpacesOk(mem', owner', flat, home', stale') && 0 <= t < |mem|
             && owner[t].Table?
    requires Edge(t, i) !in stale && 0 <= i < 512 && 0 < c < |mem| && owner[t].level > 0
             && owner[c] == NewTable(owner[t], t, i)
    requires Frame(Entry(mem[t], i)) == c && FreedBelow(mem, owner, mem', owner', owner[c])
    ensures |mem'| == |mem| && Unreferenced(owner', flat, home', t, i) && owner'[t] == owner[t] && mem'[t] == mem[t]
  {
    OnlyChild(mem, owner, flat, home, stale, t, i);
    assert Below(owner[c], owner[c]) && !Below(owner[t], owner[c]);
  }

  lemma StaleStill(mem: seq<Page>, owner: seq<Use>, mem': seq<Page>, owner': seq<Use>, stale: set<Edge>, u: Use,
                   level: int)
    requires u.Table? && FreedBelow(mem, owner, mem', owner', u) && StaleAbove(owner, stale, level) && u.level <= level
    ensures StaleAbove(owner', stale, level)
  {
  }

  lemma NotStale(owner: seq<Use>, stale: set<Edge>, t: int, i: int)
    requires 0 <= t < |owner| && owner[t].Table? && StaleAbove(owner, stale, owner[t].level)
    ensures Edge(t, i) !in stale
  {
  }

  lemma FreedPartSizes(mem: seq<Page>, owner: seq<Use>, mem': seq<Page>, owner': seq<Use>, t: int, n: int)
    requires FreedPart(mem, owner, mem', owner', t, n)
    ensures |mem| == |owner| == |mem'| == |owner'| && 0 <= t < |owner| && owner[t].Table? && owner'[t] == owner[t]
  {
  }

  // ----- a whole address space goes

  predicate Belongs(u: Use, root: int) {
    (u.Table? || u.Mapped?) && u.root == root
  }

  ghost predicate SpaceFreed(mem: seq<Page>, owner: seq<Use>, mem': seq<Page>, owner': seq<Use>, root: int) {
    && |mem| == |owner| == |mem'| == |owner'|
    && forall f :: 0 <= f < |owner| ==>
         if Belongs(owner[f], root) then owner'[f].Free?
         else owner'[f] == owner[f] && (owner[f].Held? || owner[f].Mapped? ==> mem'[f] == mem[f])
  }

  lemma AllBelowRoot(mem: seq<Page>, owner: seq<Use>, flat: map<Key, int>, home: map<Loc, int>, root: int)
    requires SpacesOk(mem, owner, flat, home, {}) && IsRoot(owner, root)
    ensures forall f :: 0 <= f < |owner| && owner[f].Table? && owner[f].root == root ==> Below(owner[f], owner[root])
    ensures forall f :: 0 <= f < |owner| && Below(owner[f], owner[root]) ==> owner[f].root == root
    ensures StaleAbove(owner, {}, 2)
  {
    assert PlaceOk(mem, owner, home, {}, root);
    forall f | 0 <= f < |owner| && owner[f].Table? && owner[f].root == root ensures Below(owner[f], owner[root]) {
      assert PlaceOk(mem, owner, home, {}, f);
      if owner[f].level < 2 {
        var g := owner[f].parent;
        assert PlaceOk(mem, owner, home, {}, g);
        if owner[g].level < 2 {
          assert PlaceOk(mem, owner, home, {}, owner[g].parent);
          UpUp(owner[f].prefix, 1);
        }
      }
    }
  }

  lemma UserPagesOnly(mem: seq<Page>, owner: seq<Use>, flat: map<Key, int>, home: map<Loc, int>, root: int, n: int)
    requires SpacesOk(mem, owner, flat, home, {}) && forall k :: k in flat && k.root == root ==> k.page < n
    ensures forall f :: 0 <= f < |owner| && owner[f].Mapped? && owner[f].root == root ==> 0 <= owner[f].page < n
    ensures forall k :: k in flat ==> 0 <= k.page
  {
    forall f | 0 <= f < |owner| && owner[f].Mapped? && owner[f].root == root ensures 0 <= owner[f].page < n {
      assert Key(root, owner[f].page) in flat;
    }
  }

  lemma WithoutSpace(flat: map<Key, int>, flat': map<Key, int>, root: int, n: int, u: Use)
    requires flat' == flat - Range(root, 0, n) && u.Table? && u.root == root
    requires forall k :: k in flat && k.root == root ==> 0 <= k.page < n
    ensures flat' == (map k | k in flat && k.root != root :: flat[k]) && NoneUnder(flat', u)
  {
    forall k | k in flat && k.root == root ensures k in Range(root, 0, n) {
      assert k == Key(root, k.page);
    }
  }

  lemma SpaceIsFreed(mem0: seq<Page>, owner0: seq<Use>, list0: seq<int>, mem1: seq<Page>, owner1: seq<Use>,
                     list1: seq<int>,
                     mem2: seq<Page>, owner2: seq<Use>, root: int, n: int)
    requires Released(mem0, owner0, list0, mem1, owner1, list1, root, 0, n, true)
    requires forall f :: 0 <= f < |owner0| && owner0[f].Mapped? && owner0[f].root == root ==> 0 <= owner0[f].page < n
    requires 0 <= root < |owner1| && owner1[root].Table? && FreedBelow(mem1, owner1, mem2, owner2, owner1[root])
    requires forall f ::
               0 <= f < |owner1| && owner1[f].Table? && owner1[f].root == root ==> Below(owner1[f], owner1[root])
    requires forall f :: 0 <= f < |owner1| && Below(owner1[f], owner1[root]) ==> owner1[f].root == root
    ensures SpaceFreed(mem0, owner0, mem2, owner2, root)
  {
  }

  // ----- a new address space

  lemma NoSpaceYet(mem: seq<Page>, owner: seq<Use>, flat: map<Key, int>, home: map<Loc, int>, g: int)
    requires SpacesOk(mem, owner, flat, home, {}) && 0 < g < |mem| && !owner[g].Table?
    ensures forall x :: 0 <= x < |owner| && owner[x].Table? ==> owner[x].root != g
    ensures forall l :: l in home ==> l.root != g
    ensures forall k :: k in flat ==> k.root != g
  {
    forall x | 0 <= x < |owner| && owner[x].Table? ensures owner[x].root != g {
      assert PlaceOk(mem, owner, home, {}, x);
      if owner[x].level < 2 {
        assert PlaceOk(mem, owner, home, {}, owner[x].parent);
        if owner[owner[x].parent].level < 2 {
          assert PlaceOk(mem, owner, home, {}, owner[owner[x].parent].parent);
        }
      }
    }
  }

  lemma NewRootTables(mem: seq<Page>, owner: seq<Use>, flat: map<Key, int>, home: map<Loc, int>, g: int)
    requires |owner| == |mem| && TablesOk(mem, owner, flat, home, {}) && 0 < g < |mem| && owner[g].Held?
             && mem[g] == Filled(0)
    requires forall l :: l in home ==> l.root != g
    ensures TablesOk(mem, owner[g := Table(g, 2, 0, 0)], flat, home[Loc(g, 2, 0) := g], {})
  {
    ZeroEntries();
    var owner', home' := owner[g := Table(g, 2, 0, 0)], home[Loc(g, 2, 0) := g];
    forall x | 0 <= x < |mem| && owner'[x].Table?
      ensures PlaceOk(mem, owner', home', {}, x) && EntriesOk(mem, owner', flat, {}, x) {
      if x != g {
        assert PlaceOk(mem, owner, home, {}, x) && EntriesOk(mem, owner, flat, {}, x);
      }
    }
  }

  lemma NewRootKeeps(end: int, mem: seq<Page>, owner: seq<Use>, list: seq<int>, flat: map<Key, int>, home: map<Loc,
                     int>, g: int)
    requires VmOk(end, mem, owner, list, flat, home, {}) && 0 < g < |mem| && owner[g].Held? && mem[g] == Filled(0)
    ensures VmOk(end, mem, owner[g := Table(g, 2, 0, 0)], list, flat, home[Loc(g, 2, 0) := g], {})
    ensures forall k :: k in flat ==> k.root != g
  {
    hide FreeOk, TablesOk;
    NoSpaceYet(mem, owner, flat, home, g);
    NewRootTables(mem, owner, flat, home, g);
    assert mem[g := mem[g]] == mem;
    FreeElsewhere(mem, owner, list, g, Table(g, 2, 0, 0), mem[g]);
  }

  // ----- uvmcopy

  /** The first `n` user pages of `src` have been copied: exactly those that it maps are mapped in `dst`,
      with the same flags and contents, on pages of memory that were free before. */
  ghost predicate Copied(mem0: seq<Page>, owner0: seq<Use>, flat0: map<Key, int>, mem: seq<Page>, owner: seq<Use>,
                         flat: map<Key, int>,
                         src: int, dst: int, n: int)
  {
    && Took(mem0, owner0, mem, owner, dst)
    && (forall k :: k in flat0 ==> k in flat && flat[k] == flat0[k])
    && (forall p {:trigger Key(dst, p)} :: 0 <= p < n && Key(src, p) in flat0 ==> Key(dst, p) in flat)
    && (forall k :: k in flat && k !in flat0 ==>
          && k.root == dst && 0 <= k.page < n && Key(src, k.page) in flat0
          && NewPage(mem0, owner0, mem, owner, k, flat[k]) && Flags(flat[k]) == Flags(flat0[Key(src, k.page)])
          && 0 <= Frame(flat0[Key(src, k.page)]) < |mem0|
          && mem[Frame(flat[k])] == mem0[Frame(flat0[Key(src, k.page)])])
  }

  /** How many of the first n pages of an address space are mapped. */
  ghost function MappedBelow(flat: map<Key, int>, root: int, n: int): (r: nat) {
    if n <= 0 then 0 else MappedBelow(flat, root, n - 1) + (if Key(root, n - 1) in flat then 1 else 0)
  }

  lemma {:induction false} MoreMapped(flat: map<Key, int>, root: int, n: int, m: int)
    requires n <= m
    ensures MappedBelow(flat, root, n) <= MappedBelow(flat, root, m)
    decreases m - n
  {
    if n < m {
      MoreMapped(flat, root, n, m - 1);
    }
  }

  /** Copying adds no page to the source. */
  lemma CopiedSource(mem0: seq<Page>, owner0: seq<Use>, flat0: map<Key, int>, mem: seq<Page>, owner: seq<Use>,
                     flat: map<Key, int>, src: int, dst: int, n: int)
    requires Copied(mem0, owner0, flat0, mem, owner, flat, src, dst, n) && src != dst
    ensures Key(src, n) in flat <==> Key(src, n) in flat0
  {
  }

  lemma CopiedNone(mem: seq<Page>, owner: seq<Use>, flat: map<Key, int>, src: int, dst: int)
    requires |mem| == |owner|
    ensures Copied(mem, owner, flat, mem, owner, flat, src, dst, 0)
  {
  }

  lemma CopiedSkip(mem0: seq<Page>, owner0: seq<Use>, flat0: map<Key, int>, mem: seq<Page>, owner: seq<Use>,
                   flat: map<Key, int>,
                   src: int, dst: int, n: int)
    requires Copied(mem0, owner0, flat0, mem, owner, flat, src, dst, n) && 0 <= n && Key(src, n) !in flat
    ensures Copied(mem0, owner0, flat0, mem, owner, flat, src, dst, n + 1)
  {
  }

  lemma CopiedNext(mem0: seq<Page>, owner0: seq<Use>, flat0: map<Key, int>, home0: map<Loc, int>, mem1: seq<Page>,
                   owner1: seq<Use>, flat1: map<Key, int>,
                   mem2: seq<Page>, owner2: seq<Use>, flat2: map<Key, int>, src: int, dst: int, n: int, f: int,
                   flags: int)
    requires Copied(mem0, owner0, flat0, mem1, owner1, flat1, src, dst, n) && 0 <= n < TOP
             && Took(mem1, owner1, mem2, owner2, dst)
    requires src != dst && Key(src, n) in flat1 && Key(dst, n) !in flat1 && SpacesOk(mem0, owner0, flat0, home0, {})
    requires 0 <= f < |owner1| && 0 <= flags < 1024 && flags == Flags(flat1[Key(src, n)])
             && flat2 == flat1[Key(dst, n) := Pte(f, flags)]
    requires 0 <= Frame(flat1[Key(src, n)]) < |mem1| && owner1[f].Free? && owner2[f] == Mapped(dst, n)
    requires mem2[f] == mem1[Frame(flat1[Key(src, n)])]
    ensures Copied(mem0, owner0, flat0, mem2, owner2, flat2, src, dst, n + 1)
  {
    PteParts(f, flags);
    var s := Key(src, n);
    assert s in flat0 && flat0[s] == flat1[s];
    MappedAt(owner0, flat0, s);
    forall k | k in flat2 && k !in flat0
      ensures && k.root == dst && 0 <= k.page < n + 1 && Key(src, k.page) in flat0
              && NewPage(mem0, owner0, mem2, owner2, k, flat2[k]) && Flags(flat2[k]) == Flags(flat0[Key(src, k.page)])
              && 0 <= Frame(flat0[Key(src, k.page)]) < |mem0|
              && mem2[Frame(flat2[k])] == mem0[Frame(flat0[Key(src, k.page)])]
    {
      if k != Key(dst, n) {
        assert NewPage(mem0, owner0, mem1, owner1, k, flat1[k]);
      }
    }
  }

  lemma CopiedUndone(mem0: seq<Page>, owner0: seq<Use>, flat0: map<Key, int>, home0: map<Loc, int>, mem1: seq<Page>,
                     owner1: seq<Use>, flat1: map<Key, int>,
                     mem2: seq<Page>, owner2: seq<Use>, list2: seq<int>, mem3: seq<Page>, owner3: seq<Use>,
                     list3: seq<int>,
                     src: int, dst: int, n: int)
    requires Copied(mem0, owner0, flat0, mem1, owner1, flat1, src, dst, n) && SpacesOk(mem0, owner0, flat0, home0, {})
    requires forall k :: k in flat0 && k.root == dst ==> n <= k.page
    requires Took(mem1, owner1, mem2, owner2, dst)
    requires Released(mem2, owner2, list2, mem3, owner3, list3, dst, 0, n, true)
    ensures flat1 - Range(dst, 0, n) == flat0
    ensures Took(mem0, owner0, mem3, owner3, dst)
  {
    hide SpacesOk, Took, Released, Copied, Range;
    CopiedAway(mem0, owner0, flat0, mem1, owner1, flat1, src, dst, n);
    CopiedTook(mem0, owner0, flat0, mem1, owner1, flat1, src, dst, n);
    NoneMappedBelow(mem0, owner0, flat0, home0, dst, n);
    TookUndone(mem0, owner0, mem1, owner1, mem2, owner2, list2, mem3, owner3, list3, dst, n);
  }

  lemma CopiedAway(mem0: seq<Page>, owner0: seq<Use>, flat0: map<Key, int>, mem1: seq<Page>, owner1: seq<Use>,
                   flat1: map<Key, int>,
                   src: int, dst: int, n: int)
    requires Copied(mem0, owner0, flat0, mem1, owner1, flat1, src, dst, n) && forall k ::
               k in flat0 && k.root == dst ==> n <= k.page
    ensures flat1 - Range(dst, 0, n) == flat0
  {
    hide Took, NewPage, Flags, Frame;
    forall k | k in flat1 && k !in flat0 ensures k in Range(dst, 0, n) {
      assert k == Key(dst, k.page);
    }
  }

  lemma NoneMappedBelow(mem: seq<Page>, owner: seq<Use>, flat: map<Key, int>, home: map<Loc, int>, root: int, n: int)
    requires SpacesOk(mem, owner, flat, home, {}) && forall k :: k in flat && k.root == root ==> n <= k.page
    ensures forall f :: 0 <= f < |owner| && owner[f].Mapped? && owner[f].root == root ==> n <= owner[f].page
  {
    forall f | 0 <= f < |owner| && owner[f].Mapped? && owner[f].root == root ensures n <= owner[f].page {
      assert Key(root, owner[f].page) in flat;
    }
  }

  lemma TookUndone(mem0: seq<Page>, owner0: seq<Use>, mem1: seq<Page>, owner1: seq<Use>, mem2: seq<Page>,
                   owner2: seq<Use>, list2: seq<int>,
                   mem3: seq<Page>, owner3: seq<Use>, list3: seq<int>, dst: int, n: int)
    requires Took(mem0, owner0, mem1, owner1, dst) && Took(mem1, owner1, mem2, owner2, dst)
    requires Released(mem2, owner2, list2, mem3, owner3, list3, dst, 0, n, true)
    requires forall f :: 0 <= f < |owner0| && owner0[f].Mapped? && owner0[f].root == dst ==> n <= owner0[f].page
    ensures Took(mem0, owner0, mem3, owner3, dst)
  {
  }

  lemma CopiedFresh(mem0: seq<Page>, owner0: seq<Use>, flat0: map<Key, int>, mem: seq<Page>, owner: seq<Use>,
                    flat: map<Key, int>, src: int, dst: int, n: int)
    requires Copied(mem0, owner0, flat0, mem, owner, flat, src, dst, n) && Key(dst, n) !in flat0
    ensures Key(dst, n) !in flat
  {
  }

  lemma CopiedTook(mem0: seq<Page>, owner0: seq<Use>, flat0: map<Key, int>, mem: seq<Page>, owner: seq<Use>,
                   flat: map<Key, int>, src: int, dst: int, n: int)
    requires Copied(mem0, owner0, flat0, mem, owner, flat, src, dst, n)
    ensures Took(mem0, owner0, mem, owner, dst)
  {
  }

  lemma FlagsOfLeaf(mem: seq<Page>, owner: seq<Use>, flat: map<Key, int>, home: map<Loc, int>, k: Key)
    requires SpacesOk(mem, owner, flat, home, {}) && k in flat
    ensures var flags := Flags(flat[k]); 0 <= flags < 1024 && MapsPage(flags) && WithValid(flags) == flags
  {
    LeafFlags(flat[k]);
  }

  lemma TookRoot(mem: seq<Page>, owner: seq<Use>, mem': seq<Page>, owner': seq<Use>, r: int, root: int)
    requires Took(mem, owner, mem', owner', root) && IsRoot(owner, r)
    ensures IsRoot(owner', r) && owner'[r] == owner[r]
  {
  }

  /** A page taken from the free list, filled and mapped, or given back. */
  lemma TookOne(mem0: seq<Page>, owner0: seq<Use>, f: int, contents: Page, mem1: seq<Page>, owner1: seq<Use>,
                list1: seq<int>, list2: seq<int>,
                mem2: seq<Page>, owner2: seq<Use>, root: int, page: int, n: int)
    requires |mem0| == |owner0| && 0 <= f < |mem0| && owner0[f].Free? && mem1 == mem0[f := contents]
             && owner1 == owner0[f := Held]
    requires 0 <= n <= 1 && page < TOP && MappedRange(mem1, owner1, list1, mem2, owner2, list2, root, page, n, f)
    ensures |mem2| == |mem0| == |owner2|
    ensures n == 1 ==> Took(mem0, owner0, mem2, owner2, root) && owner2[f] == Mapped(root, page) && mem2[f] == contents
    ensures n == 0 ==> owner2[f].Held?
  {
  }

  lemma TookNone(mem0: seq<Page>, owner0: seq<Use>, f: int, contents: Page, mem1: seq<Page>, owner1: seq<Use>,
                 list1: seq<int>, list2: seq<int>,
                 mem2: seq<Page>, owner2: seq<Use>, mem3: seq<Page>, owner3: seq<Use>, root: int, page: int)
    requires |mem0| == |owner0| && 0 <= f < |mem0| && owner0[f].Free? && mem1 == mem0[f := contents]
             && owner1 == owner0[f := Held]
    requires MappedRange(mem1, owner1, list1, mem2, owner2, list2, root, page, 0, f)
    requires |mem3| == |mem2| == |owner3| && owner3[f].Free? && forall g ::
               0 <= g < |mem2| && g != f ==> mem3[g] == mem2[g] && owner3[g] == owner2[g]
    ensures Took(mem0, owner0, mem3, owner3, root)
  {
  }
}
