/** A process's view of kernel/vm.c: sbrk (kernel/sysproc.c), page faults, copies between kernel and
    user, and fork's copy (kernel/proc.c). */
module VmUser {
  import opened VmFormat
  import opened VmModel
  import opened VmCode
  import opened VmImage

  class Process {
    const vm: Vm
    var root: int    // p->pagetable
    var sz: int      // p->sz

    constructor (v: Vm, r: int, s: int)
      ensures vm == v && root == r && sz == s
    {
      vm, root, sz := v, r, s;
    }

    ghost predicate Ok()
      reads this, vm
    {
      vm.Ok() && vm.stale == {} && SpaceOk(vm.owner, vm.flat, root, sz)
    }

    ghost function Memory(): (m: Image)
      requires 0 <= sz
      reads this, vm
    {
      ImageOf(vm.mem, vm.flat, root, sz)
    }

    /** The page is mapped, for the user. */
    ghost predicate Present(page: int)
      reads this, vm
    {
      Key(root, page) in vm.flat && User(vm.flat[Key(root, page)]) && 0 <= page < Pages(sz)
    }

    /** walkaddr: the page's address if it is mapped for the user, else 0. */
    method Walkaddr(va: int) returns (pa: int)
      requires Ok() && 0 <= va
      modifies vm
      ensures Ok() && vm.mem == old(vm.mem) && vm.flat == old(vm.flat) && vm.starved == old(vm.starved)
      ensures vm.list == old(vm.list)
      ensures pa != 0 <==> Present(va / 4096)
      ensures pa != 0 ==> pa == Frame(vm.flat[Key(root, va / 4096)]) * 4096
    {
      hide FreeOk, SpacesOk;
      if va >= MAXPAGE * 4096 {
        return 0;
      }
      var t, i := vm.Walk(root, va, false);
      if t == 0 {
        return 0;
      }
      LeafEntry(vm.mem, vm.owner, vm.flat, vm.home, t, i);
      MappedAtKey(vm.mem, vm.owner, vm.flat, vm.home, Key(root, va / 4096));
      var pte := Entry(vm.mem[t], i);
      if !Valid(pte) || !User(pte) {
        return 0;
      }
      pa := Frame(pte) * 4096;
    }

    /** ismapped */
    method Ismapped(va: int) returns (b: bool)
      requires Ok() && 0 <= va < MAXPAGE * 4096
      modifies vm
      ensures Ok() && vm.mem == old(vm.mem) && vm.flat == old(vm.flat) && vm.owner == old(vm.owner)
              && vm.home == old(vm.home)
      ensures vm.list == old(vm.list) && vm.starved == old(vm.starved) && b == (Key(root, va / 4096) in vm.flat)
    {
      hide FreeOk, SpacesOk;
      var t, i := vm.Walk(root, va, false);
      if t == 0 {
        return false;
      }
      LeafEntry(vm.mem, vm.owner, vm.flat, vm.home, t, i);
      b := Valid(Entry(vm.mem[t], i));
    }

    /** vmfault: map a cleared page at an address below the size that has none. The user cannot tell. */
    method Vmfault(va: int) returns (pa: int)
      requires Ok() && 0 <= va
      modifies vm
      ensures Ok() && Memory() == old(Memory())
      ensures pa != 0 ==>
                pa / 4096 * 4096 == pa && Present(va / 4096) && pa == Frame(vm.flat[Key(root, va / 4096)]) * 4096
      ensures pa == 0 ==>
                (vm.starved && |old(vm.list)| < 3) || va >= sz || Key(root, va / 4096) in old(vm.flat)
      ensures pa != 0 ==> |vm.list| >= |old(vm.list)| - 3
      ensures old(vm.starved) ==> vm.starved
      ensures pa == 0 && !vm.starved ==> vm.flat == old(vm.flat)
      ensures pa != 0 ==> vm.starved == old(vm.starved) && va < sz && Key(root, va / 4096) !in old(vm.flat)
    {
      hide FreeOk, SpacesOk, Took, SpaceOk, ImageOf, Frame, Pte, User, Pages;
      SpaceParts(vm.owner, vm.flat, root, sz);
      if va >= sz {
        return 0;
      }
      BelowSize(va, sz);
      var a := va / 4096 * 4096;
      var mapped := Ismapped(a);
      if mapped {
        return 0;
      }
      assert WithValid(PTE_W + PTE_U + PTE_R) == HEAP && MapsPage(PTE_W + PTE_U + PTE_R);
      ghost var mem0, owner0, flat0, home0 := vm.mem, vm.owner, vm.flat, vm.home;
      pa := vm.MapNew(root, a, PTE_W + PTE_U + PTE_R, Filled(0));
      if pa != 0 {
        FillUnseen(mem0, owner0, flat0, home0, vm.mem, vm.owner, vm.flat, root, va / 4096, pa / 4096, root, sz);
        FillKeepsSpace(owner0, flat0, mem0, vm.mem, vm.owner, vm.flat, root, sz, va, pa / 4096);
      } else {
        TookUnseen(mem0, owner0, flat0, home0, vm.mem, vm.owner, root, root, sz);
        TookKeepsSpace(owner0, flat0, mem0, vm.mem, vm.owner, root, root, sz);
      }
    }

    /** walkaddr, or vmfault if that finds nothing: how copyin and copyout reach a page. */
    method Resolve(va0: int) returns (pa: int)
      requires Ok() && 0 <= va0 && va0 % 4096 == 0
      modifies vm
      ensures Ok() && Memory() == old(Memory()) && (old(vm.starved) ==> vm.starved)
      ensures !vm.starved ==> (pa != 0 <==> Reachable(Memory(), va0 / 4096))
      ensures pa == 0 ==> !Reachable(Memory(), va0 / 4096) || (vm.starved && |old(vm.list)| < 3)
      ensures pa != 0 ==> |vm.list| >= |old(vm.list)| - 3
      ensures pa != 0 ==>
                Reachable(Memory(), va0 / 4096) && Present(va0 / 4096)
                    && pa == Frame(vm.flat[Key(root, va0 / 4096)]) * 4096
    {
      hide FreeOk, SpacesOk, SpaceOk, ImageOf, Frame, Flags;
      SpaceParts(vm.owner, vm.flat, root, sz);
      pa := Walkaddr(va0);
      ghost var flat0 := vm.flat;
      PresentSeen(vm.mem, vm.owner, vm.flat, vm.home, root, sz, va0 / 4096);
      if pa == 0 {
        pa := Vmfault(va0);
        PresentSeen(vm.mem, vm.owner, vm.flat, vm.home, root, sz, va0 / 4096);
      }
    }

    /** copyin */
    method CopyIn(srcva: int, len: int) returns (dst: Got)
      requires Ok() && 0 <= srcva && 0 <= len
      modifies vm
      ensures Ok() && Memory() == old(Memory()) && (old(vm.starved) ==> vm.starved)
      ensures dst == Copyin(Memory(), srcva, len)
              || (vm.starved && |old(vm.list)| < 3 * Touches(srcva, len) && dst == Fault)
    {
      hide FreeOk, SpacesOk, SpaceOk, ImageOf, Frame, Flags, Copyin, Piece, After;
      SpaceParts(vm.owner, vm.flat, root, sz);
      var got: seq<Byte>, va, left := [], srcva, len;
      ghost var k := 0;
      assert After([], Copyin(Memory(), srcva, len)) == Copyin(Memory(), srcva, len) by {
        AfterNothing(Copyin(Memory(), srcva, len));
      }
      while left > 0
        invariant Ok() && Memory() == old(Memory()) && (old(vm.starved) ==> vm.starved) && 0 <= va && 0 <= left
        invariant After(got, Copyin(old(Memory()), va, left)) == Copyin(old(Memory()), srcva, len)
        invariant k + Touches(va, left) == Touches(srcva, len) && |vm.list| >= |old(vm.list)| - 3 * k
        decreases left
      {
        var va0 := va / 4096 * 4096;
        var pa := Resolve(va0);
        if pa == 0 {
          CopyinFault(old(Memory()), va, left, got);
          return Fault;
        }
        PresentSeen(vm.mem, vm.owner, vm.flat, vm.home, root, sz, va / 4096);
        var n := Piece(va, left);
        CopyinStep(old(Memory()), va, left, got);
        got := got + vm.mem[pa / 4096][va % 4096..va % 4096 + n];
        left := left - n;
        va := va0 + 4096;
        k := k + 1;
      }
      CopyinDone(old(Memory()), va, got);
      dst := Got(got);
    }

    /** One turn of copyout's loop: bytes that lie in one page. */
    method CopyOutPage(va: int, bytes: seq<Byte>) returns (r: int)
      requires Ok() && 0 <= va && va % 4096 + |bytes| <= 4096
      modifies vm
      ensures Ok() && (old(vm.starved) ==> vm.starved) && (r == 0 || r == -1)
      ensures r == 0 ==> Reachable(old(Memory()), va / 4096) && Writable(old(Memory()).pages[va / 4096].flags)
      ensures r == 0 ==> |vm.list| >= |old(vm.list)| - 3
      ensures r == -1 ==>
                !Reachable(old(Memory()), va / 4096) || !Writable(old(Memory()).pages[va / 4096].flags)
                || (vm.starved && |old(vm.list)| < 3)
      ensures r == -1 && !vm.starved ==>
                !Reachable(old(Memory()), va / 4096) || !Writable(old(Memory()).pages[va / 4096].flags)
      ensures Memory() == if r == 0 then Stored(old(Memory()), va, bytes) else old(Memory())
    {
      hide FreeOk, SpacesOk, SpaceOk, ImageOf, Frame, Flags;
      SpaceParts(vm.owner, vm.flat, root, sz);
      var va0 := va / 4096 * 4096;
      if va0 >= MAXPAGE * 4096 {
        return -1;
      }
      var pa := Resolve(va0);
      if pa == 0 {
        return -1;
      }
      SpaceParts(vm.owner, vm.flat, root, sz);
      PresentSeen(vm.mem, vm.owner, vm.flat, vm.home, root, sz, va / 4096);
      var t, i := vm.Walk(root, va0, false);
      LeafEntry(vm.mem, vm.owner, vm.flat, vm.home, t, i);
      if !Writable(Entry(vm.mem[t], i)) {
        return -1;
      }
      StoreSeen(vm.mem, vm.owner, vm.flat, vm.home, root, va, bytes, sz);
      vm.WritePage(pa, Overlay(vm.mem[pa / 4096], va % 4096, bytes));
      r := 0;
    }

    /** copyout */
    method CopyOut(dstva: int, src: seq<Byte>) returns (r: int)
      requires Ok() && 0 <= dstva
      modifies vm
      ensures Ok() && (old(vm.starved) ==> vm.starved)
      ensures (Memory(), r) == Copyout(old(Memory()), dstva, src)
              || (vm.starved && |old(vm.list)| < 3 * Touches(dstva, |src|)
                  && r == -1 && exists k :: PartlyOut(old(Memory()), dstva, src, k, Memory()))
      ensures src != [] && dstva / 4096 < |old(Memory()).pages| && ReadOnly(old(Memory()).pages[dstva / 4096].flags) ==>
                r == -1 && Memory() == old(Memory())
    {
      hide SpaceOk, ImageOf, VmOk, Copyout, CopyingOut, PartlyOut, Stored, ReadOnly;
      SpaceParts(vm.owner, vm.flat, root, sz);
      if src != [] && dstva / 4096 < |Memory().pages| && ReadOnly(Memory().pages[dstva / 4096].flags) {
        ReadOnlyRefuses(Memory(), dstva, src);
      }
      var k, va := 0, dstva;
      ghost var turns := 0;
      CopyoutStart(Memory(), dstva, src);
      while k < |src|
        invariant Ok() && (old(vm.starved) ==> vm.starved) && 0 <= va && 0 <= sz && 0 <= k <= |src|
        invariant CopyingOut(old(Memory()), dstva, src, k, Memory(), va)
        invariant turns + Touches(va, |src| - k) == Touches(dstva, |src|) && |vm.list| >= |old(vm.list)| - 3 * turns
      {
        var n := Piece(va, |src| - k);
        ghost var m := Memory();
        r := CopyOutPage(va, src[k..k + n]);
        if r == -1 {
          CopyoutStops(old(Memory()), dstva, src, k, m, va);
          return;
        }
        CopyoutTurn(old(Memory()), dstva, src, k, m, va);
        k := k + n;
        va := va / 4096 * 4096 + 4096;
        turns := turns + 1;
      }
      CopyoutDone(old(Memory()), dstva, src, Memory(), va);
      r := 0;
    }

    /** A load or store that faults: usertrap calls vmfault, and kills the process if that fails. The
        hardware walks the tree in memory. Between the size and the end of its page the access succeeds
        exactly if that page has been allocated. */
    method Touch(va: int, write: bool) returns (e: int)
      requires Ok() && 0 <= va < MAXPAGE * 4096
      modifies vm
      ensures Ok() && Memory() == old(Memory()) && (old(vm.starved) ==> vm.starved)
      ensures !vm.starved ==>
                (e != 0 <==> Allowed(Memory(), va, write) && (va < sz || Key(root, va / 4096) in old(vm.flat)))
      ensures e != 0 ==> Allowed(Memory(), va, write) && Present(va / 4096) && vm.flat[Key(root, va / 4096)] == e
      ensures e == 0 ==>
                !(Allowed(Memory(), va, write) && (va < sz || Key(root, va / 4096) in old(vm.flat)))
                || (vm.starved && |old(vm.list)| < 3)
    {
      hide FreeOk, SpacesOk, SpaceOk, ImageOf, Frame, Flags, Writable, Readable, Lookup, User;
      SpaceParts(vm.owner, vm.flat, root, sz);
      NotAbove(vm.owner, vm.flat, root, sz, va / 4096);
      TreeRefinesMap(vm.end, vm.mem, vm.owner, vm.list, vm.flat, vm.home, root, va / 4096);
      PresentSeen(vm.mem, vm.owner, vm.flat, vm.home, root, sz, va / 4096);
      if Key(root, va / 4096) in vm.flat {
        MappedIsEntry(vm.mem, vm.owner, vm.flat, vm.home, Key(root, va / 4096));
      }
      e := Lookup(vm.mem, root, va / 4096);
      if e != 0 && User(e) && (if write then Writable(e) else Readable(e)) {
        return;
      }
      var pa := Vmfault(va);
      if pa == 0 {
        return 0;
      }
      HeapBits();
      SpaceParts(vm.owner, vm.flat, root, sz);
      TreeRefinesMap(vm.end, vm.mem, vm.owner, vm.list, vm.flat, vm.home, root, va / 4096);
      e := Lookup(vm.mem, root, va / 4096);
      MappedIsEntry(vm.mem, vm.owner, vm.flat, vm.home, Key(root, va / 4096));
    }

    method UserLoad(va: int) returns (r: Got)
      requires Ok() && 0 <= va < sz
      modifies vm
      ensures Ok() && Memory() == old(Memory()) && (old(vm.starved) ==> vm.starved)
      ensures r == Load(Memory(), va) || (vm.starved && |old(vm.list)| < 3 && r == Fault)
    {
      hide FreeOk, SpacesOk, SpaceOk, ImageOf, Frame, Flags, Writable, Readable, User;
      SpaceParts(vm.owner, vm.flat, root, sz);
      BelowSize(va, sz);
      var e := Touch(va, false);
      PresentSeen(vm.mem, vm.owner, vm.flat, vm.home, root, sz, va / 4096);
      r := if e == 0 then Fault else Got([vm.mem[Frame(e)][va % 4096]]);
    }

    method UserStore(va: int, b: Byte) returns (r: Got)
      requires Ok() && 0 <= va < sz
      modifies vm
      ensures Ok() && (old(vm.starved) ==> vm.starved)
      ensures (Memory(), r) == Store(old(Memory()), va, b)
              || (vm.starved && |old(vm.list)| < 3 && r == Fault && Memory() == old(Memory()))
    {
      hide FreeOk, SpacesOk, SpaceOk, ImageOf, Flags, Writable, Readable, User;
      SpaceParts(vm.owner, vm.flat, root, sz);
      BelowSize(va, sz);
      var e := Touch(va, true);
      if e == 0 {
        return Fault;
      }
      StoreSeen(vm.mem, vm.owner, vm.flat, vm.home, root, va, [b], sz);
      vm.WritePage(Frame(e) * 4096, Overlay(vm.mem[Frame(e)], va % 4096, [b]));
      r := Got([]);
    }

    /** growproc for a negative n. */
    method Shrink(n: int)
      requires Ok() && -0x8000_0000 <= n < 0
      modifies vm, this`sz
      ensures Ok() && 0 <= sz && vm.starved == old(vm.starved) && Memory() == Sbrk(old(Memory()), n).0
    {
      hide FreeOk, RangeOk, SpacesOk, SpaceOk, ImageOf, Filling, Released, Took, Range, IsRoot;
      SpaceParts(vm.owner, vm.flat, root, sz);
      ghost var mem0, owner0, flat0, home0, list0 := vm.mem, vm.owner, vm.flat, vm.home, vm.list;
      var size := vm.Uvmdealloc(root, sz, (sz + n) % 0x1_0000_0000_0000_0000);
      if sz + n >= 0 {
        ShrinkSeen(mem0, owner0, flat0, home0, list0, vm.mem, vm.owner, vm.list, vm.flat, root, sz, n);
        ShrunkSpace(mem0, owner0, list0, flat0, vm.mem, vm.owner, vm.list, vm.flat, root, sz, n);
      } else {
        var huge := Pages((sz + n) % 0x1_0000_0000_0000_0000);
        NothingReleased(mem0, owner0, list0, flat0, home0, vm.mem, vm.owner, vm.list, vm.flat, root, sz, huge,
                        Pages(sz) - huge);
      }
      sz := size;
    }

    /** growproc: uint64 arithmetic, so a size below zero wraps to a huge one. */
    method Growproc(n: int) returns (r: int)
      requires Ok() && -0x8000_0000 <= n < 0x8000_0000
      modifies vm, this`sz
      ensures Ok() && (old(vm.starved) ==> vm.starved)
      ensures (r == 0 || r == -1) && 0 <= sz
      ensures (Memory() == Sbrk(old(Memory()), n).0 && (r == -1 <==> Sbrk(old(Memory()), n).1 == -1))
              || (vm.starved && |old(vm.list)| < 3 * (Pages(old(sz) + n) - Pages(old(sz)))
                  && r == -1 && n > 0 && Memory() == old(Memory()))
    {
      hide FreeOk, RangeOk, SpacesOk, SpaceOk, ImageOf, Filling, Released, Took, Range, IsRoot;
      SpaceParts(vm.owner, vm.flat, root, sz);
      ghost var mem0, owner0, flat0, home0 := vm.mem, vm.owner, vm.flat, vm.home;
      if n > 0 {
        if sz + n > TOP * 4096 {
          return -1;
        }
        UnmappedAbove(vm.owner, vm.flat, root, sz, n);
        ghost var ok;
        var size;
        size, ok := vm.Uvmalloc(root, sz, sz + n, PTE_W);
        if size == 0 {
          TookKeepsSpace(owner0, flat0, mem0, vm.mem, vm.owner, root, root, sz);
          TookUnseen(mem0, owner0, flat0, home0, vm.mem, vm.owner, root, root, sz);
          return -1;
        }
        GrowthSeen(mem0, owner0, flat0, home0, vm.mem, vm.owner, vm.flat, root, sz, n);
        FilledSpace(mem0, owner0, flat0, vm.mem, vm.owner, vm.flat, root, sz, n);
        sz := size;
      } else if n < 0 {
        Shrink(n);
      } else {
        GrowthSeen(mem0, owner0, flat0, home0, mem0, owner0, flat0, root, sz, 0);
      }
      r := 0;
    }

    /** sys_sbrk: eager, or lazy growth by moving the size only. Both look the same. */
    method SysSbrk(n: int, eager: bool) returns (r: int)
      requires Ok() && -0x8000_0000 <= n < 0x8000_0000
      modifies vm, this`sz
      ensures Ok() && (old(vm.starved) ==> vm.starved)
      ensures (Memory(), r) == Sbrk(old(Memory()), n)
              || (vm.starved && |old(vm.list)| < 3 * (Pages(old(sz) + n) - Pages(old(sz)))
                  && r == -1 && eager && n > 0 && Memory() == old(Memory()))
    {
      hide FreeOk, SpacesOk, SpaceOk, ImageOf;
      SpaceParts(vm.owner, vm.flat, root, sz);
      var addr := sz;
      if eager || n < 0 {
        var g := Growproc(n);
        if g < 0 {
          return -1;
        }
      } else {
        if addr + n > TOP * 4096 {
          return -1;
        }
        GrowthSeen(vm.mem, vm.owner, vm.flat, vm.home, vm.mem, vm.owner, vm.flat, root, sz, n);
        GrownSpace(vm.owner, vm.flat, root, sz, n);
        sz := sz + n;
      }
      r := addr;
    }

    /** kfork's copy: a new address space that looks the same; if memory runs out it is taken apart again. */
    method Fork() returns (child: int)
      requires Ok()
      modifies vm
      ensures Ok() && (old(vm.starved) ==> vm.starved)
      ensures Memory() == old(Memory())
      ensures child == 0 ==> vm.starved && vm.flat == old(vm.flat) && SameFree(old(vm.owner), vm.owner)
      ensures child == 0 ==> |old(vm.list)| < 1 + 3 * MappedBelow(old(vm.flat), root, Pages(sz))
      ensures child != 0 ==>
                SpaceOk(vm.owner, vm.flat, child, sz) && 0 <= sz && ImageOf(vm.mem, vm.flat, child, sz) == old(Memory())
    {
      hide FreeOk, SpacesOk, SpaceOk, ImageOf, Took, Copied, SpaceFreed, SameFree;
      SpaceParts(vm.owner, vm.flat, root, sz);
      ghost var mem0, owner0, flat0, home0 := vm.mem, vm.owner, vm.flat, vm.home;
      child := vm.Uvmcreate();
      TookKeepsSpace(owner0, vm.flat, mem0, vm.mem, vm.owner, child, root, sz);
      if child == 0 {
        AllSameFree(vm.owner);
        return;
      }
      SpaceParts(vm.owner, vm.flat, root, sz);
      TookUnseen(mem0, owner0, vm.flat, home0, vm.mem, vm.owner, child, root, sz);
      ghost var mem1, owner1, flat1, home1 := vm.mem, vm.owner, vm.flat, vm.home;
      RootPlace(vm.mem, vm.owner, vm.flat, vm.home, root);
      var r := vm.Uvmcopy(root, child, sz);
      if r < 0 {
        ghost var mem2, owner2 := vm.mem, vm.owner;
        TookKeepsSpace(owner1, vm.flat, mem1, vm.mem, vm.owner, child, root, sz);
        SpaceParts(vm.owner, vm.flat, root, sz);
        RootPlace(vm.mem, vm.owner, vm.flat, vm.home, root);
        TookRoot(mem1, owner1, vm.mem, vm.owner, child, child);
        vm.Uvmfree(child, 0);
        FreedSpace(mem2, owner2, flat1, vm.mem, vm.owner, vm.flat, root, child, sz);
        assert vm.flat == flat0;
        UndoneSpace(mem0, owner0, flat0, home0, mem1, owner1, mem2, owner2, vm.mem, vm.owner, child, root, sz);
        return 0;
      }
      CopiedSpaces(mem1, owner1, flat1, vm.mem, vm.owner, vm.flat, root, child, sz);
      CopySeen(mem1, owner1, flat1, home1, vm.mem, vm.owner, vm.flat, root, child, sz);
    }

    /** One call of the process. */
    method Do(c: Call, eager: bool) returns (o: Observed)
      requires Ok() && 0 <= sz && InScope(sz, c)
      modifies vm, this`sz, this`root
      ensures Ok() && 0 <= sz && (old(vm.starved) ==> vm.starved)
      ensures Step(old(Memory()), c, Memory(), o, vm.starved)
      ensures Step(old(Memory()), c, Memory(), o, |old(vm.list)| < Need(old(vm.flat), old(root), old(sz), c))
    {
      hide VmOk, SpaceOk, ImageOf, Sbrk, Load, Store, Copyin, Copyout;
      match c {
      case SbrkCall(n) =>
        var r := SysSbrk(n, eager);
        o := Number(r);
      case LoadCall(va) =>
        var got := UserLoad(va);
        o := Data(got);
      case StoreCall(va, b) =>
        var got := UserStore(va, b);
        o := Data(got);
      case ReadCall(va, len) =>
        var got := CopyIn(va, len);
        o := Data(got);
      case WriteCall(va, bytes) =>
        var r := CopyOut(va, bytes);
        o := Number(r);
      case ForkCall(child) =>
        var r := Fork();
        if child && r != 0 {
          root := r;
        }
        o := Number(if r == 0 then -1 else 0);
      }
      SpaceParts(vm.owner, vm.flat, root, sz);
    }

    /** Any run, growing eagerly or lazily as `eager` says for each call. If memory never ran out, what the
        process observes does not depend on `eager`. */
    method Run(calls: seq<Call>, eager: seq<bool>) returns (obs: seq<Observed>)
      requires Ok() && 0 <= sz && |eager| == |calls|
      modifies vm, this`sz, this`root
      ensures Ok() && 0 <= sz && (old(vm.starved) ==> vm.starved)
      ensures Lives(old(Memory()), calls, obs, vm.starved)
      decreases |calls|
    {
      hide VmOk, SpaceOk, ImageOf, Behave, Failed;
      if calls == [] || !InScope(sz, calls[0]) {
        return [];
      }
      var o := Do(calls[0], eager[0]);
      if Killed(calls[0], o) {
        return [o];
      }
      var rest := Run(calls[1..], eager[1..]);
      obs := [o] + rest;
    }
  }

  /** Lazy equals eager: two machines whose processes see the same memory, running the same calls with any
      choices of when to allocate, show their processes the same, as long as neither runs out of memory. */
  method LazyEqualsEager(p: Process, q: Process, calls: seq<Call>, choices1: seq<bool>, choices2: seq<bool>)
    returns (seen1: seq<Observed>, seen2: seq<Observed>)
    requires p.vm != q.vm && p.Ok() && q.Ok() && 0 <= p.sz && 0 <= q.sz && p.Memory() == q.Memory()
    requires |choices1| == |choices2| == |calls|
    modifies p.vm, p`sz, p`root, q.vm, q`sz, q`root
    ensures !p.vm.starved && !q.vm.starved ==> seen1 == seen2
  {
    ghost var m := p.Memory();
    seen1 := p.Run(calls, choices1);
    seen2 := q.Run(calls, choices2);
    if !p.vm.starved && !q.vm.starved {
      FedLives(m, calls, seen1);
      FedLives(m, calls, seen2);
    }
  }
}
