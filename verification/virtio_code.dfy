/** The driver's code, and the device as it reads and writes the same memory. */
module VirtioCode {
  import opened VirtioDisk
  import opened VirtioState
  import opened VirtioProgress

  class Disk {
    var mem: Mem
    var panicked: bool
    ghost var book: Book

    /** After virtio_disk_init: cleared rings and free descriptors. */
    constructor (buffers: seq<Buf>, contents: seq<Content>)
      requires BlocksOk(buffers, contents) && forall b :: 0 <= b < |buffers| ==> !buffers[b].disk
      ensures Ok() && book.reqs == map[] && mem.bufs == buffers && mem.blocks == contents && mem.pending == -1
              && !panicked
      ensures book.hist == Hist([], [], [])
    {
      mem := Mem(seq(8, i => Desc(Nowhere, 0, 0, 0)), seq(8, i => 0), 0, seq(8, i => 0), 0, seq(8, i => Info(-1, 0)),
                 seq(8, i => Op(0, 0)), buffers,
                 seq(8, i => true), 0, 0, {}, {}, -1, contents, -1, false);
      panicked := false;
      book := Book(seq(8, i => FREE), map[], [], [], Hist([], [], []));
    }

    ghost function Now(): (s: Snap)
      reads this
    {
      Of(mem, book)
    }

    ghost predicate Ok()
      reads this
    {
      SnapOk(Now())
    }

    ghost predicate Chained()
      reads this
    {
      VirtioState.Chains(Now())
    }

    /** alloc_desc: the first free descriptor, or -1. */
    method AllocDesc() returns (i: int)
      requires Chained()
      modifies this`mem, this`book
      ensures Chained() && |old(mem).free| == |old(book).owner| == NUM
      ensures i == -1 ==> mem == old(mem) && book == old(book) && forall j :: 0 <= j < NUM ==> !mem.free[j]
      ensures i != -1 ==> 0 <= i < NUM && old(mem).free[i] && forall j :: 0 <= j < i ==> !old(mem).free[j]
      ensures i != -1 ==>
                mem == old(mem).(free := old(mem).free[i := false])
                    && book == old(book).(owner := old(book).owner[i := HELD])
      ensures i != -1 ==> old(book).owner[i] == FREE
    {
      hide ChainsOk;
      FreeThree(mem.free, mem.desc, mem.info, mem.ops, book.owner, mem.bufs, book.reqs);
      i := 0;
      while i < NUM
        invariant 0 <= i <= NUM && mem == old(mem) && book == old(book) && forall j :: 0 <= j < i ==> !mem.free[j]
      {
        if mem.free[i] {
          HoldKeeps(mem.free, mem.desc, mem.info, mem.ops, book.owner, mem.bufs, book.reqs, i);
          mem := mem.(free := mem.free[i := false]);
          book := book.(owner := book.owner[i := HELD]);
          return;
        }
        i := i + 1;
      }
      i := -1;
    }

    /** free_desc: its panics are not reached, as a held descriptor is in range and not free. */
    method FreeDesc(i: int)
      requires Chained() && 0 <= i < NUM && i < |book.owner| && book.owner[i] == HELD
      modifies this`mem, this`book
      ensures Chained() && |old(mem).free| == |old(mem).desc| == |old(book).owner| == NUM && !old(mem).free[i]
      ensures mem == old(mem).(free := old(mem).free[i := true], desc := old(mem).desc[i := Desc(Nowhere, 0, 0, 0)])
      ensures book == old(book).(owner := old(book).owner[i := FREE])
    {
      hide ChainsOk;
      FreeThree(mem.free, mem.desc, mem.info, mem.ops, book.owner, mem.bufs, book.reqs);
      ReleaseKeeps(mem.free, mem.desc, mem.info, mem.ops, book.owner, mem.bufs, book.reqs, i);
      mem := mem.(desc := mem.desc[i := Desc(Nowhere, 0, 0, 0)]);
      mem := mem.(free := mem.free[i := true]);
      book := book.(owner := book.owner[i := FREE]);
    }

    /** alloc3_desc: three descriptors, or none. */
    method Alloc3Desc() returns (ok: bool, idx: seq<int>)
      requires Chained()
      modifies this`mem, this`book
      ensures Chained() && |idx| == 3 && |old(book).owner| == NUM && (ok <==> FreeCount(old(mem).free) >= 3)
      ensures ok ==> Distinct(idx) && (forall k :: 0 <= k < 3 ==> 0 <= idx[k] < NUM && old(book).owner[idx[k]] == FREE)
      ensures ok ==> book == old(book).(owner := WithHeld(old(book).owner, idx)) && mem == old(mem).(free := mem.free)
      ensures !ok ==> book == old(book) && mem == old(mem).(desc := mem.desc)
    {
      hide ChainsOk;
      FreeThree(mem.free, mem.desc, mem.info, mem.ops, book.owner, mem.bufs, book.reqs);
      idx := [-1, -1, -1];
      var i := 0;
      assert WithHeld(book.owner, idx[..0]) == book.owner;
      while i < 3
        invariant 0 <= i <= 3 && |idx| == 3 && Chained() && mem == old(mem).(free := mem.free)
        invariant Distinct(idx[..i]) && forall k :: 0 <= k < i ==> 0 <= idx[k] < NUM && old(book).owner[idx[k]] == FREE
        invariant book == old(book).(owner := WithHeld(old(book).owner, idx[..i]))
      {
        var d := AllocDesc();
        if d < 0 {
          FreeThree(mem.free, mem.desc, mem.info, mem.ops, book.owner, mem.bufs, book.reqs);
          AllTaken(old(mem).free, old(book).owner, idx[..i]);
          UndoAlloc(idx, i, old(book), old(mem));
          return false, idx;
        }
        HeldOneMore(old(book).owner, idx, i, d);
        idx := idx[i := d];
        i := i + 1;
      }
      assert idx[..3] == idx;
      EnoughFree(old(mem).free, idx);
      ok := true;
    }

    /** alloc3_desc's inner loop: give back what was taken. */
    method UndoAlloc(idx: seq<int>, i: int, ghost book0: Book, ghost mem0: Mem)
      requires Chained() && 0 <= i <= |idx| && |book0.owner| == |mem0.free| == NUM
      requires forall k :: 0 <= k < NUM ==> (mem0.free[k] <==> book0.owner[k] == FREE)
      requires Distinct(idx[..i]) && forall k :: 0 <= k < i ==> 0 <= idx[k] < NUM && book0.owner[idx[k]] == FREE
      requires book == book0.(owner := WithHeld(book0.owner, idx[..i]))
               && mem == mem0.(free := mem.free, desc := mem.desc)
      modifies this`mem, this`book
      ensures Chained() && book == book0 && mem == mem0.(desc := mem.desc)
    {
      hide ChainsOk;
      var j := 0;
      while j < i
        invariant 0 <= j <= i && Chained() && book == book0.(owner := WithHeld(book0.owner, idx[j..i]))
                  && mem == mem0.(free := mem.free, desc := mem.desc)
      {
        HeldOneLess(book0.owner, idx, j, i);
        FreeDesc(idx[j]);
        j := j + 1;
      }
      FreeThree(mem.free, mem.desc, mem.info, mem.ops, book.owner, mem.bufs, book.reqs);
      assert WithHeld(book0.owner, idx[i..i]) == book0.owner;
      assert mem.free == mem0.free;
    }

    /** free_chain: follow the links of a chain of three that nobody uses any more. */
    method FreeChain(h: int, ghost r: Request)
      requires Chained() && 0 <= h < NUM && 0 <= r.i1 < NUM && 0 <= r.i2 < NUM && h != r.i1 && h != r.i2 && r.i1 != r.i2
      requires |book.owner| == |mem.desc| == NUM && book.owner[h] == HELD && book.owner[r.i1] == HELD
               && book.owner[r.i2] == HELD
      requires mem.desc[h].flags % 2 == 1 && mem.desc[h].next == r.i1 && mem.desc[r.i1].flags % 2 == 1
               && mem.desc[r.i1].next == r.i2
      requires mem.desc[r.i2].flags % 2 == 0
      modifies this`mem, this`book
      ensures Chained() && book == old(book).(owner := old(book).owner[h := FREE][r.i1 := FREE][r.i2 := FREE])
      ensures mem == old(mem).(free := mem.free, desc := mem.desc)
    {
      hide ChainsOk;
      var i := h;
      ghost var n := 0;
      while true
        invariant 0 <= n < 3 && i == [h, r.i1, r.i2][n] && Chained()
                  && mem == old(mem).(free := mem.free, desc := mem.desc)
        invariant |mem.desc| == NUM && book == old(book).(owner := book.owner)
        invariant book.owner == if n == 0 then old(book).owner else if n == 1 then old(book).owner[h := FREE]
                  else old(book).owner[h := FREE][r.i1 := FREE]
        invariant forall k :: 0 <= k < NUM && book.owner[k] == old(book).owner[k] ==> mem.desc[k] == old(mem).desc[k]
        decreases 3 - n
      {
        var flag := mem.desc[i].flags;
        var nxt := mem.desc[i].next;
        FreeDesc(i);
        if flag % 2 == 1 {
          i := nxt;
          n := n + 1;
        } else {
          break;
        }
      }
    }

    /** virtio_disk_rw's formatting of the three descriptors. */
    method MakeChain(b: int, write: bool, idx: seq<int>, ghost serial: nat)
      requires Chained() && BufsOk(mem.bufs, mem.info, book.reqs) && 0 <= b < |mem.bufs| && forall k ::
                 k in book.reqs ==> book.reqs[k].b != b
      requires |idx| == 3 && Distinct(idx) && |book.owner| == NUM && forall k ::
                 0 <= k < 3 ==> 0 <= idx[k] < NUM && book.owner[idx[k]] == HELD
      modifies this`mem, this`book
      ensures Chained() && BufsOk(mem.bufs, mem.info, book.reqs) && idx[0] !in old(book).reqs
      ensures book
              == old(book).(reqs :=
                            old(book).reqs[idx[0] := Request(b, write, idx[1], idx[2], Made, [], false, serial)],
                                 owner := old(book).owner[idx[0] := idx[0]][idx[1] := idx[0]][idx[2] := idx[0]])
      ensures |mem.info| == NUM && mem.info[idx[0]] == Info(b, 0xff)
      ensures mem == old(mem).(ops := mem.ops, desc := mem.desc, info := mem.info,
                               bufs := old(mem).bufs[b := old(mem).bufs[b].(disk := true)])
    {
      hide ChainsOk, BufsOk;
      var h := idx[0];
      ghost var r := Request(b, write, idx[1], idx[2], Made, [], false, serial);
      assert idx[0] != idx[1] && idx[0] != idx[2] && idx[1] != idx[2];
      MadeKeeps(mem.free, mem.desc, mem.info, mem.ops, book.owner, mem.bufs, book.reqs, h, r);
      mem := mem.(ops := mem.ops[h := Op(if write then 1 else 0, mem.bufs[b].block * 2)]);
      mem := mem.(desc := mem.desc[h := Desc(Header(h), 16, NEXT, idx[1])]);
      mem := mem.(desc := mem.desc[idx[1] := Desc(Data(b), 1024, (if write then 0 else WRITE) + NEXT, idx[2])]);
      mem := mem.(info := mem.info[h := mem.info[h].(status := 0xff)]);
      mem := mem.(desc := mem.desc[idx[2] := Desc(Status(h), 1, WRITE, 0)]);
      mem := mem.(bufs := mem.bufs[b := mem.bufs[b].(disk := true)]);
      mem := mem.(info := mem.info[h := mem.info[h].(b := b)]);
      assert mem.info == old(mem).info[h := Info(b, 0xff)];
      book := book.(owner := book.owner[h := h][idx[1] := h][idx[2] := h], reqs := book.reqs[h := r]);
    }

    /** virtio_disk_rw up to the formatted chain, with vdisk_lock held from now on. -1 means that the caller
        has to sleep for descriptors: two requests at a time is all that there is room for. */
    method Prepare(b: int, write: bool) returns (h: int)
      requires Ok() && mem.pending == -1 && 0 <= b < |mem.bufs| && forall k :: k in book.reqs ==> book.reqs[k].b != b
      modifies this`mem, this`book
      ensures Ok() && mem.pending == h && (h == -1 <==> |old(book).reqs| >= 2)
      ensures h == -1 ==> book == old(book) && mem == old(mem).(desc := mem.desc)
      ensures h != -1 ==>
                && h !in old(book).reqs && h in book.reqs && book.reqs == old(book).reqs[h := book.reqs[h]]
                && !mem.placed
                && book.reqs[h].b == b && book.reqs[h].write == write && book.reqs[h].stage == Made
                && !book.reqs[h].failed
                && book.reqs[h].serial == |old(book).hist.submitted|
                && mem.bufs == old(mem).bufs[b := old(mem).bufs[b].(disk := true)] && mem.blocks == old(mem).blocks
                && book.hist == old(book).hist.(submitted := old(book).hist.submitted + [b])
    {
      hide ChainsOk, BufsOk, Rings, Distinct, NoneHeld, WithHeld, HistOk, BlocksOk, FreeCount;
      FreeDescriptors(Now());
      var ok, idx := Alloc3Desc();
      if !ok {
        SnapOtherDesc(old(Now()), Now());
        return -1;
      }
      h := idx[0];
      HeldThree(book.owner, old(book).owner, idx);
      MakeChain(b, write, idx, |book.hist.submitted|);
      HeldUsedUp(old(book).owner, idx, h);
      mem := mem.(pending := h, placed := false);
      book := book.(hist := book.hist.(submitted := book.hist.submitted + [b]));
      PrepareKeeps(old(Now()), Now(), h);
    }

    /** avail->ring[avail->idx % NUM] = idx[0]: the device does not see it yet. */
    method StoreAvail()
      requires Ok() && mem.pending != -1 && !mem.placed
      modifies this`mem, this`book
      ensures Ok() && mem.pending in old(book).reqs
              && book == old(book).(reqs := Staged(old(book).reqs, mem.pending, Placed))
      ensures mem == old(mem).(avail := mem.avail, placed := true) && |mem.avail| == NUM
              && mem.avail[mem.availIdx % 8] == mem.pending
    {
      hide SnapOk;
      StoreAvailKeeps(Now());
      mem := mem.(avail := mem.avail[mem.availIdx % 8 := mem.pending], placed := true);
      book := book.(reqs := Staged(book.reqs, mem.pending, Placed));
      assert Now() == AfterStoreAvail(old(Now()));
    }

    /** avail->idx += 1, and vdisk_lock is released: the device may take the chain. */
    method PublishAvail()
      requires Ok() && mem.pending != -1 && mem.placed
      modifies this`mem, this`book
      ensures Ok() && old(mem).pending in old(book).reqs
              && mem == old(mem).(availIdx := (old(mem).availIdx + 1) % 65536, pending := -1)
      ensures book == old(book).(reqs := Staged(old(book).reqs, old(mem).pending, Queued), waiting := old(book).waiting
                                 + [old(mem).pending])
    {
      hide SnapOk;
      PublishAvailKeeps(Now());
      mem := mem.(availIdx := (mem.availIdx + 1) % 65536);
      book := book.(reqs := Staged(book.reqs, mem.pending, Queued), waiting := book.waiting + [mem.pending]);
      mem := mem.(pending := -1);
      assert Now() == AfterPublishAvail(old(Now()));
    }

    /** The device takes the next chain from the avail ring, if there is one. */
    method Fetch() returns (h: int)
      requires Ok()
      modifies this`mem, this`book
      ensures Ok()
      ensures h == -1 ==> old(book).waiting == [] && mem == old(mem) && book == old(book)
      ensures h != -1 ==>
                && old(book).waiting != [] && h == old(book).waiting[0] && h in old(book).reqs
                && old(book).reqs[h].stage == Queued
                && book == old(book).(reqs := Staged(old(book).reqs, h, Taken), waiting := old(book).waiting[1..])
                && mem == old(mem).(devIdx := (old(mem).devIdx + 1) % 65536, flight := old(mem).flight + {h})
    {
      hide SnapOk;
      SnapParts(Now());
      if mem.devIdx == mem.availIdx {
        return -1;
      }
      FetchKeeps(Now());
      h := mem.avail[mem.devIdx % 8];
      mem := mem.(devIdx := (mem.devIdx + 1) % 65536, flight := mem.flight + {h});
      book := book.(reqs := Staged(book.reqs, h, Taken), waiting := book.waiting[1..]);
      assert Now() == AfterFetch(old(Now()));
    }

    /** The device follows a chain that it has taken: it moves the block and writes the status; or it fails. */
    method CarryOut(h: int, ok: bool)
      requires Ok() && h in mem.flight
      modifies this`mem, this`book
      ensures Ok() && h in old(book).reqs
      ensures var r := old(book).reqs[h];
              && 0 <= r.b < |old(mem).bufs| == |mem.bufs| && 0 <= old(mem).bufs[r.b].block < |old(mem).blocks|
                 == |mem.blocks|
              && var x := old(mem).bufs[r.b].block;
              && book == old(book).(reqs :=
                                    old(book).reqs[h := Carried(r, if r.write then old(mem).bufs[r.b].data
                                                                else old(mem).blocks[x], !ok)])
              && mem.blocks == (if r.write && ok then old(mem).blocks[x := old(mem).bufs[r.b].data]
                                else old(mem).blocks)
              && mem.bufs
                 == (if r.write || !ok then old(mem).bufs
                     else old(mem).bufs[r.b := old(mem).bufs[r.b].(data := old(mem).blocks[x])])
    {
      hide SnapOk;
      CarryOutKeeps(Now(), h, ok);
      var head := mem.desc[h];
      var op := mem.ops[head.addr.i];
      var middle := mem.desc[head.next];
      var last := mem.desc[middle.next];
      var x, b := op.sector / 2, middle.addr.b;
      book := book.(reqs := book.reqs[h := Carried(book.reqs[h], Value(Now(), book.reqs[h]), !ok)]);
      if ok && op.kind == 1 {
        mem := mem.(blocks := mem.blocks[x := mem.bufs[b].data]);
      } else if ok {
        mem := mem.(bufs := mem.bufs[b := mem.bufs[b].(data := mem.blocks[x])]);
      }
      mem := mem.(info := mem.info[last.addr.i := mem.info[last.addr.i].(status := if ok then 0 else 1)]);
      mem := mem.(flight := mem.flight - {h}, moved := mem.moved + {h});
      assert Now() == AfterCarryOut(old(Now()), h, ok);
    }

    /** The device stores the head in the used ring: the driver does not see it yet. */
    method StoreUsed(h: int)
      requires Ok() && h in mem.moved && mem.devPending == -1
      modifies this`mem, this`book
      ensures Ok() && h in old(book).reqs && book == old(book).(reqs := Staged(old(book).reqs, h, Stored))
      ensures mem == old(mem).(used := mem.used, moved := old(mem).moved - {h}, devPending := h) && |mem.used| == NUM
              && mem.used[mem.usedIdx % 8] == h
    {
      hide SnapOk;
      StoreUsedKeeps(Now(), h);
      SnapParts(Now());
      mem := mem.(used := mem.used[mem.usedIdx % 8 := h], moved := mem.moved - {h}, devPending := h);
      book := book.(reqs := Staged(book.reqs, h, Stored));
      assert Now() == AfterStoreUsed(old(Now()), h);
    }

    /** The device advances used->idx. */
    method PublishUsed()
      requires Ok() && mem.devPending != -1
      modifies this`mem, this`book
      ensures Ok() && old(mem).devPending in old(book).reqs
              && mem == old(mem).(usedIdx := (old(mem).usedIdx + 1) % 65536, devPending := -1)
      ensures book == old(book).(reqs := Staged(old(book).reqs, old(mem).devPending, Used),
                                 answered := old(book).answered + [old(mem).devPending])
    {
      hide SnapOk;
      PublishUsedKeeps(Now());
      mem := mem.(usedIdx := (mem.usedIdx + 1) % 65536);
      book := book.(reqs := Staged(book.reqs, mem.devPending, Used), answered := book.answered + [mem.devPending]);
      mem := mem.(devPending := -1);
      assert Now() == AfterPublishUsed(old(Now()));
    }

    /** One turn of virtio_disk_intr's loop: the oldest unread answer releases the buffer that it belongs to.
        It panics exactly if the device reported an error for that request. */
    method IntrOne() returns (id: int)
      requires Ok() && !panicked
      modifies this
      ensures Ok()
      ensures id == -1 ==> old(book).answered == [] && mem == old(mem) && book == old(book) && !panicked
      ensures id != -1 ==>
                old(book).answered != [] && id == old(book).answered[0] && id in old(book).reqs
                    && old(book).reqs[id].stage == Used && (panicked <==> old(book).reqs[id].failed)
      ensures id != -1 && panicked ==> mem == old(mem) && book == old(book)
      ensures id != -1 && !panicked ==>
                && var r := old(book).reqs[id];
                && 0 <= r.b < |old(mem).bufs|
                && mem == old(mem).(seenIdx := (old(mem).seenIdx + 1) % 65536,
                                    bufs := old(mem).bufs[r.b := old(mem).bufs[r.b].(disk := false)])
                && book == old(book).(answered := old(book).answered[1..], reqs := Staged(old(book).reqs, id, Done),
                                      hist := old(book).hist.(released := old(book).hist.released
                                                              + [Release(r.serial, r.b)]))
    {
      hide SnapOk;
      SnapParts(Now());
      if mem.seenIdx == mem.usedIdx {
        return -1;
      }
      IntrKeeps(Now());
      id := mem.used[mem.seenIdx % 8];
      if mem.info[id].status != 0 {
        panicked := true;
        return;
      }
      var b := mem.info[id].b;
      mem := mem.(bufs := mem.bufs[b := mem.bufs[b].(disk := false)]);
      mem := mem.(seenIdx := (mem.seenIdx + 1) % 65536);
      book := book.(answered := book.answered[1..],
                    hist := book.hist.(released := book.hist.released + [Release(book.reqs[id].serial, b)]),
                    reqs := Staged(book.reqs, id, Done));
      assert Now() == AfterIntr(old(Now()));
    }

    /** virtio_disk_intr: unless it panics, every answer that is there is read, each once. */
    method Intr()
      requires Ok() && !panicked
      modifies this
      ensures Ok() && book.reqs.Keys == old(book).reqs.Keys
      ensures panicked <==> AnyFailed(old(book).reqs, old(book).answered)
      ensures !panicked ==> book.answered == [] && AllSeen(old(book).reqs, book.reqs, old(book).answered)
    {
      hide SnapOk, AllSeen, AnyFailed;
      ghost var n := 0;
      SnapParts(Now());
      NoneSeen(book.reqs);
      while mem.seenIdx != mem.usedIdx
        invariant Ok() && 0 <= n <= |old(book).answered| && book.answered == old(book).answered[n..]
                  && book.reqs.Keys == old(book).reqs.Keys && !panicked
        invariant mem.seenIdx == mem.usedIdx <==> book.answered == []
        invariant AllSeen(old(book).reqs, book.reqs, old(book).answered[..n])
        invariant !AnyFailed(old(book).reqs, old(book).answered[..n])
        decreases |old(book).answered| - n
      {
        ghost var reqs1 := book.reqs;
        var id := IntrOne();
        assert old(book).answered[..n + 1] == old(book).answered[..n] + [id];
        FailedNext(old(book).reqs, reqs1, old(book).answered, n, id);
        if panicked {
          return;
        }
        SeenNext(old(book).reqs, reqs1, old(book).answered[..n], id);
        SnapParts(Now());
        n := n + 1;
      }
      assert old(book).answered[..n] == old(book).answered;
    }

    /** virtio_disk_rw after its buffer has come back: the chain is freed. The buffer holds what was
        transferred. */
    method Finish(h: int)
      requires Ok() && h in book.reqs && book.reqs[h].stage == Done
      modifies this`mem, this`book
      ensures Ok() && book.reqs == old(book).reqs - {h} && mem.bufs == old(mem).bufs
      ensures book.hist == old(book).hist.(returned := old(book).hist.returned + [old(book).reqs[h].serial])
      ensures var r := old(book).reqs[h]; 0 <= r.b < |mem.bufs| && mem.bufs[r.b].data == r.value && !mem.bufs[r.b].disk
      ensures |mem.free| == NUM && forall i :: i in Three(h, old(book).reqs[h]) ==> 0 <= i < NUM && mem.free[i]
    {
      hide SnapOk, ChainsOk, NoneHeld;
      ghost var r := book.reqs[h];
      DetachKeeps(Now(), h);
      mem := mem.(info := mem.info[h := mem.info[h].(b := -1)]);
      book := book.(owner := book.owner[h := HELD][r.i1 := HELD][r.i2 := HELD], reqs := book.reqs - {h},
                    hist := book.hist.(returned := book.hist.returned + [r.serial]));
      assert Now() == Detached(old(Now()), h);
      FreeChain(h, r);
      FinishKeeps(old(Now()), Now(), h);
      FreeThree(mem.free, mem.desc, mem.info, mem.ops, book.owner, mem.bufs, book.reqs);
    }

    /** A step of the driver: of a process inside virtio_disk_rw, or about to enter it. `threads` are the
        buffers of those processes, with the heads of their chains. Entering adds one request, unless two are
        outstanding; everything else brings a request nearer to its end. */
    method DriverStep(e: Event, threads: map<int, int>) returns (threads': map<int, int>)
      requires Ok() && !panicked && Inside(threads, book.reqs) && OfDriver(e)
      modifies this
      ensures Ok() && Inside(threads', book.reqs) && !panicked
      ensures !Enabled(old(mem), threads, e) ==> mem == old(mem) && book == old(book) && threads' == threads
      ensures Enabled(old(mem), threads, e) && e.Start? ==> (e.b in threads' <==> |old(book).reqs| < 2)
      ensures Enabled(old(mem), threads, e) && !e.Start? ==> Work(book.reqs, 8) == Work(old(book).reqs, 8) - 1
      ensures NoneFailed(old(book).reqs) ==> NoneFailed(book.reqs)
    {
      hide SnapOk, Inside, Work;
      SnapParts(Now());
      threads' := threads;
      if !Enabled(mem, threads, e) {
        return;
      }
      match e {
        case Start(b, write) =>
          NotInside(threads, book.reqs, b);
          var h := Prepare(b, write);
          if h != -1 {
            InsideNew(threads, old(book).reqs, b, h, book.reqs[h]);
            threads' := threads[b := h];
          }
        case RingStore =>
          StoreAvail();
          OneStageOn(threads, old(Now()), Now(), mem.pending);
        case IndexStore =>
          PublishAvail();
          OneStageOn(threads, old(Now()), Now(), old(mem).pending);
        case Return(b) =>
          var h := threads[b];
          InsideAt(threads, book.reqs, b);
          Answered(Now(), h);
          WorkGone(book.reqs, h, 8);
          Finish(h);
          InsideGone(threads, old(book).reqs, b);
          threads' := threads - {b};
        case _ =>
      }
    }

    /** A step of the device or of the interrupt handler. The handler panics exactly over a reported error. */
    method OtherStep(e: Event, threads: map<int, int>)
      requires Ok() && !panicked && Inside(threads, book.reqs) && !OfDriver(e)
      modifies this
      ensures Ok() && Inside(threads, book.reqs)
      ensures !Enabled(old(mem), threads, e) ==> mem == old(mem) && book == old(book) && !panicked
      ensures Enabled(old(mem), threads, e) && !panicked ==> Work(book.reqs, 8) == Work(old(book).reqs, 8) - 1
      ensures panicked ==> e.Interrupt? && !NoneFailed(old(book).reqs)
      ensures NoneFailed(old(book).reqs) && !(e.DeviceMove? && !e.ok) ==> NoneFailed(book.reqs)
    {
      hide SnapOk, Inside, Work;
      if !Enabled(mem, threads, e) {
        return;
      }
      SnapParts(Now());
      var h := -1;
      match e {
        case DeviceFetch =>
          h := Fetch();
        case DeviceMove(k, ok) =>
          h := k;
          CarryOut(k, ok);
        case DeviceStore(k) =>
          h := k;
          StoreUsed(k);
        case DeviceIndex =>
          h := mem.devPending;
          PublishUsed();
        case Interrupt =>
          h := IntrOne();
        case _ =>
      }
      if !panicked {
        OneStageOn(threads, old(Now()), Now(), h);
      }
    }

    /** Whoever's turn it is. */
    method Turn(e: Event, threads: map<int, int>) returns (threads': map<int, int>)
      requires Ok() && !panicked && Inside(threads, book.reqs)
      modifies this
      ensures Ok() && Inside(threads', book.reqs)
      ensures !Enabled(old(mem), threads, e) ==>
                mem == old(mem) && book == old(book) && threads' == threads && !panicked
      ensures Enabled(old(mem), threads, e) && e.Start? ==> (e.b in threads' <==> |old(book).reqs| < 2)
      ensures Enabled(old(mem), threads, e) && !e.Start? && !panicked ==>
                Work(book.reqs, 8) == Work(old(book).reqs, 8) - 1
      ensures panicked ==> !NoneFailed(old(book).reqs)
      ensures NoneFailed(old(book).reqs) && !(e.DeviceMove? && !e.ok) ==> NoneFailed(book.reqs)
    {
      hide SnapOk, Inside, Work, NoneFailed, Enabled;
      threads' := threads;
      if OfDriver(e) {
        threads' := DriverStep(e, threads);
      } else {
        OtherStep(e, threads);
      }
    }

    /** Something that can happen next, without an error, as long as a process is inside. */
    method Next(threads: map<int, int>) returns (e: Event)
      requires Ok() && Inside(threads, book.reqs) && threads != map[]
      ensures Enabled(mem, threads, e) && !e.Start? && !(e.DeviceMove? && !e.ok)
    {
      hide SnapOk, Inside;
      if mem.pending != -1 {
        return if mem.placed then IndexStore else RingStore;
      }
      if mem.devIdx != mem.availIdx {
        return DeviceFetch;
      }
      if |mem.flight| > 0 {
        var h := One(mem.flight);
        return DeviceMove(h, true);
      }
      if mem.devPending != -1 {
        return DeviceIndex;
      }
      if |mem.moved| > 0 {
        var h := One(mem.moved);
        return DeviceStore(h);
      }
      if mem.seenIdx != mem.usedIdx {
        return Interrupt;
      }
      var b := One(threads.Keys);
      InsideAt(threads, book.reqs, b);
      SomeStep(Now(), threads[b]);
      DoneIsBack(Now(), threads[b]);
      e := Return(b);
    }

    /** No deadlock and no lost request: from wherever any run has come to, as long as the device reports no
        error, every enabled step brings the end nearer, some step is enabled until the end, and in the end
        every process has returned with its request served. */
    method Drain(inside: map<int, int>) returns (ghost steps: nat)
      requires Ok() && !panicked && Inside(inside, book.reqs) && NoneFailed(book.reqs)
      modifies this
      ensures Ok() && !panicked && book.reqs == map[] && steps == Work(old(book).reqs, 8)
      ensures |mem.free| == NUM && (forall i :: 0 <= i < NUM ==> mem.free[i])
      ensures forall n: nat :: n < |book.hist.submitted| ==> IsReleased(book.hist, n) && n in book.hist.returned
    {
      hide SnapOk, Inside, Work, NoneFailed, ReleasesOk, ReturnsOk;
      var threads := inside;
      steps := 0;
      while threads != map[]
        invariant Ok() && !panicked && Inside(threads, book.reqs) && NoneFailed(book.reqs)
        invariant steps + Work(book.reqs, 8) == Work(old(book).reqs, 8)
        decreases Work(book.reqs, 8)
      {
        var e := Next(threads);
        threads := Turn(e, threads);
        steps := steps + 1;
      }
      AllReturned(book.reqs);
      WorkOfNone(8);
      AllBack(Now());
    }

    /** Any interleaving of the processes inside virtio_disk_rw, the interrupt handler and the device, up to
        a panic over an error that the device reported. Every request ever made is released at most once,
        with its own buffer, and returns at most once and after that; and none is lost. */
    method Run(events: seq<Event>) returns (threads: map<int, int>)
      requires Ok() && book.reqs == map[] && !panicked
      modifies this
      ensures Ok() && Inside(threads, book.reqs)
      ensures ReleasesOk(book.hist) && ReturnsOk(book.hist)
      ensures forall n: nat :: n < |book.hist.submitted| ==> n in book.hist.returned || Outstanding(book.reqs, n)
      ensures threads == map[] ==>
                && |mem.free| == NUM && (forall i :: 0 <= i < NUM ==> mem.free[i])
                && forall n: nat :: n < |book.hist.submitted| ==> IsReleased(book.hist, n) && n in book.hist.returned
    {
      hide SnapOk, Inside, ReleasesOk, ReturnsOk;
      threads := map[];
      NobodyInside();
      for k := 0 to |events|
        invariant Ok() && Inside(threads, book.reqs)
      {
        if panicked {
          break;
        }
        threads := Turn(events[k], threads);
      }
      History(Now());
      if threads == map[] {
        AllReturned(book.reqs);
        AllBack(Now());
      }
    }
  }

  /** A process enters virtio_disk_rw, stores its chain in the avail ring, publishes it, or returns; the
      device takes a chain, carries one out or fails to, stores the answer, publishes it; the interrupt
      handler reads one answer. */
  datatype Event =
    | Start(b: int, write: bool) | RingStore | IndexStore | Return(b: int)
    | DeviceFetch | DeviceMove(h: int, ok: bool) | DeviceStore(h: int) | DeviceIndex
    | Interrupt

  predicate OfDriver(e: Event) {
    e.Start? || e.RingStore? || e.IndexStore? || e.Return?
  }

  /** Whether it can happen now. */
  predicate Enabled(m: Mem, threads: map<int, int>, e: Event) {
    match e
    case Start(b, _) => m.pending == -1 && 0 <= b < |m.bufs| && b !in threads
    case RingStore => m.pending != -1 && !m.placed
    case IndexStore => m.pending != -1 && m.placed
    case Return(b) => b in threads && 0 <= b < |m.bufs| && !m.bufs[b].disk
    case DeviceFetch => m.devIdx != m.availIdx
    case DeviceMove(h, _) => h in m.flight
    case DeviceStore(h) => h in m.moved && m.devPending == -1
    case DeviceIndex => m.devPending != -1
    case Interrupt => m.seenIdx != m.usedIdx
  }

  ghost predicate NoneFailed(reqs: map<int, Request>) {
    forall h :: h in reqs ==> !reqs[h].failed
  }

  method One<T(==)>(s: set<T>) returns (x: T)
    requires |s| > 0
    ensures x in s
  {
    x :| x in s;
  }

  /** One request has gone on, and everything else is as it was. */
  lemma OneStageOn(threads: map<int, int>, s: Snap, t: Snap, h: int)
    requires SnapOk(s) && Inside(threads, s.reqs) && h in s.reqs && h in t.reqs && t.reqs == s.reqs[h := t.reqs[h]]
    requires t.reqs[h].b == s.reqs[h].b && Left(t.reqs[h].stage) == Left(s.reqs[h].stage) - 1
    ensures Inside(threads, t.reqs) && Work(t.reqs, 8) == Work(s.reqs, 8) - 1
  {
    hide SnapOk, Inside, Work;
    SnapParts(s);
    WorkDone(s.reqs, h, t.reqs[h], 8);
    InsideSame(threads, s.reqs, t.reqs);
  }

  lemma DoneIsBack(s: Snap, h: int)
    requires SnapOk(s) && h in s.reqs && s.reqs[h].stage == Done
    ensures 0 <= s.reqs[h].b < |s.bufs| && !s.bufs[s.reqs[h].b].disk
  {
    hide Rings, ChainsOk, HistOk;
    assert BufOk(s.bufs, s.info, h, s.reqs[h]);
  }

  lemma {:induction false} WorkOfNone(n: nat)
    ensures Work(map[], n) == 0
  {
    if n > 0 {
      WorkOfNone(n - 1);
    }
  }

  lemma AllBack(s: Snap)
    requires SnapOk(s) && s.reqs == map[]
    ensures |s.free| == NUM && forall i :: 0 <= i < NUM ==> s.free[i]
    ensures forall n: nat :: n < |s.hist.submitted| ==> IsReleased(s.hist, n) && n in s.hist.returned
  {
    hide SnapOk;
    History(s);
    DescsFree(s);
    forall n: nat | n < |s.hist.submitted| ensures IsReleased(s.hist, n) && n in s.hist.returned {
      AllServed(s.hist, n);
    }
  }

  // ----- descriptors taken one by one

  /** The descriptors of a chain. */
  ghost function Three(h: int, r: Request): (s: set<int>) {
    {h, r.i1, r.i2}
  }

  lemma HeldOneMore(owner: seq<int>, idx: seq<int>, i: int, d: int)
    requires |owner| == NUM && 0 <= i < |idx| && 0 <= d < NUM && Distinct(idx[..i])
    requires WithHeld(owner, idx[..i])[d] == FREE
    ensures owner[d] == FREE && Distinct(idx[i := d][..i + 1])
            && WithHeld(owner, idx[..i])[d := HELD] == WithHeld(owner, idx[i := d][..i + 1])
  {
    var more := idx[i := d][..i + 1];
    assert more == idx[..i] + [d];
    assert d !in idx[..i];
    assert more[i] == d;
  }

  lemma HeldOneLess(owner: seq<int>, idx: seq<int>, j: int, i: int)
    requires |owner| == NUM && 0 <= j < i <= |idx| && Distinct(idx[..i]) && forall k ::
               0 <= k < i ==> 0 <= idx[k] < NUM && owner[idx[k]] == FREE
    ensures WithHeld(owner, idx[j..i])[idx[j]] == HELD && WithHeld(owner, idx[j..i])[idx[j] := FREE]
            == WithHeld(owner, idx[j + 1..i])
  {
    assert idx[j..i] == [idx[j]] + idx[j + 1..i];
    assert idx[j] !in idx[j + 1..i] by {
      assert forall k :: j < k < i ==> idx[..i][k] == idx[k] && idx[..i][j] == idx[j];
    }
  }

  // ----- answers read one by one

  /** Whether the device reported an error for one of these. */
  ghost predicate AnyFailed(reqs: map<int, Request>, list: seq<int>) {
    exists k :: 0 <= k < |list| && list[k] in reqs && reqs[list[k]].failed
  }

  /** Exactly these requests have been seen. */
  ghost predicate AllSeen(reqs: map<int, Request>, reqs': map<int, Request>, list: seq<int>) {
    forall h :: h in reqs ==> h in reqs' && reqs'[h] == if h in list then reqs[h].(stage := Done) else reqs[h]
  }

  lemma NoneSeen(reqs: map<int, Request>)
    ensures AllSeen(reqs, reqs, []) && !AnyFailed(reqs, [])
  {
  }

  lemma SeenNext(reqs: map<int, Request>, reqs1: map<int, Request>, list: seq<int>, id: int)
    requires AllSeen(reqs, reqs1, list) && id in reqs1
    ensures AllSeen(reqs, Staged(reqs1, id, Done), list + [id])
  {
  }

  lemma FailedNext(reqs: map<int, Request>, reqs1: map<int, Request>, list: seq<int>, n: int, id: int)
    requires 0 <= n < |list| && list[n] == id && AllSeen(reqs, reqs1, list[..n]) && id in reqs && id in reqs1
             && !AnyFailed(reqs, list[..n])
    ensures reqs1[id].failed ==> AnyFailed(reqs, list)
    ensures !reqs1[id].failed ==> !AnyFailed(reqs, list[..n] + [id])
  {
    if reqs1[id].failed {
      assert reqs[list[n]].failed;
    }
  }

  // ----- the processes inside virtio_disk_rw

  /** The outstanding requests are those of the processes inside virtio_disk_rw. */
  ghost predicate Inside(threads: map<int, int>, reqs: map<int, Request>) {
    && (forall b :: b in threads ==> threads[b] in reqs && reqs[threads[b]].b == b)
    && (forall h :: h in reqs ==> reqs[h].b in threads && threads[reqs[h].b] == h)
  }

  lemma NobodyInside()
    ensures Inside(map[], map[])
  {
  }

  lemma AllReturned(reqs: map<int, Request>)
    requires Inside(map[], reqs)
    ensures reqs == map[]
  {
    assert forall h :: h !in reqs;
  }

  lemma NotInside(threads: map<int, int>, reqs: map<int, Request>, b: int)
    requires Inside(threads, reqs) && b !in threads
    ensures forall k :: k in reqs ==> reqs[k].b != b
  {
  }

  lemma InsideAt(threads: map<int, int>, reqs: map<int, Request>, b: int)
    requires Inside(threads, reqs) && b in threads
    ensures threads[b] in reqs && reqs[threads[b]].b == b
  {
  }

  lemma InsideNew(threads: map<int, int>, reqs: map<int, Request>, b: int, h: int, r: Request)
    requires Inside(threads, reqs) && b !in threads && h !in reqs && r.b == b
    ensures Inside(threads[b := h], reqs[h := r])
  {
  }

  lemma InsideSame(threads: map<int, int>, reqs: map<int, Request>, reqs': map<int, Request>)
    requires Inside(threads, reqs) && reqs'.Keys == reqs.Keys && forall h ::
               h in reqs ==> h in reqs' && reqs'[h].b == reqs[h].b
    ensures Inside(threads, reqs')
  {
    forall h | h in reqs' ensures h in reqs {
      assert h in reqs'.Keys;
    }
    forall b | b in threads ensures threads[b] in reqs' && reqs'[threads[b]].b == b {
      var h := threads[b];
      assert h in reqs && reqs[h].b == b;
      assert h in reqs' && reqs'[h].b == reqs[h].b;
    }
  }

  lemma InsideGone(threads: map<int, int>, reqs: map<int, Request>, b: int)
    requires Inside(threads, reqs) && b in threads
    ensures Inside(threads - {b}, reqs - {threads[b]})
  {
  }

  lemma Answered(s: Snap, h: int)
    requires SnapOk(s) && h in s.reqs && 0 <= s.reqs[h].b < |s.bufs| && !s.bufs[s.reqs[h].b].disk
    ensures s.reqs[h].stage == Done
  {
    hide Rings, ChainsOk, HistOk;
    assert BufOk(s.bufs, s.info, h, s.reqs[h]);
  }

  lemma DescsFree(s: Snap)
    requires SnapOk(s) && s.reqs == map[]
    ensures |s.free| == NUM && forall i :: 0 <= i < NUM ==> s.free[i]
  {
    hide Rings, HistOk, BufsOk, BlocksOk;
    forall i | 0 <= i < NUM ensures s.free[i] {
      FreeOrChained(s.free, s.desc, s.info, s.ops, s.owner, s.bufs, s.reqs, i);
    }
  }

  lemma History(s: Snap)
    requires SnapOk(s)
    ensures HistOk(s.hist, s.reqs)
  {
  }

  /** A failed allocation may leave other values in free descriptors. */
  lemma SnapOtherDesc(s: Snap, t: Snap)
    requires SnapOk(s) && t == s.(desc := t.desc) && VirtioState.Chains(t)
    ensures SnapOk(t)
  {
    hide ChainsOk, RingOk, Stages, BufsOk, HistOk, BlocksOk, NoneHeld;
  }
}
