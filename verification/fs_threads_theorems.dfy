/** What holds whenever threads are inside bmap, writei and itrunc on different inodes at once. */
module FsThreadsTheorems {
  import opened FsFormat
  import opened FsModel
  import opened FsThreads
  import opened FsThreadsSafety

  datatype Act = Act(t: int, a: Step)

  /** No thread is inside a call. */
  ghost predicate Quiet(s: State) {
    forall t :: 0 <= t < |s.threads| ==> s.threads[t].Outside?
  }

  /** A mounted file system: the in-memory inodes are those on disk. */
  ghost predicate Init(s: State) {
    && Quiet(s) && !s.panicked && s.view == s.inodes && s.held == {}
    && FsOk(s.g, s.blk, s.inodes, s.owner, {})
    && forall j :: 0 <= j < |s.inodes| ==> DiskInode(s.g, s.blk, j) == s.inodes[j]
  }

  ghost predicate Leads(s: State, acts: seq<Act>, u: State)
    decreases |acts|
  {
    if acts == [] then s == u
    else Can(s, acts[0].t, acts[0].a) && Leads(Next(s, acts[0].t, acts[0].a), acts[1..], u)
  }

  lemma InitInv(s: State)
    requires Init(s)
    ensures Inv(s)
  {
    hide FsOk;
    Sizes(s.g, s.blk, s.inodes, s.owner, {});
    forall t, x ensures !Takes(s.threads, t, x) {
    }
  }

  lemma {:induction false} RunInv(s: State, acts: seq<Act>, u: State)
    requires Inv(s) && Leads(s, acts, u)
    ensures Inv(u)
    decreases |acts|
  {
    hide Inv, Can, Next;
    if acts != [] {
      StepKeeps(s, acts[0].t, acts[0].a);
      RunInv(Next(s, acts[0].t, acts[0].a), acts[1..], u);
    }
  }

  /** In every interleaving the ownership invariant holds throughout, with the blocks that threads have in
      transit and with truncated block maps. */
  lemma {:induction false} InterleavingKeeps(s: State, acts: seq<Act>, u: State)
    requires Init(s) && Leads(s, acts, u)
    ensures Inv(u) && FsOk(u.g, u.blk, u.view, u.owner, u.held) && !u.panicked
  {
    InitInv(s);
    RunInv(s, acts, u);
  }

  // ----- bfree

  /** The block that a step passes to bfree, -1 if it does not call it. */
  ghost function Freeing(s: State, t: int, a: Step): (x: int)
    requires Can(s, t, a)
  {
    if a.FreeDirect? then s.inodes[s.threads[t].i].addrs[s.threads[t].part.k]
    else if a.FreeTable? then s.inodes[s.threads[t].i].addrs[NDIRECT]
    else if a.FreeEntry? then
      var x := Word(s.blk[s.inodes[s.threads[t].i].addrs[NDIRECT]], s.threads[t].part.j);
      if x == 0 then -1 else x
    else -1
  }

  /** No bfree meets a free block, or a block of another inode, although other threads allocate and free at
      the same time: the block is marked, and it was this inode's or this thread's alone. */
  lemma {:induction false} NoFreeBlockFreed(s: State, acts: seq<Act>, u: State, t: int, a: Step)
    requires Init(s) && Leads(s, acts, u) && Can(u, t, a)
    ensures var x := Freeing(u, t, a);
            x != -1 ==>
              && Busy(u, t) && Frees(u.g, u.blk, x) && !Next(u, t, a).panicked
              && ((x in u.owner && u.owner[x].inum == u.threads[t].i) || x in u.threads[t].took)
  {
    hide Leads, Init;
    InterleavingKeeps(s, acts, u);
    FreedIsOwn(u, t, a);
  }

  lemma FreedIsOwn(s: State, t: int, a: Step)
    requires Inv(s) && Can(s, t, a)
    ensures var x := Freeing(s, t, a);
            x != -1 ==>
              && Busy(s, t) && Frees(s.g, s.blk, x) && !Next(s, t, a).panicked
              && ((x in s.owner && s.owner[x].inum == s.threads[t].i) || x in s.threads[t].took)
  {
    hide Inv, FsOk, Lists, Remaining, Marked;
    if a.FreeDirect? || a.FreeEntry? || a.FreeTable? {
      FsHolds(s);
      BusyFacts(s, t);
      var th := s.threads[t];
      var ip := s.inodes[th.i];
      if a.FreeDirect? {
        SlotFreed(s.g, s.blk, s.view, s.owner, s.held, th.i, th.part.k);
        FreeOne(s.g, s.blk, s.view[th.i := Inode(0, ip.addrs[th.part.k := 0])], s.owner - {ip.addrs[th.part.k]},
                s.held + {ip.addrs[th.part.k]}, ip.addrs[th.part.k]);
      } else {
        TableTook(s.blk, ip, th.took, th.part);
        if a.FreeEntry? {
          ListsNext(s.blk[ip.addrs[NDIRECT]], ip.addrs[NDIRECT], th.part.was, th.part.gone, th.part.j);
        }
        if Freeing(s, t, a) != -1 {
          FreeOne(s.g, s.blk, s.view, s.owner, s.held, Freeing(s, t, a));
        }
      }
    }
  }

  // ----- between calls

  lemma QuietFacts(s: State)
    requires Inv(s) && Quiet(s)
    ensures s.held == {} && s.view == s.inodes && |s.inodes| == s.g.ninodes && Layout(s.g) && |s.blk| == s.g.size
    ensures forall j :: 0 <= j < |s.inodes| ==> DiskInode(s.g, s.blk, j) == s.inodes[j]
  {
    hide FsOk, DiskInode;
    forall x ensures x !in s.held {
      assert !(exists t :: Takes(s.threads, t, x));
    }
    forall t, j ensures !At(s.threads, t, j) {
    }
    forall j | 0 <= j < |s.inodes| ensures s.view[j] == s.inodes[j] && DiskInode(s.g, s.blk, j) == s.inodes[j] {
      assert Unlocked(s.threads, j);
    }
  }

  /** Whenever no thread is inside a call, the bitmap is exact and the disk inodes are the inodes. */
  lemma {:induction false} QuietIsExact(s: State, acts: seq<Act>, u: State, x: int)
    requires Init(s) && Leads(s, acts, u) && Quiet(u)
    ensures FsOk(u.g, u.blk, u.inodes, u.owner, {}) && forall j ::
              0 <= j < |u.inodes| ==> DiskInode(u.g, u.blk, j) == u.inodes[j]
    ensures 0 <= x < u.g.size ==>
              (Marked(u.g, u.blk, x) <==> x < u.g.nmeta || exists i, k :: Refers(u.blk, u.inodes, i, k, x))
    ensures 0 < x < u.g.size ==>
              forall i, k, i', k' ::
                  Refers(u.blk, u.inodes, i, k, x) && Refers(u.blk, u.inodes, i', k', x) ==> i == i' && k == k'
  {
    hide Leads, Init, Inv, FsOk, Refers, Marked, DiskInode;
    InterleavingKeeps(s, acts, u);
    QuietFacts(u);
    if 0 <= x < u.g.size {
      BitmapIsExact(u.g, u.blk, u.inodes, u.owner, x);
    }
  }

  // ----- the files of others

  /** Ownership and contents of all blocks of inode j are the same. */
  ghost predicate SameBlocks(s: State, u: State, j: int) {
    && |u.blk| == |s.blk| && |u.view| == |s.view| && |u.inodes| == |s.inodes| && 0 <= j < |s.view|
    && 0 <= j < |s.inodes|
    && u.view[j] == s.view[j] && u.inodes[j] == s.inodes[j]
    && forall x ::
         x in s.owner && s.owner[x].inum == j && 0 <= x < |s.blk| ==>
             x in u.owner && u.owner[x] == s.owner[x] && u.blk[x] == s.blk[x]
  }

  /** The blocks of inode j are the same under both owners, and hold the same. */
  ghost predicate Untouched(blk: seq<Block>, owner: map<int, Slot>, blk': seq<Block>, owner': map<int, Slot>, j: int) {
    |blk'| == |blk| && forall x ::
        x in owner && owner[x].inum == j && 0 <= x < |blk| ==> x in owner' && owner'[x] == owner[x] && blk'[x] == blk[x]
  }

  lemma MovedLeaves(s: State, t: int, blk: seq<Block>, ip: Inode, th: Thread, owner: map<int, Slot>, j: int)
    requires Busy(s, t) && th.Inside? && |ip.addrs| == NDIRECT + 1 && (th.part.Freed? ==> 0 <= th.part.k < NDIRECT)
    requires 0 <= j < |s.inodes| && s.threads[t].i != j && Untouched(s.blk, s.owner, blk, owner, j)
    ensures SameBlocks(s, Moved(s, t, blk, ip, th, owner), j)
  {
  }

  /** A write to metadata, to a block in transit or to a block of another inode. */
  lemma WriteLeaves(g: Super, blk: seq<Block>, view: seq<Inode>, owner: map<int, Slot>, held: set<int>, y: int,
                    b: Block, j: int)
    requires FsOk(g, blk, view, owner, held) && 0 <= y < |blk|
             && (y < g.nmeta || y in held || (y in owner && owner[y].inum != j))
    ensures Untouched(blk, owner, blk[y := b], owner, j)
  {
    OwnedIsData(g, blk, view, owner, held);
  }

  lemma FreeLeaves(g: Super, blk: seq<Block>, view: seq<Inode>, owner: map<int, Slot>, held: set<int>, x: int, j: int)
    requires FsOk(g, blk, view, owner, held) && 0 <= x < g.size
    ensures Untouched(blk, owner, Bfree(g, blk, x), owner, j)
  {
    WriteLeaves(g, blk, view, owner, held, BitBlock(g, x), ClearBit(blk[BitBlock(g, x)], x % 8192), j);
  }

  lemma BmapLeaves(s: State, t: int, a: Step, j: int)
    requires Inv(s) && Can(s, t, a) && (a.Mark? || a.Clear? || a.LinkDirect? || a.LinkEntry?) && 0 <= j < |s.inodes|
             && s.threads[t].i != j
    ensures SameBlocks(s, Next(s, t, a), j)
  {
    hide Inv, FsOk, Marked, SetBit, PutWord, SameBlocks, Ref, PartOk, DiskInode;
    FsHolds(s);
    BusyFacts(s, t);
    OwnedIsData(s.g, s.blk, s.view, s.owner, s.held);
    var th := s.threads[t];
    var ip := s.inodes[th.i];
    match a
    case Mark(x) =>
      var bb := BitBlock(s.g, x);
      WriteLeaves(s.g, s.blk, s.view, s.owner, s.held, bb, SetBit(s.blk[bb], x % 8192), j);
      MovedLeaves(s, t, s.blk[bb := SetBit(s.blk[bb], x % 8192)], ip, th.(took := th.took + {x}), s.owner, j);
    case Clear(x) =>
      WriteLeaves(s.g, s.blk, s.view, s.owner, s.held, x, Zeros(), j);
      MovedLeaves(s, t, s.blk[x := Zeros()], ip, th.(zeroed := th.zeroed + {x}), s.owner, j);
    case LinkDirect(k, x) =>
      MovedLeaves(s, t, s.blk, ip.(addrs := ip.addrs[k := x]),
                  th.(took := th.took - {x}, zeroed := th.zeroed - {x}, dirty := true), s.owner[x := Slot(th.i, k)], j);
    case LinkEntry(e, x) =>
      var d := ip.addrs[NDIRECT];
      TableOwned(s.g, s.blk, s.view, s.owner, s.held, th.i);
      WriteLeaves(s.g, s.blk, s.view, s.owner, s.held, d, PutWord(s.blk[d], e, x), j);
      MovedLeaves(s, t, s.blk[d := PutWord(s.blk[d], e, x)], ip, th.(took := th.took - {x}, zeroed := th.zeroed - {x}),
                  s.owner[x := Slot(th.i, NDIRECT + 1 + e)], j);
  }

  lemma FreesLeave(s: State, t: int, a: Step, j: int)
    requires Inv(s) && Can(s, t, a) && (a.FreeEntry? || a.FreeTable?) && 0 <= j < |s.inodes| && s.threads[t].i != j
    ensures SameBlocks(s, Next(s, t, a), j)
  {
    hide Inv, FsOk, Marked, ClearBit, Bfree, DiskInode, Lists, Remaining, Ref;
    FsHolds(s);
    BusyFacts(s, t);
    FreedIsOwn(s, t, a);
    if Freeing(s, t, a) != -1 {
      FreeLeaves(s.g, s.blk, s.view, s.owner, s.held, Freeing(s, t, a), j);
    }
  }

  lemma FreeDirectLeaves(s: State, t: int, j: int)
    requires Inv(s) && Can(s, t, FreeDirect) && 0 <= j < |s.inodes| && s.threads[t].i != j
    ensures SameBlocks(s, Next(s, t, FreeDirect), j)
  {
    hide Inv, FsOk, Marked, ClearBit, Bfree, DiskInode, PartOk, Ref;
    FsHolds(s);
    BusyFacts(s, t);
    var th := s.threads[t];
    SlotFreed(s.g, s.blk, s.view, s.owner, s.held, th.i, th.part.k);
    FreeLeaves(s.g, s.blk, s.view, s.owner, s.held, Freeing(s, t, FreeDirect), j);
  }

  lemma WritesLeave(s: State, t: int, a: Step, j: int)
    requires Inv(s) && Can(s, t, a) && (a.Write? || a.Update?) && 0 <= j < |s.inodes| && s.threads[t].i != j
    ensures SameBlocks(s, Next(s, t, a), j)
  {
    hide Inv, FsOk, Ref, PartOk, DiskInode, Encodes;
    FsHolds(s);
    BusyFacts(s, t);
    var th := s.threads[t];
    if a.Write? {
      SlotIsData(s.g, s.blk, s.view, s.owner, s.held, th.i, a.k);
      WriteLeaves(s.g, s.blk, s.view, s.owner, s.held, Ref(s.blk, s.inodes[th.i], a.k), a.b, j);
    } else {
      WriteLeaves(s.g, s.blk, s.view, s.owner, s.held, InodeBlock(s.g, th.i), a.b, j);
    }
  }

  /** A thread's step leaves every block of another inode alone. */
  lemma StepLeavesBlocks(s: State, t: int, a: Step, j: int)
    requires Inv(s) && Can(s, t, a) && 0 <= j < |s.inodes| && (a.Enter? || s.threads[t].i != j)
    ensures SameBlocks(s, Next(s, t, a), j)
  {
    hide Inv, FsOk, Marked, DiskInode, Encodes, NoHoles, Ref;
    FsHolds(s);
    if a.Mark? || a.Clear? || a.LinkDirect? || a.LinkEntry? {
      BmapLeaves(s, t, a, j);
    } else if a.FreeDirect? {
      FreeDirectLeaves(s, t, j);
    } else if a.FreeEntry? || a.FreeTable? {
      FreesLeave(s, t, a, j);
    } else if a.Detach? {
      BusyFacts(s, t);
    } else if a.Write? || a.Update? {
      WritesLeave(s, t, a, j);
    }
  }

  lemma OwnedIsData(g: Super, blk: seq<Block>, view: seq<Inode>, owner: map<int, Slot>, held: set<int>)
    requires FsOk(g, blk, view, owner, held)
    ensures forall x :: x in owner ==> g.nmeta <= x < g.size && x !in held
  {
  }

  lemma SameBlocksSameFile(s: State, u: State, j: int)
    requires FsOk(s.g, s.blk, s.view, s.owner, s.held) && FsOk(s.g, u.blk, u.view, u.owner, u.held)
             && SameBlocks(s, u, j)
    ensures |s.view[j].addrs| == NDIRECT + 1 && 0 <= s.view[j].size <= MAXFILE * BSIZE
            && File(u.blk, u.view[j]) == File(s.blk, s.view[j])
  {
    assert NoHoles(s.blk, s.view[j]);
    assert Ref(s.blk, s.view[j], NDIRECT) == s.view[j].addrs[NDIRECT];
    forall bn | 0 <= bn < MAXFILE && bn * 1024 < s.view[j].size
      ensures var a := Ref(s.blk, s.view[j], SlotOf(bn));
              Ref(u.blk, s.view[j], SlotOf(bn)) == a && (0 <= a < |s.blk| ==> u.blk[a] == s.blk[a])
    {
      var a := Ref(s.blk, s.view[j], SlotOf(bn));
      assert a in s.owner && s.owner[a] == Slot(j, SlotOf(bn));
      SameRefs(s.blk, u.blk, s.view[j], SlotOf(bn));
    }
    SameFile(s.blk, u.blk, s.view[j], s.view[j]);
  }

  /** No act of the run is by a thread that has inode j locked. */
  ghost predicate LeavesAlone(s: State, acts: seq<Act>, j: int)
    decreases |acts|
  {
    acts == [] ||
    (Can(s, acts[0].t, acts[0].a) && !At(s.threads, acts[0].t, j)
     && LeavesAlone(Next(s, acts[0].t, acts[0].a), acts[1..], j))
  }

  /** As long as no thread that has a file locked acts, its bytes stay the same, whatever all other threads
      allocate, write, truncate and free meanwhile. */
  lemma {:induction false} FileStays(s: State, acts: seq<Act>, u: State, j: int)
    requires Inv(s) && Leads(s, acts, u) && LeavesAlone(s, acts, j) && 0 <= j < |s.inodes|
    ensures |u.inodes| == |s.inodes| == |s.view| && |u.view| == |s.view| && u.inodes[j] == s.inodes[j]
            && u.view[j] == s.view[j]
    ensures |s.view[j].addrs| == NDIRECT + 1 && 0 <= s.view[j].size <= MAXFILE * BSIZE
            && File(u.blk, u.view[j]) == File(s.blk, s.view[j])
    decreases |acts|
  {
    hide Inv, Can, Next, FsOk, File;
    FsHolds(s);
    FilesDefined(s.g, s.held, s.blk, s.view, s.owner);
    if acts != [] {
      var s1 := Next(s, acts[0].t, acts[0].a);
      StepLeaves(s, acts[0].t, acts[0].a, j);
      StepKeeps(s, acts[0].t, acts[0].a);
      FsHolds(s1);
      SameBlocksSameFile(s, s1, j);
      FileStays(s1, acts[1..], u, j);
    }
  }

  lemma StepLeaves(s: State, t: int, a: Step, j: int)
    requires Inv(s) && Can(s, t, a) && !At(s.threads, t, j) && 0 <= j < |s.inodes|
    ensures SameBlocks(s, Next(s, t, a), j) && Next(s, t, a).g == s.g
  {
    hide Inv, SetBit, PutWord, Zeros, Bfree, Word, Ref, IndirectBlocks, ViewOf, InodeBlock, BitBlock, SameBlocks;
    StepLeavesBlocks(s, t, a, j);
  }
}
