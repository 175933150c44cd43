/** What every step of every thread keeps, and what follows for every interleaving. */
module FsThreadsSafety {
  import opened FsFormat
  import opened FsModel
  import opened FsThreads

  // ----- the invariant

  /** A thread's place in itrunc fits its inode and the blocks it has in transit. */
  ghost predicate PartOk(blk: seq<Block>, ip: Inode, took: set<int>, part: Part)
    requires |ip.addrs| == NDIRECT + 1
  {
    match part
    case Whole => true
    case Slots(k) => 0 <= k <= NDIRECT && took == {} && forall j :: 0 <= j < k ==> ip.addrs[j] == 0
    case Freed(k) => 0 <= k < NDIRECT && took == {} && forall j :: 0 <= j < k ==> ip.addrs[j] == 0
    case Table(j, was, gone) =>
      && 0 <= j <= NINDIRECT && (forall k :: 0 <= k < NDIRECT ==> ip.addrs[k] == 0)
      && 0 < ip.addrs[NDIRECT] < |blk| && Lists(blk[ip.addrs[NDIRECT]], ip.addrs[NDIRECT], was, gone)
      && took == Remaining(was, gone, j)
    case TableFreed => took == {} && forall k :: 0 <= k < NDIRECT ==> ip.addrs[k] == 0
    case Emptied => took == {} && forall k :: 0 <= k <= NDIRECT ==> ip.addrs[k] == 0
  }

  ghost predicate ThreadOk(blk: seq<Block>, ip: Inode, th: Thread)
    requires th.Inside?
  {
    && |ip.addrs| == NDIRECT + 1 && th.zeroed <= th.took && (!th.part.Whole? ==> th.dirty && th.zeroed == {})
    && (forall x :: x in th.zeroed ==> 0 <= x < |blk| && blk[x] == Zeros())
    && PartOk(blk, ip, th.took, th.part)
  }

  ghost predicate ThreadsOk(blk: seq<Block>, inodes: seq<Inode>, threads: seq<Thread>) {
    forall t :: 0 <= t < |threads| && threads[t].Inside? ==>
      0 <= threads[t].i < |inodes| && ThreadOk(blk, inodes[threads[t].i], threads[t])
  }

  /** No inode and no block in transit belongs to two threads. */
  ghost predicate Apart(threads: seq<Thread>) {
    forall t, u :: 0 <= t < u < |threads| && threads[t].Inside? && threads[u].Inside? ==>
      threads[t].i != threads[u].i && threads[t].took !! threads[u].took
  }

  predicate Takes(threads: seq<Thread>, t: int, x: int) {
    0 <= t < |threads| && threads[t].Inside? && x in threads[t].took
  }

  ghost predicate HeldOk(threads: seq<Thread>, held: set<int>) {
    && (forall t, x :: Takes(threads, t, x) ==> x in held)
    && (forall x :: x in held ==> exists t :: Takes(threads, t, x))
  }

  predicate At(threads: seq<Thread>, t: int, j: int) {
    0 <= t < |threads| && threads[t].Inside? && threads[t].i == j
  }

  ghost predicate Unlocked(threads: seq<Thread>, j: int) {
    forall t :: !At(threads, t, j)
  }

  ghost predicate ViewOk(inodes: seq<Inode>, view: seq<Inode>, threads: seq<Thread>) {
    && |view| == |inodes|
    && (forall t, j :: At(threads, t, j) ==>
          0 <= j < |inodes| && |inodes[j].addrs| == NDIRECT + 1
              && (threads[t].part.Freed? ==> 0 <= threads[t].part.k < NDIRECT)
          && view[j] == ViewOf(inodes[j], threads[t].part))
    && (forall j :: 0 <= j < |inodes| && Unlocked(threads, j) ==> view[j] == inodes[j])
  }

  /** The disk inodes are up to date, except where a thread has yet to call iupdate. */
  ghost predicate DiskOk(g: Super, blk: seq<Block>, inodes: seq<Inode>, threads: seq<Thread>) {
    && Layout(g) && |blk| == g.size && |inodes| == g.ninodes
    && forall j :: 0 <= j < |inodes| && (forall t :: At(threads, t, j) ==> !threads[t].dirty) ==>
         DiskInode(g, blk, j) == inodes[j]
  }

  ghost predicate Inv(s: State) {
    && !s.panicked
    && FsOk(s.g, s.blk, s.view, s.owner, s.held)
    && ThreadsOk(s.blk, s.inodes, s.threads) && Apart(s.threads) && HeldOk(s.threads, s.held)
    && ViewOk(s.inodes, s.view, s.threads) && DiskOk(s.g, s.blk, s.inodes, s.threads)
  }

  // ----- one thread moves

  /** Only this thread's blocks in transit may have changed, and among those in transit only these. */
  ghost predicate KeepsHeld(blk: seq<Block>, blk': seq<Block>, held: set<int>, took: set<int>) {
    |blk'| == |blk| && forall x :: x in held && x !in took && 0 <= x < |blk| ==> blk'[x] == blk[x]
  }

  lemma PartKept(blk: seq<Block>, blk': seq<Block>, ip: Inode, took: set<int>, part: Part, held: set<int>,
                 mine: set<int>)
    requires |ip.addrs| == NDIRECT + 1 && PartOk(blk, ip, took, part) && KeepsHeld(blk, blk', held, mine)
             && took <= held && took !! mine
    ensures PartOk(blk', ip, took, part)
  {
    if part.Table? {
      assert ip.addrs[NDIRECT] in took;
    }
  }

  lemma ThreadKept(blk: seq<Block>, blk': seq<Block>, ip: Inode, th: Thread, held: set<int>, mine: set<int>)
    requires th.Inside? && ThreadOk(blk, ip, th) && KeepsHeld(blk, blk', held, mine) && th.took <= held
             && th.took !! mine
    ensures ThreadOk(blk', ip, th)
  {
    hide PartOk;
    PartKept(blk, blk', ip, th.took, th.part, held, mine);
  }

  lemma ThreadsMoved(blk: seq<Block>, blk': seq<Block>, inodes: seq<Inode>, ip: Inode, threads: seq<Thread>, t: int,
                     th: Thread, held: set<int>)
    requires ThreadsOk(blk, inodes, threads) && Apart(threads) && HeldOk(threads, held)
    requires 0 <= t < |threads| && threads[t].Inside? && th.Inside? && th.i == threads[t].i && 0 <= th.i < |inodes|
    requires KeepsHeld(blk, blk', held, threads[t].took) && ThreadOk(blk', ip, th)
    ensures ThreadsOk(blk', inodes[th.i := ip], threads[t := th])
  {
    hide ThreadOk, KeepsHeld;
    var threads', inodes' := threads[t := th], inodes[th.i := ip];
    forall u | 0 <= u < |threads'| && threads'[u].Inside?
      ensures 0 <= threads'[u].i < |inodes'| && ThreadOk(blk', inodes'[threads'[u].i], threads'[u])
    {
      if u != t {
        assert threads[u].i != th.i && threads[u].took !! threads[t].took;
        forall x | x in threads[u].took ensures x in held {
          assert Takes(threads, u, x);
        }
        ThreadKept(blk, blk', inodes[threads[u].i], threads[u], held, threads[t].took);
      }
    }
  }

  lemma ApartMoved(threads: seq<Thread>, t: int, th: Thread, held: set<int>)
    requires Apart(threads) && HeldOk(threads, held) && 0 <= t < |threads| && threads[t].Inside? && th.Inside?
             && th.i == threads[t].i
    requires forall x :: x in th.took && x !in threads[t].took ==> x !in held
    ensures Apart(threads[t := th])
  {
    var threads' := threads[t := th];
    forall u, v | 0 <= u < v < |threads'| && threads'[u].Inside? && threads'[v].Inside?
      ensures threads'[u].i != threads'[v].i && threads'[u].took !! threads'[v].took
    {
      assert threads[u].took !! threads[v].took;
      forall x | x in threads'[u].took ensures x !in threads'[v].took {
        assert u != t && x in threads[u].took ==> Takes(threads, u, x);
        assert v != t && x in threads[v].took ==> Takes(threads, v, x);
      }
    }
  }

  lemma HeldMoved(threads: seq<Thread>, t: int, th: Thread, held: set<int>)
    requires Apart(threads) && HeldOk(threads, held) && 0 <= t < |threads| && threads[t].Inside? && th.Inside?
    ensures HeldOk(threads[t := th], held - threads[t].took + th.took)
  {
    var threads', held' := threads[t := th], held - threads[t].took + th.took;
    forall u, x | Takes(threads', u, x) ensures x in held' {
      if u != t {
        assert Takes(threads, u, x);
        assert threads[u].took !! threads[t].took;
      }
    }
    forall x | x in held' ensures exists u :: Takes(threads', u, x) {
      if x in th.took {
        assert Takes(threads', t, x);
      } else {
        var u :| Takes(threads, u, x);
        assert Takes(threads', u, x);
      }
    }
  }

  lemma ViewMoved(inodes: seq<Inode>, view: seq<Inode>, ip: Inode, threads: seq<Thread>, t: int, th: Thread)
    requires ViewOk(inodes, view, threads) && Apart(threads) && 0 <= t < |threads| && threads[t].Inside? && th.Inside?
             && th.i == threads[t].i
    requires 0 <= th.i < |inodes| && |ip.addrs| == NDIRECT + 1 && (th.part.Freed? ==> 0 <= th.part.k < NDIRECT)
    ensures ViewOk(inodes[th.i := ip], view[th.i := ViewOf(ip, th.part)], threads[t := th])
  {
    hide ViewOf;
    var threads' := threads[t := th];
    forall u, j | At(threads', u, j) ensures u != t ==> j != th.i && At(threads, u, j) {
    }
    forall j | 0 <= j < |inodes| && Unlocked(threads', j) ensures j != th.i && Unlocked(threads, j) {
      assert !At(threads', t, j);
      forall u ensures !At(threads, u, j) {
        assert !At(threads', u, j);
      }
    }
  }

  lemma DiskMoved(g: Super, blk: seq<Block>, blk': seq<Block>, inodes: seq<Inode>, ip: Inode, threads: seq<Thread>,
                  t: int, th: Thread)
    requires DiskOk(g, blk, inodes, threads) && Apart(threads) && 0 <= t < |threads| && threads[t].Inside? && th.Inside?
             && th.i == threads[t].i
    requires 0 <= th.i < |inodes| && |blk'| == |blk|
    requires forall j :: 0 <= j < |inodes| && j != th.i ==> DiskInode(g, blk', j) == DiskInode(g, blk, j)
    requires !th.dirty ==> DiskInode(g, blk', th.i) == ip
    ensures DiskOk(g, blk', inodes[th.i := ip], threads[t := th])
  {
    hide DiskInode;
    var threads', inodes' := threads[t := th], inodes[th.i := ip];
    forall j | 0 <= j < |inodes'| && (forall u :: At(threads', u, j) ==> !threads'[u].dirty)
      ensures DiskInode(g, blk', j) == inodes'[j] {
      if j == th.i {
        assert At(threads', t, j);
      } else {
        forall u ensures At(threads, u, j) ==> !threads[u].dirty {
          assert At(threads, u, j) ==> At(threads', u, j);
        }
      }
    }
  }

  /** A step that keeps the ownership invariant, and touches no block that another thread has in transit and
      no other disk inode, keeps everything. */
  lemma MovedKeeps(s: State, t: int, blk: seq<Block>, ip: Inode, th: Thread, owner: map<int, Slot>)
    requires Inv(s) && Busy(s, t) && th.Inside? && th.i == s.threads[t].i
             && (th.part.Freed? ==> 0 <= th.part.k < NDIRECT)
    requires ThreadOk(blk, ip, th) && KeepsHeld(s.blk, blk, s.held, s.threads[t].took)
    requires forall x :: x in th.took && x !in s.threads[t].took ==> x !in s.held
    requires FsOk(s.g, blk, s.view[th.i := ViewOf(ip, th.part)], owner, s.held - s.threads[t].took + th.took)
    requires forall j :: 0 <= j < |s.inodes| && j != th.i ==> DiskInode(s.g, blk, j) == DiskInode(s.g, s.blk, j)
    requires !th.dirty ==> DiskInode(s.g, blk, th.i) == ip
    ensures Inv(Moved(s, t, blk, ip, th, owner))
  {
    hide FsOk, PartOk, Apart, HeldOk, ViewOk, DiskInode, ThreadsOk, ViewOf;
    ThreadsMoved(s.blk, blk, s.inodes, ip, s.threads, t, th, s.held);
    ApartMoved(s.threads, t, th, s.held);
    HeldMoved(s.threads, t, th, s.held);
    ViewMoved(s.inodes, s.view, ip, s.threads, t, th);
    DiskMoved(s.g, s.blk, blk, s.inodes, ip, s.threads, t, th);
  }

  // ----- what the ownership invariant says to a thread

  /** Blocks in transit are data blocks that no one owns. */
  lemma HeldIsData(g: Super, blk: seq<Block>, view: seq<Inode>, owner: map<int, Slot>, held: set<int>)
    requires FsOk(g, blk, view, owner, held)
    ensures forall x :: x in held ==> g.nmeta <= x < g.size && x !in owner
  {
  }

  /** The facts about a thread inside a call. */
  lemma BusyFacts(s: State, t: int)
    requires Inv(s) && Busy(s, t)
    ensures var th := s.threads[t];
            && ThreadOk(s.blk, s.inodes[th.i], th) && th.took <= s.held && |s.view| == |s.inodes|
            && (th.part.Freed? ==> 0 <= th.part.k < NDIRECT) && s.view[th.i] == ViewOf(s.inodes[th.i], th.part)
            && (!th.dirty ==> DiskInode(s.g, s.blk, th.i) == s.inodes[th.i])
  {
    hide FsOk, ThreadOk, ViewOf, DiskInode;
    var th := s.threads[t];
    assert At(s.threads, t, th.i);
    forall x | x in th.took ensures x in s.held {
      assert Takes(s.threads, t, x);
    }
    if !th.dirty {
      forall u ensures At(s.threads, u, th.i) ==> !s.threads[u].dirty {
        assert At(s.threads, u, th.i) ==> u == t;
      }
    }
  }

  /** A write outside the inode blocks changes no disk inode. */
  lemma DiskInodeApart(g: Super, blk: seq<Block>, y: int, b: Block)
    requires Layout(g) && |blk| == g.size && 0 <= y < |blk| && !(g.inodestart <= y < g.bmapstart)
    ensures forall j :: 0 <= j < g.ninodes ==> DiskInode(g, blk[y := b], j) == DiskInode(g, blk, j)
  {
  }

  /** A write to metadata or to an owned block is none to a block in transit. */
  lemma WriteApart(g: Super, blk: seq<Block>, view: seq<Inode>, owner: map<int, Slot>, held: set<int>, took: set<int>,
                   y: int, b: Block)
    requires FsOk(g, blk, view, owner, held) && 0 <= y < |blk| && (y < g.nmeta || y in owner || y in took)
    ensures KeepsHeld(blk, blk[y := b], held, took)
  {
    HeldIsData(g, blk, view, owner, held);
  }

  lemma NothingWritten(blk: seq<Block>, held: set<int>, took: set<int>)
    ensures KeepsHeld(blk, blk, held, took)
  {
  }

  /** Set algebra for the blocks in transit. */
  lemma HeldTakes(held: set<int>, took: set<int>, x: int)
    requires took <= held
    ensures held - took + (took + {x}) == held + {x} && held - took + took == held
    ensures x in took ==> held - took + (took - {x}) == held - {x}
  {
  }

  // ----- bmap

  lemma MarkStep(s: State, t: int, x: int)
    requires Inv(s) && Can(s, t, Mark(x))
    ensures Inv(Next(s, t, Mark(x)))
  {
    hide Inv, FsOk, KeepsHeld, DiskInode, Marked, SetBit;
    FsHolds(s);
    BusyFacts(s, t);
    var th := s.threads[t];
    var ip, bb := s.inodes[th.i], BitBlock(s.g, x);
    var b := SetBit(s.blk[bb], x % 8192);
    MarkKeeps(s.g, s.blk, s.view, s.owner, s.held, x);
    WriteApart(s.g, s.blk, s.view, s.owner, s.held, th.took, bb, b);
    DiskInodeApart(s.g, s.blk, bb, b);
    HeldTakes(s.held, th.took, x);
    var th' := th.(took := th.took + {x});
    TookMore(s.g, s.blk, bb, b, s.view, s.owner, s.held, ip, th, th');
    assert s.view[th.i := ip] == s.view;
    MovedKeeps(s, t, s.blk[bb := b], ip, th', s.owner);
  }

  /** What the invariant says of ownership, apart from the threads. */
  lemma FsHolds(s: State)
    requires Inv(s)
    ensures !s.panicked && FsOk(s.g, s.blk, s.view, s.owner, s.held) && Layout(s.g) && |s.blk| == s.g.size
            && |s.inodes| == s.g.ninodes == |s.view|
  {
  }

  /** A thread in bmap with more blocks in transit, after a write to metadata. */
  lemma TookMore(g: Super, blk: seq<Block>, y: int, b: Block, view: seq<Inode>, owner: map<int, Slot>, held: set<int>,
                 ip: Inode, th: Thread, th': Thread)
    requires FsOk(g, blk, view, owner, held) && th.Inside? && th.part.Whole? && ThreadOk(blk, ip, th) && th.took <= held
             && 0 <= y < g.nmeta && y < |blk|
    requires th'.Inside? && th'.part.Whole? && th'.zeroed == th.zeroed && th.took <= th'.took
    ensures ThreadOk(blk[y := b], ip, th')
  {
    HeldIsData(g, blk, view, owner, held);
  }

  lemma ClearStep(s: State, t: int, x: int)
    requires Inv(s) && Can(s, t, Clear(x))
    ensures Inv(Next(s, t, Clear(x)))
  {
    hide Inv, FsOk, KeepsHeld, DiskInode;
    FsHolds(s);
    BusyFacts(s, t);
    var th := s.threads[t];
    TransitWriteKeeps(s.g, s.blk, s.view, s.owner, s.held, x, Zeros());
    WriteApart(s.g, s.blk, s.view, s.owner, s.held, th.took, x, Zeros());
    DiskInodeApart(s.g, s.blk, x, Zeros());
    HeldTakes(s.held, th.took, x);
    assert s.view[th.i := s.inodes[th.i]] == s.view;
    MovedKeeps(s, t, s.blk[x := Zeros()], s.inodes[th.i], th.(zeroed := th.zeroed + {x}), s.owner);
  }

  lemma LinkDirectStep(s: State, t: int, k: int, x: int)
    requires Inv(s) && Can(s, t, LinkDirect(k, x))
    ensures Inv(Next(s, t, LinkDirect(k, x)))
  {
    hide Inv, FsOk, KeepsHeld, DiskInode;
    FsHolds(s);
    BusyFacts(s, t);
    var th := s.threads[t];
    var ip := s.inodes[th.i];
    LinkDirectKeeps(s.g, s.blk, s.view, s.owner, s.held, th.i, k, x);
    NothingWritten(s.blk, s.held, th.took);
    HeldTakes(s.held, th.took, x);
    MovedKeeps(s, t, s.blk, ip.(addrs := ip.addrs[k := x]),
               th.(took := th.took - {x}, zeroed := th.zeroed - {x}, dirty := true), s.owner[x := Slot(th.i, k)]);
  }

  lemma LinkEntryStep(s: State, t: int, j: int, x: int)
    requires Inv(s) && Can(s, t, LinkEntry(j, x))
    ensures Inv(Next(s, t, LinkEntry(j, x)))
  {
    hide Inv, FsOk, KeepsHeld, DiskInode, PutWord, Ref;
    FsHolds(s);
    BusyFacts(s, t);
    var th := s.threads[t];
    var ip := s.inodes[th.i];
    var d := ip.addrs[NDIRECT];
    var b := PutWord(s.blk[d], j, x);
    LinkEntryKeeps(s.g, s.blk, s.view, s.owner, s.held, th.i, j, x);
    TableOwned(s.g, s.blk, s.view, s.owner, s.held, th.i);
    WriteApart(s.g, s.blk, s.view, s.owner, s.held, th.took, d, b);
    DiskInodeApart(s.g, s.blk, d, b);
    HeldTakes(s.held, th.took, x);
    assert s.view[th.i := ip] == s.view;
    var th' := th.(took := th.took - {x}, zeroed := th.zeroed - {x});
    StillZeroed(s.g, s.blk, d, b, s.view, s.owner, s.held, ip, th, th');
    MovedKeeps(s, t, s.blk[d := b], ip, th', s.owner[x := Slot(th.i, NDIRECT + 1 + j)]);
  }

  lemma TableOwned(g: Super, blk: seq<Block>, view: seq<Inode>, owner: map<int, Slot>, held: set<int>, i: int)
    requires FsOk(g, blk, view, owner, held) && 0 <= i < |view| && view[i].addrs[NDIRECT] != 0
    ensures view[i].addrs[NDIRECT] in owner && owner[view[i].addrs[NDIRECT]] == Slot(i, NDIRECT)
            && g.nmeta <= view[i].addrs[NDIRECT] < g.size
  {
    assert Ref(blk, view[i], NDIRECT) == view[i].addrs[NDIRECT];
  }

  /** A write to an owned block leaves the cleared blocks of a thread in bmap as they are. */
  lemma StillZeroed(g: Super, blk: seq<Block>, y: int, b: Block, view: seq<Inode>, owner: map<int, Slot>,
                    held: set<int>, ip: Inode, th: Thread, th': Thread)
    requires FsOk(g, blk, view, owner, held) && th.Inside? && th.part.Whole? && ThreadOk(blk, ip, th) && th.took <= held
             && y in owner && 0 <= y < |blk|
    requires th'.Inside? && th'.part.Whole? && th'.zeroed <= th.zeroed && th'.zeroed <= th'.took
    ensures ThreadOk(blk[y := b], ip, th')
  {
    HeldIsData(g, blk, view, owner, held);
  }

  // ----- writei and iupdate

  lemma WriteStep(s: State, t: int, k: int, b: Block)
    requires Inv(s) && Can(s, t, Write(k, b))
    ensures Inv(Next(s, t, Write(k, b)))
  {
    hide Inv, FsOk, KeepsHeld, DiskInode, Ref;
    FsHolds(s);
    BusyFacts(s, t);
    var th := s.threads[t];
    var ip := s.inodes[th.i];
    var x := Ref(s.blk, ip, k);
    SlotIsData(s.g, s.blk, s.view, s.owner, s.held, th.i, k);
    DataWriteKeeps(s.g, s.blk, s.view, s.owner, s.held, x, b);
    WriteApart(s.g, s.blk, s.view, s.owner, s.held, th.took, x, b);
    DiskInodeApart(s.g, s.blk, x, b);
    HeldTakes(s.held, th.took, x);
    assert s.view[th.i := ip] == s.view;
    StillZeroed(s.g, s.blk, x, b, s.view, s.owner, s.held, ip, th, th);
    MovedKeeps(s, t, s.blk[x := b], ip, th, s.owner);
  }

  lemma SlotIsData(g: Super, blk: seq<Block>, view: seq<Inode>, owner: map<int, Slot>, held: set<int>, i: int, k: int)
    requires FsOk(g, blk, view, owner, held) && 0 <= i < |view| && 0 <= k < NSLOT && Ref(blk, view[i], k) != 0
    ensures var x := Ref(blk, view[i], k); x in owner && owner[x] == Slot(i, k) && g.nmeta <= x < g.size
  {
  }

  lemma GrowStep(s: State, t: int, n: int)
    requires Inv(s) && Can(s, t, Grow(n))
    ensures Inv(Next(s, t, Grow(n)))
  {
    hide Inv, FsOk, KeepsHeld, DiskInode;
    FsHolds(s);
    BusyFacts(s, t);
    var th := s.threads[t];
    var ip := s.inodes[th.i];
    SetSizeKeeps(s.g, s.blk, s.view, s.owner, s.held, th.i, n);
    NothingWritten(s.blk, s.held, th.took);
    HeldTakes(s.held, th.took, 0);
    MovedKeeps(s, t, s.blk, ip.(size := n), th.(dirty := true), s.owner);
  }

  lemma EncodedIs(g: Super, blk: seq<Block>, i: int, ip: Inode, b: Block)
    requires Layout(g) && |blk| == g.size && 0 <= i < g.ninodes && Encodes(g, blk, i, ip, b)
    ensures DiskInode(g, blk[InodeBlock(g, i) := b], i) == ip
  {
  }

  lemma UpdateStep(s: State, t: int, b: Block)
    requires Inv(s) && Can(s, t, Update(b))
    ensures Inv(Next(s, t, Update(b)))
  {
    hide Inv, FsOk, KeepsHeld, DiskInode;
    FsHolds(s);
    BusyFacts(s, t);
    var th := s.threads[t];
    var ip, x := s.inodes[th.i], InodeBlock(s.g, th.i);
    EncodedIs(s.g, s.blk, th.i, ip, b);
    InodeWriteKeeps(s.g, s.blk, s.view, s.owner, s.held, x, b);
    WriteApart(s.g, s.blk, s.view, s.owner, s.held, th.took, x, b);
    HeldTakes(s.held, th.took, 0);
    assert s.view[th.i := ip] == s.view;
    TookMore(s.g, s.blk, x, b, s.view, s.owner, s.held, ip, th, th.(dirty := false));
    MovedKeeps(s, t, s.blk[x := b], ip, th.(dirty := false), s.owner);
  }

  // ----- itrunc

  lemma TruncStep(s: State, t: int)
    requires Inv(s) && Can(s, t, Trunc)
    ensures Inv(Next(s, t, Trunc))
  {
    hide Inv, FsOk, KeepsHeld, DiskInode;
    FsHolds(s);
    BusyFacts(s, t);
    var th := s.threads[t];
    NothingToHold(s.blk, s.view[th.i]);
    SetSizeKeeps(s.g, s.blk, s.view, s.owner, s.held, th.i, 0);
    NothingWritten(s.blk, s.held, th.took);
    HeldTakes(s.held, th.took, 0);
    MovedKeeps(s, t, s.blk, s.inodes[th.i], th.(dirty := true, part := Slots(0)), s.owner);
  }

  /** Steps that change neither the disk nor the view. */
  lemma QuietStep(s: State, t: int, ip: Inode, part: Part)
    requires Inv(s) && Busy(s, t) && s.threads[t].dirty && |ip.addrs| == NDIRECT + 1
             && (part.Freed? ==> 0 <= part.k < NDIRECT)
    requires (s.threads[t].part.Freed? ==> 0 <= s.threads[t].part.k < NDIRECT)
    requires ViewOf(ip, part) == ViewOf(s.inodes[s.threads[t].i], s.threads[t].part)
    requires ThreadOk(s.blk, ip, s.threads[t].(part := part))
    ensures Inv(Moved(s, t, s.blk, ip, s.threads[t].(part := part), s.owner))
  {
    hide Inv, FsOk, KeepsHeld, DiskInode, ViewOf, ThreadOk;
    FsHolds(s);
    BusyFacts(s, t);
    var th := s.threads[t];
    NothingWritten(s.blk, s.held, th.took);
    HeldTakes(s.held, th.took, 0);
    assert s.view[th.i := s.view[th.i]] == s.view;
    MovedKeeps(s, t, s.blk, ip, th.(part := part), s.owner);
  }

  lemma SkipStep(s: State, t: int)
    requires Inv(s) && Can(s, t, Skip)
    ensures Inv(Next(s, t, Skip))
  {
    hide Inv, FsOk, DiskInode;
    BusyFacts(s, t);
    QuietStep(s, t, s.inodes[s.threads[t].i], Slots(s.threads[t].part.k + 1));
  }

  lemma ClearDirectStep(s: State, t: int)
    requires Inv(s) && Can(s, t, ClearDirect)
    ensures Inv(Next(s, t, ClearDirect))
  {
    hide Inv, FsOk, DiskInode;
    BusyFacts(s, t);
    var th := s.threads[t];
    var ip := s.inodes[th.i];
    QuietStep(s, t, ip.(addrs := ip.addrs[th.part.k := 0]), Slots(th.part.k + 1));
  }

  lemma ClearTableStep(s: State, t: int)
    requires Inv(s) && Can(s, t, ClearTable)
    ensures Inv(Next(s, t, ClearTable))
  {
    hide Inv, FsOk, DiskInode;
    BusyFacts(s, t);
    var ip := s.inodes[s.threads[t].i];
    QuietStep(s, t, ip.(addrs := ip.addrs[NDIRECT := 0]), Emptied);
  }

  lemma FinishStep(s: State, t: int)
    requires Inv(s) && Can(s, t, Finish)
    ensures Inv(Next(s, t, Finish))
  {
    hide Inv, FsOk, DiskInode;
    BusyFacts(s, t);
    QuietStep(s, t, s.inodes[s.threads[t].i].(size := 0), Whole);
  }

  /** bfree changes one bitmap block. */
  lemma FreeWrites(g: Super, blk: seq<Block>, view: seq<Inode>, owner: map<int, Slot>, held: set<int>, took: set<int>,
                   x: int)
    requires FsOk(g, blk, view, owner, held) && 0 <= x < g.size
    ensures KeepsHeld(blk, Bfree(g, blk, x), held, took)
    ensures forall j :: 0 <= j < g.ninodes ==> DiskInode(g, Bfree(g, blk, x), j) == DiskInode(g, blk, j)
    ensures forall y :: g.nmeta <= y < g.size ==> Bfree(g, blk, x)[y] == blk[y]
  {
    var bb := BitBlock(g, x);
    WriteApart(g, blk, view, owner, held, took, bb, ClearBit(blk[bb], x % 8192));
    DiskInodeApart(g, blk, bb, ClearBit(blk[bb], x % 8192));
  }

  lemma FreeDirectStep(s: State, t: int)
    requires Inv(s) && Can(s, t, FreeDirect)
    ensures Inv(Next(s, t, FreeDirect))
  {
    hide Inv, FsOk, KeepsHeld, DiskInode, Bfree, Marked;
    FsHolds(s);
    BusyFacts(s, t);
    var th := s.threads[t];
    var ip, k := s.inodes[th.i], th.part.k;
    var x := ip.addrs[k];
    SlotFreed(s.g, s.blk, s.view, s.owner, s.held, th.i, k);
    FreeOne(s.g, s.blk, s.view[th.i := Inode(0, ip.addrs[k := 0])], s.owner - {x}, s.held + {x}, x);
    assert s.held + {x} - {x} == s.held;
    FreeWrites(s.g, s.blk, s.view, s.owner, s.held, th.took, x);
    HeldTakes(s.held, th.took, 0);
    assert s.view[th.i := ViewOf(ip, Freed(k))] == s.view[th.i := Inode(0, ip.addrs[k := 0])];
    MovedKeeps(s, t, Bfree(s.g, s.blk, x), ip, th.(part := Freed(k)), s.owner - {x});
  }

  lemma FreeOne(g: Super, blk: seq<Block>, view: seq<Inode>, owner: map<int, Slot>, held: set<int>, x: int)
    requires FsOk(g, blk, view, owner, held) && x in held
    ensures Layout(g) && |blk| == g.size && Frees(g, blk, x) && FsOk(g, Bfree(g, blk, x), view, owner, held - {x})
  {
    FreeKeeps(g, blk, view, owner, held, x);
  }

  lemma DetachStep(s: State, t: int)
    requires Inv(s) && Can(s, t, Detach)
    ensures Inv(Next(s, t, Detach))
  {
    hide Inv, FsOk, KeepsHeld, DiskInode, IndirectBlocks, Lists;
    FsHolds(s);
    BusyFacts(s, t);
    var th := s.threads[t];
    var ip := s.inodes[th.i];
    var gone := IndirectBlocks(s.owner, th.i);
    IndirectGone(s.g, s.blk, s.view, s.owner, s.held, th.i);
    ListsFrom(s.blk[ip.addrs[NDIRECT]], ip.addrs[NDIRECT], s.owner, gone);
    NothingWritten(s.blk, s.held, th.took);
    assert s.held - th.took + gone == s.held + gone;
    assert s.view[th.i].(addrs := s.view[th.i].addrs[NDIRECT := 0]) == ViewOf(ip, Table(0, s.owner, gone));
    MovedKeeps(s, t, s.blk, ip, th.(took := gone, part := Table(0, s.owner, gone)), s.owner - gone);
  }

  lemma FreeEntryStep(s: State, t: int)
    requires Inv(s) && Can(s, t, FreeEntry)
    ensures Inv(Next(s, t, FreeEntry))
  {
    hide Inv, FsOk, KeepsHeld, DiskInode, Bfree, Marked, Remaining, Word;
    FsHolds(s);
    BusyFacts(s, t);
    var th := s.threads[t];
    var ip, j := s.inodes[th.i], th.part.j;
    var d := ip.addrs[NDIRECT];
    if Word(s.blk[d], j) == 0 {
      ListsNext(s.blk[d], d, th.part.was, th.part.gone, j);
      QuietStep(s, t, ip, th.part.(j := j + 1));
    } else {
      FreeEntryBlock(s, t, Word(s.blk[d], j));
    }
  }

  lemma FreeEntryBlock(s: State, t: int, x: int)
    requires Inv(s) && Can(s, t, FreeEntry)
    requires var th := s.threads[t]; x == Word(s.blk[s.inodes[th.i].addrs[NDIRECT]], th.part.j) != 0
    ensures Inv(Next(s, t, FreeEntry))
  {
    hide Inv, FsOk, KeepsHeld, DiskInode, Bfree, Marked, Remaining, Word;
    FsHolds(s);
    BusyFacts(s, t);
    var th := s.threads[t];
    var ip, j := s.inodes[th.i], th.part.j;
    var d := ip.addrs[NDIRECT];
    var on := th.part.(j := j + 1);
    ListsNext(s.blk[d], d, th.part.was, th.part.gone, j);
    FreeOne(s.g, s.blk, s.view, s.owner, s.held, x);
    FreeWrites(s.g, s.blk, s.view, s.owner, s.held, th.took, x);
    HeldIsData(s.g, s.blk, s.view, s.owner, s.held);
    TableTook(s.blk, ip, th.took, th.part);
    HeldTakes(s.held, th.took, x);
    assert s.view[th.i := ViewOf(ip, on)] == s.view;
    MovedKeeps(s, t, Bfree(s.g, s.blk, x), ip, th.(took := th.took - {x}, part := on), s.owner);
  }

  lemma TableTook(blk: seq<Block>, ip: Inode, took: set<int>, part: Part)
    requires |ip.addrs| == NDIRECT + 1 && part.Table? && PartOk(blk, ip, took, part)
    ensures ip.addrs[NDIRECT] in took && (part.j == NINDIRECT ==> took == {ip.addrs[NDIRECT]})
  {
    if part.j == NINDIRECT {
      ListsFrom(blk[ip.addrs[NDIRECT]], ip.addrs[NDIRECT], part.was, part.gone);
    }
  }

  lemma FreeTableStep(s: State, t: int)
    requires Inv(s) && Can(s, t, FreeTable)
    ensures Inv(Next(s, t, FreeTable))
  {
    hide Inv, FsOk, KeepsHeld, DiskInode, Bfree, Marked, Remaining, Lists;
    FsHolds(s);
    BusyFacts(s, t);
    var th := s.threads[t];
    var ip := s.inodes[th.i];
    var x := ip.addrs[NDIRECT];
    TableTook(s.blk, ip, th.took, th.part);
    FreeOne(s.g, s.blk, s.view, s.owner, s.held, x);
    FreeWrites(s.g, s.blk, s.view, s.owner, s.held, th.took, x);
    assert s.held - th.took + {} == s.held - {x};
    assert s.view[th.i := ViewOf(ip, TableFreed)] == s.view;
    MovedKeeps(s, t, Bfree(s.g, s.blk, x), ip, th.(took := {}, part := TableFreed), s.owner);
  }

  // ----- ilock and iunlock

  /** Threads before and after one of them, with nothing in transit, locks or unlocks an inode. */
  ghost predicate Switched(threads: seq<Thread>, threads': seq<Thread>, t: int, i: int) {
    && 0 <= t < |threads| == |threads'| && (forall u :: 0 <= u < |threads| && u != t ==> threads'[u] == threads[u])
    && Idle(threads[t], i) && Idle(threads'[t], i)
  }

  ghost predicate Idle(th: Thread, i: int) {
    th.Outside? || (th.i == i && th.took == {} && !th.dirty && th.part.Whole?)
  }

  lemma SwitchedHeld(threads: seq<Thread>, threads': seq<Thread>, t: int, i: int, held: set<int>)
    requires Switched(threads, threads', t, i) && HeldOk(threads, held)
    ensures HeldOk(threads', held)
  {
    forall u, x ensures Takes(threads', u, x) <==> Takes(threads, u, x) {
    }
  }

  lemma SwitchedView(threads: seq<Thread>, threads': seq<Thread>, t: int, i: int, inodes: seq<Inode>, view: seq<Inode>)
    requires Switched(threads, threads', t, i) && ViewOk(inodes, view, threads) && 0 <= i < |inodes|
             && |inodes[i].addrs| == NDIRECT + 1
    requires threads[t].Inside? || Unlocked(threads, i)
    ensures ViewOk(inodes, view, threads')
  {
    assert view[i] == inodes[i] by {
      assert threads[t].Inside? ==> At(threads, t, i);
    }
    forall u, j | At(threads', u, j) && u != t ensures At(threads, u, j) {
    }
    forall j | 0 <= j < |inodes| && j != i && Unlocked(threads', j) ensures Unlocked(threads, j) {
      forall u ensures !At(threads, u, j) {
        assert !At(threads', u, j);
      }
    }
  }

  lemma SwitchedDisk(threads: seq<Thread>, threads': seq<Thread>, t: int, i: int, g: Super, blk: seq<Block>,
                     inodes: seq<Inode>)
    requires Switched(threads, threads', t, i) && DiskOk(g, blk, inodes, threads) && Apart(threads)
             && (threads[t].Inside? || Unlocked(threads, i))
    ensures DiskOk(g, blk, inodes, threads')
  {
    hide DiskInode, Layout;
    forall j | 0 <= j < |inodes| && (forall u :: At(threads', u, j) ==> !threads'[u].dirty)
      ensures DiskInode(g, blk, j) == inodes[j] {
      forall u ensures At(threads, u, j) ==> !threads[u].dirty {
        assert At(threads, u, j) && u != t ==> At(threads', u, j);
      }
    }
  }

  lemma EnterStep(s: State, t: int, i: int)
    requires Inv(s) && Can(s, t, Enter(i))
    ensures Inv(Next(s, t, Enter(i)))
  {
    hide FsOk, DiskOk, ViewOk, HeldOk, DiskInode;
    var threads' := s.threads[t := Inside(i, {}, {}, false, Whole)];
    FilesDefined(s.g, s.held, s.blk, s.view, s.owner);
    EnterIsFree(s, t, i);
    SwitchedHeld(s.threads, threads', t, i, s.held);
    SwitchedView(s.threads, threads', t, i, s.inodes, s.view);
    SwitchedDisk(s.threads, threads', t, i, s.g, s.blk, s.inodes);
  }

  lemma EnterIsFree(s: State, t: int, i: int)
    requires Inv(s) && Can(s, t, Enter(i))
    ensures 0 <= i < |s.inodes| && Unlocked(s.threads, i) && |s.inodes[i].addrs| == NDIRECT + 1
  {
    hide FsOk, DiskOk, HeldOk;
    FilesDefined(s.g, s.held, s.blk, s.view, s.owner);
    assert Unlocked(s.threads, i);
    assert s.view[i] == s.inodes[i];
  }

  lemma LeaveStep(s: State, t: int)
    requires Inv(s) && Can(s, t, Leave)
    ensures Inv(Next(s, t, Leave))
  {
    hide FsOk, DiskOk, ViewOk, HeldOk, DiskInode;
    var threads', i := s.threads[t := Outside], s.threads[t].i;
    BusyFacts(s, t);
    SwitchedHeld(s.threads, threads', t, i, s.held);
    SwitchedView(s.threads, threads', t, i, s.inodes, s.view);
    SwitchedDisk(s.threads, threads', t, i, s.g, s.blk, s.inodes);
  }

  /** Every step of every thread keeps the invariant; no bfree meets a free block. */
  lemma StepKeeps(s: State, t: int, a: Step)
    requires Inv(s) && Can(s, t, a)
    ensures Inv(Next(s, t, a))
  {
    hide Inv, Can, Next;
    match a
    case Enter(i) => EnterStep(s, t, i);
    case Leave => LeaveStep(s, t);
    case Mark(x) => MarkStep(s, t, x);
    case Clear(x) => ClearStep(s, t, x);
    case LinkDirect(k, x) => LinkDirectStep(s, t, k, x);
    case LinkEntry(j, x) => LinkEntryStep(s, t, j, x);
    case Write(k, b) => WriteStep(s, t, k, b);
    case Grow(n) => GrowStep(s, t, n);
    case Update(b) => UpdateStep(s, t, b);
    case Trunc => TruncStep(s, t);
    case Skip => SkipStep(s, t);
    case FreeDirect => FreeDirectStep(s, t);
    case ClearDirect => ClearDirectStep(s, t);
    case Detach => DetachStep(s, t);
    case FreeEntry => FreeEntryStep(s, t);
    case FreeTable => FreeTableStep(s, t);
    case ClearTable => ClearTableStep(s, t);
    case Finish => FinishStep(s, t);
  }
}
