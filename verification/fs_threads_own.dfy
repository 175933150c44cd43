/** What a thread inside bmap, writei or itrunc does to the file that it has locked. */
module FsThreadsOwn {
  import opened FsFormat
  import opened FsModel
  import opened FsThreads
  import opened FsThreadsSafety

  /** The file keeps its bytes if its block map only gains, and its data blocks stay as they are. */
  lemma KeptFile(g: Super, blk: seq<Block>, view: seq<Inode>, owner: map<int, Slot>, held: set<int>, i: int,
                 blk': seq<Block>, v': Inode)
    requires FsOk(g, blk, view, owner, held) && 0 <= i < |view| && |blk'| == |blk| && |v'.addrs| == NDIRECT + 1
             && v'.size == view[i].size
    requires forall k :: 0 <= k < NSLOT && k != NDIRECT && Ref(blk, view[i], k) != 0 ==>
               Ref(blk', v', k) == Ref(blk, view[i], k)
    requires forall x :: x in owner && owner[x].k != NDIRECT && 0 <= x < |blk| ==> blk'[x] == blk[x]
    ensures 0 <= v'.size <= MAXFILE * BSIZE && |view[i].addrs| == NDIRECT + 1
    ensures File(blk', v') == File(blk, view[i])
  {
    assert NoHoles(blk, view[i]);
    forall bn | 0 <= bn < MAXFILE && bn * 1024 < v'.size
      ensures var a := Ref(blk, view[i], SlotOf(bn));
              Ref(blk', v', SlotOf(bn)) == a && (0 <= a < |blk| ==> blk'[a] == blk[a])
    {
      SlotIsData(g, blk, view, owner, held, i, SlotOf(bn));
    }
    SameFile(blk, blk', view[i], v');
  }

  /** A write to metadata or to a block in transit. */
  lemma OutsideFile(g: Super, blk: seq<Block>, view: seq<Inode>, owner: map<int, Slot>, held: set<int>, i: int,
                    y: int, b: Block)
    requires FsOk(g, blk, view, owner, held) && 0 <= i < |view| && 0 <= y < |blk| && (y < g.nmeta || y in held)
    ensures |view[i].addrs| == NDIRECT + 1 && 0 <= view[i].size <= MAXFILE * BSIZE
            && File(blk[y := b], view[i]) == File(blk, view[i])
  {
    if view[i].addrs[NDIRECT] != 0 {
      TableOwned(g, blk, view, owner, held, i);
    }
    forall k | 0 <= k < NSLOT ensures Ref(blk[y := b], view[i], k) == Ref(blk, view[i], k) {
      SameRefs(blk, blk[y := b], view[i], k);
    }
    KeptFile(g, blk, view, owner, held, i, blk[y := b], view[i]);
  }

  lemma DirectGained(g: Super, blk: seq<Block>, view: seq<Inode>, owner: map<int, Slot>, held: set<int>, i: int,
                     k: int, x: int)
    requires FsOk(g, blk, view, owner, held) && 0 <= i < |view| && |view[i].addrs| == NDIRECT + 1
             && 0 <= k <= NDIRECT && view[i].addrs[k] == 0
    ensures 0 <= view[i].size <= MAXFILE * BSIZE
            && File(blk, view[i].(addrs := view[i].addrs[k := x])) == File(blk, view[i])
  {
    KeptFile(g, blk, view, owner, held, i, blk, view[i].(addrs := view[i].addrs[k := x]));
  }

  lemma EntryGained(g: Super, blk: seq<Block>, view: seq<Inode>, owner: map<int, Slot>, held: set<int>, i: int,
                    j: int, x: int)
    requires FsOk(g, blk, view, owner, held) && 0 <= i < |view| && |view[i].addrs| == NDIRECT + 1 && 0 <= x < WORD
    requires 0 <= j < NINDIRECT && 0 < view[i].addrs[NDIRECT] < |blk| && Ref(blk, view[i], NDIRECT + 1 + j) == 0
    ensures var d := view[i].addrs[NDIRECT];
            && 0 <= view[i].size <= MAXFILE * BSIZE
            && File(blk[d := PutWord(blk[d], j, x)], view[i]) == File(blk, view[i])
            && Ref(blk[d := PutWord(blk[d], j, x)], view[i], NDIRECT + 1 + j) == x
  {
    hide PutWord, Word;
    var d := view[i].addrs[NDIRECT];
    var blk' := blk[d := PutWord(blk[d], j, x)];
    TableOwned(g, blk, view, owner, held, i);
    forall k | 0 <= k < NSLOT && k != NDIRECT + 1 + j ensures Ref(blk', view[i], k) == Ref(blk, view[i], k) {
      if k > NDIRECT {
        assert Word(blk'[d], k - NDIRECT - 1) == Word(blk[d], k - NDIRECT - 1);
      }
    }
    KeptFile(g, blk, view, owner, held, i, blk', view[i]);
  }

  /** The bytes of one block of the file are those that were written; the others stay. */
  ghost predicate OneBlock(was: seq<Byte>, now: seq<Byte>, k: int, b: Block) {
    |now| == |was| <= MAXFILE * BSIZE && forall o :: 0 <= o < |was| ==>
      now[o] == if SlotOf(o / 1024) == k then b[o % 1024] else was[o]
  }

  lemma BlockWritten(g: Super, blk: seq<Block>, view: seq<Inode>, owner: map<int, Slot>, held: set<int>, i: int, k: int,
                     b: Block)
    requires FsOk(g, blk, view, owner, held) && 0 <= i < |view| && |view[i].addrs| == NDIRECT + 1
    requires 0 <= k < NSLOT && k != NDIRECT && 0 < Ref(blk, view[i], k) < |blk|
    ensures 0 <= view[i].size <= MAXFILE * BSIZE
            && OneBlock(File(blk, view[i]), File(blk[Ref(blk, view[i], k) := b], view[i]), k, b)
  {
    var y := Ref(blk, view[i], k);
    var blk' := blk[y := b];
    SlotIsData(g, blk, view, owner, held, i, k);
    if view[i].addrs[NDIRECT] != 0 {
      TableOwned(g, blk, view, owner, held, i);
    }
    assert NoHoles(blk, view[i]);
    forall o | 0 <= o < view[i].size
      ensures ByteAt(blk', view[i], o) == if SlotOf(o / 1024) == k then b[o % 1024] else ByteAt(blk, view[i], o)
    {
      var s := SlotOf(o / 1024);
      SameRefs(blk, blk', view[i], s);
      SlotIsData(g, blk, view, owner, held, i, s);
    }
  }

  /** What the locked file is after the step. Blocks come to it without a trace in its bytes; writei changes the
      bytes of the block that it writes, and then the size; from the start of itrunc on it is empty. */
  ghost predicate FileStep(was: seq<Byte>, now: seq<Byte>, a: Step) {
    match a
    case Write(k, b) => OneBlock(was, now, k, b)
    case Grow(n) => |was| <= n == |now| && now[..|was|] == was
    case Leave => now == was
    case Mark(_) => now == was
    case Clear(_) => now == was
    case LinkDirect(_, _) => now == was
    case LinkEntry(_, _) => now == was
    case Update(_) => now == was
    case _ => now == []
  }

  lemma BmapFile(s: State, t: int, a: Step)
    requires Inv(s) && Can(s, t, a) && (a.Mark? || a.Clear? || a.LinkDirect? || a.LinkEntry?)
    ensures var i := s.threads[t].i; var u := Next(s, t, a);
            && |u.view| == |s.view| && 0 <= i < |s.view| && |s.view[i].addrs| == |u.view[i].addrs| == NDIRECT + 1
            && 0 <= s.view[i].size <= MAXFILE * BSIZE && u.view[i].size == s.view[i].size
            && File(u.blk, u.view[i]) == File(s.blk, s.view[i])
  {
    hide Inv, FsOk, Marked, SetBit, PutWord, Ref, PartOk, DiskInode, File, NoHoles;
    FsHolds(s);
    BusyFacts(s, t);
    var th := s.threads[t];
    match a
    case Mark(x) =>
      MarkIsMeta(s, x);
      OutsideFile(s.g, s.blk, s.view, s.owner, s.held, th.i, BitBlock(s.g, x),
                  SetBit(s.blk[BitBlock(s.g, x)], x % 8192));
    case Clear(x) => OutsideFile(s.g, s.blk, s.view, s.owner, s.held, th.i, x, Zeros());
    case LinkDirect(k, x) => DirectGained(s.g, s.blk, s.view, s.owner, s.held, th.i, k, x);
    case LinkEntry(j, x) => EntryGained(s.g, s.blk, s.view, s.owner, s.held, th.i, j, x);
  }

  lemma MarkIsMeta(s: State, x: int)
    requires Layout(s.g) && 0 <= x < s.g.size
    ensures 0 <= BitBlock(s.g, x) < s.g.nmeta <= s.g.size
  {
  }

  lemma WriteFile(s: State, t: int, a: Step)
    requires Inv(s) && Can(s, t, a) && (a.Write? || a.Grow? || a.Update? || a.Leave?)
    ensures var i := s.threads[t].i; var u := Next(s, t, a);
            && |u.view| == |s.view| && 0 <= i < |s.view| && |s.view[i].addrs| == |u.view[i].addrs| == NDIRECT + 1
            && 0 <= s.view[i].size <= MAXFILE * BSIZE && 0 <= u.view[i].size <= MAXFILE * BSIZE
            && FileStep(File(s.blk, s.view[i]), File(u.blk, u.view[i]), a)
  {
    hide Inv, FsOk, Marked, Ref, PartOk, DiskInode, Encodes, OneBlock;
    FsHolds(s);
    BusyFacts(s, t);
    FilesDefined(s.g, s.held, s.blk, s.view, s.owner);
    var th := s.threads[t];
    match a
    case Write(k, b) => BlockWritten(s.g, s.blk, s.view, s.owner, s.held, th.i, k, b);
    case Update(b) => OutsideFile(s.g, s.blk, s.view, s.owner, s.held, th.i, InodeBlock(s.g, th.i), b);
    case Grow(n) => Longer(s.blk, s.inodes[th.i], n);
    case Leave =>
  }

  lemma Longer(blk: seq<Block>, ip: Inode, n: int)
    requires |ip.addrs| == NDIRECT + 1 && 0 <= ip.size <= n <= MAXFILE * BSIZE
    ensures File(blk, ip.(size := n))[..ip.size] == File(blk, ip)
  {
    forall o | 0 <= o < ip.size ensures ByteAt(blk, ip.(size := n), o) == ByteAt(blk, ip, o) {
    }
  }

  /** Every step of a thread, on its own file, whatever other threads are in the middle of. */
  lemma {:induction false} OwnStep(s: State, t: int, a: Step)
    requires Inv(s) && Can(s, t, a) && !a.Enter?
    ensures var i := s.threads[t].i; var u := Next(s, t, a);
            && |u.view| == |s.view| && 0 <= i < |s.view| && |s.view[i].addrs| == |u.view[i].addrs| == NDIRECT + 1
            && 0 <= s.view[i].size <= MAXFILE * BSIZE && 0 <= u.view[i].size <= MAXFILE * BSIZE
            && FileStep(File(s.blk, s.view[i]), File(u.blk, u.view[i]), a)
  {
    hide Inv, FsOk, Marked, Ref, PartOk, DiskInode, Encodes, OneBlock, Bfree, File, NoHoles, IndirectBlocks;
    if a.Mark? || a.Clear? || a.LinkDirect? || a.LinkEntry? {
      BmapFile(s, t, a);
    } else if a.Write? || a.Grow? || a.Update? || a.Leave? {
      WriteFile(s, t, a);
    } else {
      FsHolds(s);
      BusyFacts(s, t);
      FilesDefined(s.g, s.held, s.blk, s.view, s.owner);
    }
  }

  /** Where itrunc ends, the inode names no block at all. */
  lemma {:induction false} TruncEnds(s: State, t: int)
    requires Inv(s) && Can(s, t, Finish)
    ensures Next(s, t, Finish).inodes[s.threads[t].i] == Inode(0, seq(NDIRECT + 1, k => 0))
    ensures forall x :: x in s.owner ==> s.owner[x].inum != s.threads[t].i
  {
    hide FsOk, DiskInode;
    BusyFacts(s, t);
    var i := s.threads[t].i;
    assert s.inodes[i].addrs == seq(NDIRECT + 1, k => 0);
    forall x | x in s.owner ensures s.owner[x].inum != i {
      NoneNamed(s.g, s.blk, s.view, s.owner, s.held, i, x);
    }
  }

  lemma NoneNamed(g: Super, blk: seq<Block>, view: seq<Inode>, owner: map<int, Slot>, held: set<int>, i: int, x: int)
    requires FsOk(g, blk, view, owner, held) && 0 <= i < |view| && view[i].addrs == seq(NDIRECT + 1, k => 0)
    requires x in owner
    ensures owner[x].inum != i
  {
    assert Ref(blk, view[owner[x].inum], owner[x].k) == x;
  }
}
