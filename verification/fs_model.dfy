/** The block allocator and the inode block maps of kernel/fs.c as values: who owns which disk
    block, and which bytes a file holds. */
module FsModel {
  import opened FsFormat

  /** The disk layout of the super block; data blocks start at `nmeta`. */
  datatype Super = Super(size: int, ninodes: int, inodestart: int, bmapstart: int, nmeta: int)

  datatype Inode = Inode(size: int, addrs: seq<int>)

  /** One place that can hold a block number: 0..11 are an inode's direct blocks, 12 its indirect
      block, and 13 + j entry j of that indirect block. */
  datatype Slot = Slot(inum: int, k: int)

  const NSLOT: int := NDIRECT + 1 + NINDIRECT

  ghost predicate Layout(g: Super) {
    && 0 < g.ninodes && 0 < g.inodestart
    && g.inodestart + g.ninodes / 16 < g.bmapstart
    && g.bmapstart + g.size / 8192 < g.nmeta <= g.size < WORD
  }

  predicate WellFormed(g: Super, blk: seq<Block>, inodes: seq<Inode>) {
    && |blk| == g.size && |inodes| == g.ninodes
    && forall i :: 0 <= i < |inodes| ==> |inodes[i].addrs| == NDIRECT + 1
  }

  /** The block number in slot `k` of an inode, 0 if there is none. */
  function Ref(blk: seq<Block>, ip: Inode, k: int): (a: int)
    requires |ip.addrs| == NDIRECT + 1 && 0 <= k < NSLOT
  {
    if k <= NDIRECT then ip.addrs[k]
    else if 0 < ip.addrs[NDIRECT] < |blk| then Word(blk[ip.addrs[NDIRECT]], k - NDIRECT - 1)
    else 0
  }

  /** The slot of file block `bn`. */
  function SlotOf(bn: int): (k: int)
    requires 0 <= bn < MAXFILE
    ensures 0 <= k < NSLOT && k != NDIRECT
  {
    if bn < NDIRECT then bn else bn + 1
  }

  function BitBlock(g: Super, x: int): (b: int) {
    g.bmapstart + x / 8192
  }

  predicate Marked(g: Super, blk: seq<Block>, x: int)
    requires Layout(g) && |blk| == g.size && 0 <= x < g.size
  {
    Bit(blk[BitBlock(g, x)], x % 8192)
  }

  /** No block is left to allocate. */
  ghost predicate DiskFull(g: Super, blk: seq<Block>) {
    Layout(g) && |blk| == g.size && forall y :: 0 <= y < g.size ==> Marked(g, blk, y)
  }

  /** Every block number stored anywhere is owned by exactly the slot that stores it. */
  ghost predicate Owned(g: Super, blk: seq<Block>, inodes: seq<Inode>, owner: map<int, Slot>)
    requires WellFormed(g, blk, inodes)
  {
    && (forall x :: x in owner ==>
          g.nmeta <= x < g.size && 0 <= owner[x].inum < |inodes| && 0 <= owner[x].k < NSLOT
          && Ref(blk, inodes[owner[x].inum], owner[x].k) == x)
    && (forall i, k {:trigger Ref(blk, inodes[i], k)} ::
        0 <= i < |inodes| && 0 <= k < NSLOT && Ref(blk, inodes[i], k) != 0 ==>
          Ref(blk, inodes[i], k) in owner && owner[Ref(blk, inodes[i], k)] == Slot(i, k))
  }

  /** A bitmap bit is set exactly for metadata, owned blocks, and blocks in transit. */
  ghost predicate Mapped(g: Super, blk: seq<Block>, owner: map<int, Slot>, held: set<int>)
    requires Layout(g) && |blk| == g.size
  {
    && (forall x :: x in held ==> g.nmeta <= x < g.size && x !in owner)
    && (forall x {:trigger Marked(g, blk, x)} ::
        0 <= x < g.size ==> (Marked(g, blk, x) <==> x < g.nmeta || x in owner || x in held))
  }

  /** Files are within bounds and have a block for every byte. */
  ghost predicate NoHoles(blk: seq<Block>, ip: Inode)
    requires |ip.addrs| == NDIRECT + 1
  {
    && 0 <= ip.size <= MAXFILE * BSIZE
    && forall bn {:trigger SlotOf(bn)} :: 0 <= bn < MAXFILE && bn * 1024 < ip.size ==> Ref(blk, ip, SlotOf(bn)) != 0
  }

  ghost predicate AllFilled(g: Super, blk: seq<Block>, inodes: seq<Inode>)
    requires WellFormed(g, blk, inodes)
  {
    forall i :: 0 <= i < |inodes| ==> NoHoles(blk, inodes[i])
  }

  ghost predicate FsOk(g: Super, blk: seq<Block>, inodes: seq<Inode>, owner: map<int, Slot>, held: set<int>) {
    && Layout(g) && WellFormed(g, blk, inodes)
    && Owned(g, blk, inodes, owner)
    && Mapped(g, blk, owner, held)
    && AllFilled(g, blk, inodes)
  }

  ghost predicate Refers(blk: seq<Block>, inodes: seq<Inode>, i: int, k: int, x: int) {
    0 <= i < |inodes| && |inodes[i].addrs| == NDIRECT + 1 && 0 <= k < NSLOT && Ref(blk, inodes[i], k) == x
  }

  /** Between operations the bitmap alone tells the blocks in use: a data block's bit is set exactly if
      some inode refers to it, directly or through its indirect block, and then in one place only. */
  lemma {:induction false} BitmapIsExact(g: Super, blk: seq<Block>, inodes: seq<Inode>, owner: map<int, Slot>, x: int)
    requires FsOk(g, blk, inodes, owner, {}) && 0 <= x < g.size
    ensures Marked(g, blk, x) <==> x < g.nmeta || exists i, k :: Refers(blk, inodes, i, k, x)
    ensures x > 0 ==>
              forall i, k, i', k' ::
                  Refers(blk, inodes, i, k, x) && Refers(blk, inodes, i', k', x) ==> i == i' && k == k'
    ensures x > 0 ==> forall i, k :: Refers(blk, inodes, i, k, x) ==> g.nmeta <= x
  {
    if x in owner {
      assert Refers(blk, inodes, owner[x].inum, owner[x].k, x);
    }
  }

  // ----- what a file holds

  function ByteAt(blk: seq<Block>, ip: Inode, o: int): (c: Byte)
    requires |ip.addrs| == NDIRECT + 1 && 0 <= o < MAXFILE * BSIZE
  {
    var a := Ref(blk, ip, SlotOf(o / 1024));
    if 0 <= a < |blk| then blk[a][o % 1024] else 0
  }

  ghost function File(blk: seq<Block>, ip: Inode): (s: seq<Byte>)
    requires |ip.addrs| == NDIRECT + 1 && 0 <= ip.size <= MAXFILE * BSIZE
    ensures |s| == ip.size
  {
    seq(ip.size, o requires 0 <= o < ip.size => ByteAt(blk, ip, o))
  }

  // ----- which writes keep the block map

  /** Slots mean the same on both disks if no inode's indirect block differs. */
  lemma SameRefs(blk: seq<Block>, blk': seq<Block>, ip: Inode, k: int)
    requires |ip.addrs| == NDIRECT + 1 && 0 <= k < NSLOT && |blk| == |blk'|
    requires 0 < ip.addrs[NDIRECT] < |blk| ==> blk'[ip.addrs[NDIRECT]] == blk[ip.addrs[NDIRECT]]
    ensures Ref(blk', ip, k) == Ref(blk, ip, k)
  {
  }

  /** Block `x` is not the indirect block of any inode. */
  ghost predicate NotIndirect(inodes: seq<Inode>, x: int)
    requires forall i :: 0 <= i < |inodes| ==> |inodes[i].addrs| == NDIRECT + 1
  {
    forall i :: 0 <= i < |inodes| ==> inodes[i].addrs[NDIRECT] != x
  }

  lemma NotIndirectBecause(g: Super, blk: seq<Block>, inodes: seq<Inode>, owner: map<int, Slot>, x: int)
    requires WellFormed(g, blk, inodes) && Owned(g, blk, inodes, owner) && x != 0
    requires x in owner ==> owner[x].k != NDIRECT
    ensures NotIndirect(inodes, x)
  {
    forall i | 0 <= i < |inodes| ensures inodes[i].addrs[NDIRECT] != x {
      assert Ref(blk, inodes[i], NDIRECT) == inodes[i].addrs[NDIRECT];
    }
  }

  /** Overwriting a block that is nobody's indirect block leaves every slot as it was. */
  lemma WriteKeepsOwned(g: Super, blk: seq<Block>, inodes: seq<Inode>, owner: map<int, Slot>, x: int, b: Block)
    requires WellFormed(g, blk, inodes) && Owned(g, blk, inodes, owner) && AllFilled(g, blk, inodes)
    requires 0 <= x < g.size && NotIndirect(inodes, x)
    ensures Owned(g, blk[x := b], inodes, owner) && AllFilled(g, blk[x := b], inodes)
    ensures forall i, k {:trigger Ref(blk[x := b], inodes[i], k)} :: 0 <= i < |inodes| && 0 <= k < NSLOT ==>
              Ref(blk[x := b], inodes[i], k) == Ref(blk, inodes[i], k)
  {
    var blk' := blk[x := b];
    forall i, k | 0 <= i < |inodes| && 0 <= k < NSLOT ensures Ref(blk', inodes[i], k) == Ref(blk, inodes[i], k) {
      SameRefs(blk, blk', inodes[i], k);
    }
    forall i | 0 <= i < |inodes| ensures NoHoles(blk', inodes[i]) {
      assert NoHoles(blk, inodes[i]);
    }
    assert forall z :: z in owner ==> Ref(blk', inodes[owner[z].inum], owner[z].k) == z;
  }

  predicate InBitmap(g: Super, x: int) {
    g.bmapstart <= x <= g.bmapstart + g.size / 8192
  }

  lemma WriteKeepsMapped(g: Super, blk: seq<Block>, owner: map<int, Slot>, held: set<int>, x: int, b: Block)
    requires Layout(g) && |blk| == g.size && Mapped(g, blk, owner, held) && 0 <= x < g.size && !InBitmap(g, x)
    ensures Mapped(g, blk[x := b], owner, held)
  {
    var blk' := blk[x := b];
    forall y | 0 <= y < g.size ensures Marked(g, blk', y) <==> Marked(g, blk, y) {
      assert InBitmap(g, BitBlock(g, y));
    }
  }

  /** balloc sets the bit of a free block and clears the block. */
  function AfterAlloc(g: Super, blk: seq<Block>, x: int): (r: seq<Block>)
    requires Layout(g) && |blk| == g.size && 0 <= x < g.size
  {
    var bb := BitBlock(g, x);
    blk[bb := SetBit(blk[bb], x % 8192)][x := Zeros()]
  }

  function AfterFree(g: Super, blk: seq<Block>, x: int): (r: seq<Block>)
    requires Layout(g) && |blk| == g.size && 0 <= x < g.size
  {
    var bb := BitBlock(g, x);
    blk[bb := ClearBit(blk[bb], x % 8192)]
  }

  lemma SetBitMarks(g: Super, blk: seq<Block>, x: int, y: int)
    requires Layout(g) && |blk| == g.size && 0 <= x < g.size && 0 <= y < g.size
    ensures Marked(g, blk[BitBlock(g, x) := SetBit(blk[BitBlock(g, x)], x % 8192)], y) <==> y == x || Marked(g, blk, y)
  {
  }

  lemma ClearBitUnmarks(g: Super, blk: seq<Block>, x: int, y: int)
    requires Layout(g) && |blk| == g.size && 0 <= x < g.size && 0 <= y < g.size
    ensures Marked(g, AfterFree(g, blk, x), y) <==> y != x && Marked(g, blk, y)
  {
  }

  /** Setting a clear bit puts its block in transit. */
  lemma MarkKeeps(g: Super, blk: seq<Block>, inodes: seq<Inode>, owner: map<int, Slot>, held: set<int>, x: int)
    requires FsOk(g, blk, inodes, owner, held) && 0 <= x < g.size && !Marked(g, blk, x)
    ensures x >= g.nmeta && x !in owner && x !in held && g.bmapstart <= BitBlock(g, x) < g.nmeta
    ensures var blk' := blk[BitBlock(g, x) := SetBit(blk[BitBlock(g, x)], x % 8192)];
            && FsOk(g, blk', inodes, owner, held + {x})
            && forall i, k {:trigger Ref(blk', inodes[i], k)} ::
                 0 <= i < |inodes| && 0 <= k < NSLOT ==> Ref(blk', inodes[i], k) == Ref(blk, inodes[i], k)
  {
    var bb := BitBlock(g, x);
    var blk1 := blk[bb := SetBit(blk[bb], x % 8192)];
    forall y | 0 <= y < g.size ensures Marked(g, blk1, y) <==> y == x || Marked(g, blk, y) {
      SetBitMarks(g, blk, x, y);
    }
    NotIndirectBecause(g, blk, inodes, owner, bb);
    WriteKeepsOwned(g, blk, inodes, owner, bb, blk1[bb]);
  }

  /** Writing to a block in transit. */
  lemma TransitWriteKeeps(g: Super, blk: seq<Block>, inodes: seq<Inode>, owner: map<int, Slot>, held: set<int>, x: int,
                          b: Block)
    requires FsOk(g, blk, inodes, owner, held) && x in held
    ensures g.nmeta <= x < g.size && FsOk(g, blk[x := b], inodes, owner, held)
    ensures forall i, k {:trigger Ref(blk[x := b], inodes[i], k)} :: 0 <= i < |inodes| && 0 <= k < NSLOT ==>
              Ref(blk[x := b], inodes[i], k) == Ref(blk, inodes[i], k)
  {
    NotIndirectBecause(g, blk, inodes, owner, x);
    WriteKeepsOwned(g, blk, inodes, owner, x, b);
    WriteKeepsMapped(g, blk, owner, held, x, b);
  }

  lemma AllocKeeps(g: Super, blk: seq<Block>, inodes: seq<Inode>, owner: map<int, Slot>, held: set<int>, x: int)
    requires FsOk(g, blk, inodes, owner, held) && 0 <= x < g.size && !Marked(g, blk, x)
    ensures x >= g.nmeta && x !in owner && x !in held
    ensures FsOk(g, AfterAlloc(g, blk, x), inodes, owner, held + {x})
    ensures forall i, k {:trigger Ref(AfterAlloc(g, blk, x), inodes[i], k)} :: 0 <= i < |inodes| && 0 <= k < NSLOT ==>
              Ref(AfterAlloc(g, blk, x), inodes[i], k) == Ref(blk, inodes[i], k)
  {
    hide Owned, Mapped, AllFilled, Ref;
    MarkKeeps(g, blk, inodes, owner, held, x);
    TransitWriteKeeps(g, blk[BitBlock(g, x) := SetBit(blk[BitBlock(g, x)], x % 8192)], inodes, owner, held + {x}, x,
                      Zeros());
  }

  /** bfree of a block in transit. */
  lemma FreeKeeps(g: Super, blk: seq<Block>, inodes: seq<Inode>, owner: map<int, Slot>, held: set<int>, x: int)
    requires FsOk(g, blk, inodes, owner, held) && x in held
    ensures Marked(g, blk, x)
    ensures FsOk(g, AfterFree(g, blk, x), inodes, owner, held - {x})
  {
    var bb := BitBlock(g, x);
    var blk1 := AfterFree(g, blk, x);
    forall y | 0 <= y < g.size ensures Marked(g, blk1, y) <==> y != x && Marked(g, blk, y) {
      ClearBitUnmarks(g, blk, x, y);
    }
    NotIndirectBecause(g, blk, inodes, owner, bb);
    WriteKeepsOwned(g, blk, inodes, owner, bb, blk1[bb]);
  }

  /** Storing a block in transit into an empty direct slot, or an all-zero one as indirect block. */
  lemma LinkDirectKeeps(g: Super, blk: seq<Block>, inodes: seq<Inode>, owner: map<int, Slot>, held: set<int>, i: int,
                        k: int, x: int)
    requires FsOk(g, blk, inodes, owner, held) && x in held && 0 <= i < |inodes| && 0 <= k <= NDIRECT
    requires inodes[i].addrs[k] == 0 && (k == NDIRECT ==> blk[x] == Zeros())
    ensures FsOk(g, blk, inodes[i := inodes[i].(addrs := inodes[i].addrs[k := x])], owner[x := Slot(i, k)], held - {x})
    ensures forall j :: 0 <= j < NSLOT && j != k ==>
              Ref(blk, inodes[i].(addrs := inodes[i].addrs[k := x]), j) == Ref(blk, inodes[i], j)
  {
    var ip := inodes[i].(addrs := inodes[i].addrs[k := x]);
    var inodes' := inodes[i := ip];
    forall j | 0 <= j < NSLOT && j != k ensures Ref(blk, ip, j) == Ref(blk, inodes[i], j) {
      if k == NDIRECT && j > NDIRECT {
        ZeroWord(j - NDIRECT - 1);
      }
    }
    assert Ref(blk, ip, k) == x;
    assert NoHoles(blk, inodes[i]);
    forall i' | 0 <= i' < |inodes'| ensures NoHoles(blk, inodes'[i']) {
      assert NoHoles(blk, inodes[i']);
    }
  }

  /** Storing a block in transit into an empty entry of an indirect block. */
  /** Bit `bi` of the bitmap block that starts with block `b`. */
  lemma BitAt(g: Super, b: int, bi: int)
    requires 0 <= b && b % 8192 == 0 && 0 <= bi < 8192
    ensures BitBlock(g, b + bi) == g.bmapstart + b / 8192 && (b + bi) % 8192 == bi
  {
  }

  lemma LinkEntryRefs(g: Super, blk: seq<Block>, inodes: seq<Inode>, owner: map<int, Slot>, held: set<int>, i: int,
                      j: int, x: int)
    requires FsOk(g, blk, inodes, owner, held) && x in held && 0 <= i < |inodes| && 0 <= j < NINDIRECT
    requires inodes[i].addrs[NDIRECT] != 0
    ensures var a := inodes[i].addrs[NDIRECT];
            && g.nmeta <= a < g.size && a != x && a in owner
            && Ref(blk[a := PutWord(blk[a], j, x)], inodes[i], NDIRECT + 1 + j) == x
            && forall i', k {:trigger Ref(blk[a := PutWord(blk[a], j, x)], inodes[i'], k)} ::
                 0 <= i' < |inodes| && 0 <= k < NSLOT && (i', k) != (i, NDIRECT + 1 + j) ==>
                   Ref(blk[a := PutWord(blk[a], j, x)], inodes[i'], k) == Ref(blk, inodes[i'], k)
  {
    hide Marked, NoHoles;
    var a := inodes[i].addrs[NDIRECT];
    assert Ref(blk, inodes[i], NDIRECT) == a;
    var blk' := blk[a := PutWord(blk[a], j, x)];
    forall i', k | 0 <= i' < |inodes| && 0 <= k < NSLOT && (i', k) != (i, NDIRECT + 1 + j)
      ensures Ref(blk', inodes[i'], k) == Ref(blk, inodes[i'], k)
    {
      assert Ref(blk, inodes[i'], NDIRECT) == inodes[i'].addrs[NDIRECT];
    }
  }

  lemma LinkEntryKeeps(g: Super, blk: seq<Block>, inodes: seq<Inode>, owner: map<int, Slot>, held: set<int>, i: int,
                       j: int, x: int)
    requires FsOk(g, blk, inodes, owner, held) && x in held && 0 <= i < |inodes| && 0 <= j < NINDIRECT
    requires inodes[i].addrs[NDIRECT] != 0 && Ref(blk, inodes[i], NDIRECT + 1 + j) == 0
    ensures var a := inodes[i].addrs[NDIRECT];
            && g.nmeta <= a < g.size && a != x
            && FsOk(g, blk[a := PutWord(blk[a], j, x)], inodes, owner[x := Slot(i, NDIRECT + 1 + j)], held - {x})
            && forall i', k {:trigger Ref(blk[a := PutWord(blk[a], j, x)], inodes[i'], k)} ::
                 0 <= i' < |inodes| && 0 <= k < NSLOT && (i', k) != (i, NDIRECT + 1 + j) ==>
                   Ref(blk[a := PutWord(blk[a], j, x)], inodes[i'], k) == Ref(blk, inodes[i'], k)
  {
    hide PutWord, Word, Ref;
    LinkEntryRefs(g, blk, inodes, owner, held, i, j, x);
    var a := inodes[i].addrs[NDIRECT];
    var b := PutWord(blk[a], j, x);
    var blk' := blk[a := b];
    forall i' | 0 <= i' < |inodes| ensures NoHoles(blk', inodes[i']) {
      assert NoHoles(blk, inodes[i']);
    }
    WriteKeepsMapped(g, blk, owner, held, a, b);
  }

  /** Emptying a direct slot puts its block in transit. The file must no longer claim the bytes. */
  lemma UnlinkDirectKeeps(g: Super, blk: seq<Block>, inodes: seq<Inode>, owner: map<int, Slot>, held: set<int>, i: int,
                          k: int)
    requires FsOk(g, blk, inodes, owner, held) && 0 <= i < |inodes| && 0 <= k < NDIRECT
    requires inodes[i].size == 0 && inodes[i].addrs[k] != 0
    ensures var x := inodes[i].addrs[k];
            && x in owner && owner[x] == Slot(i, k)
            && FsOk(g, blk, inodes[i := inodes[i].(addrs := inodes[i].addrs[k := 0])], owner - {x}, held + {x})
  {
    var x := inodes[i].addrs[k];
    assert Ref(blk, inodes[i], k) == x;
    var ip := inodes[i].(addrs := inodes[i].addrs[k := 0]);
    var inodes' := inodes[i := ip];
    forall j | 0 <= j < NSLOT && j != k ensures Ref(blk, ip, j) == Ref(blk, inodes[i], j) {
    }
    forall i' | 0 <= i' < |inodes'| ensures NoHoles(blk, inodes'[i']) {
      assert NoHoles(blk, inodes[i']);
    }
  }

  /** The indirect block of inode `i` and all blocks it lists. */
  ghost function IndirectBlocks(owner: map<int, Slot>, i: int): (r: set<int>) {
    set x | x in owner && owner[x].inum == i && owner[x].k >= NDIRECT
  }

  /** Dropping an indirect block puts it and all blocks it lists in transit. */
  lemma DetachIndirectKeeps(g: Super, blk: seq<Block>, inodes: seq<Inode>, owner: map<int, Slot>, held: set<int>,
                            i: int)
    requires FsOk(g, blk, inodes, owner, held) && 0 <= i < |inodes| && inodes[i].size == 0
    ensures var gone := IndirectBlocks(owner, i);
            FsOk(g, blk, inodes[i := inodes[i].(addrs := inodes[i].addrs[NDIRECT := 0])], owner - gone, held + gone)
  {
    var gone := IndirectBlocks(owner, i);
    var ip := inodes[i].(addrs := inodes[i].addrs[NDIRECT := 0]);
    var inodes' := inodes[i := ip];
    forall i' | 0 <= i' < |inodes'| ensures NoHoles(blk, inodes'[i']) {
      assert NoHoles(blk, inodes[i']);
    }
    forall j | 0 <= j < NSLOT ensures Ref(blk, ip, j) == if j < NDIRECT then Ref(blk, inodes[i], j) else 0 {
    }
  }

  /** Writing to a block that holds file data. */
  lemma DataWriteKeeps(g: Super, blk: seq<Block>, inodes: seq<Inode>, owner: map<int, Slot>, held: set<int>, x: int,
                       b: Block)
    requires FsOk(g, blk, inodes, owner, held) && x in owner && owner[x].k != NDIRECT
    ensures FsOk(g, blk[x := b], inodes, owner, held)
    ensures forall i, k {:trigger Ref(blk[x := b], inodes[i], k)} :: 0 <= i < |inodes| && 0 <= k < NSLOT ==>
              Ref(blk[x := b], inodes[i], k) == Ref(blk, inodes[i], k)
  {
    NotIndirectBecause(g, blk, inodes, owner, x);
    WriteKeepsOwned(g, blk, inodes, owner, x, b);
    WriteKeepsMapped(g, blk, owner, held, x, b);
  }

  /** Writing to an inode block. */
  lemma InodeWriteKeeps(g: Super, blk: seq<Block>, inodes: seq<Inode>, owner: map<int, Slot>, held: set<int>, x: int,
                        b: Block)
    requires FsOk(g, blk, inodes, owner, held) && g.inodestart <= x < g.bmapstart
    ensures FsOk(g, blk[x := b], inodes, owner, held)
    ensures forall i, k {:trigger Ref(blk[x := b], inodes[i], k)} :: 0 <= i < |inodes| && 0 <= k < NSLOT ==>
              Ref(blk[x := b], inodes[i], k) == Ref(blk, inodes[i], k)
  {
    NotIndirectBecause(g, blk, inodes, owner, x);
    WriteKeepsOwned(g, blk, inodes, owner, x, b);
    WriteKeepsMapped(g, blk, owner, held, x, b);
  }

  lemma SetSizeKeeps(g: Super, blk: seq<Block>, inodes: seq<Inode>, owner: map<int, Slot>, held: set<int>, i: int,
                     n: int)
    requires FsOk(g, blk, inodes, owner, held) && 0 <= i < |inodes| && NoHoles(blk, inodes[i].(size := n))
    ensures FsOk(g, blk, inodes[i := inodes[i].(size := n)], owner, held)
  {
    var inodes' := inodes[i := inodes[i].(size := n)];
    forall k | 0 <= k < NSLOT ensures Ref(blk, inodes'[i], k) == Ref(blk, inodes[i], k) {
    }
    forall i' | 0 <= i' < |inodes'| ensures NoHoles(blk, inodes'[i']) {
      assert NoHoles(blk, inodes[i']);
    }
  }

  /** A file is the same if its blocks are the same blocks with the same contents. */
  lemma SameFile(blk: seq<Block>, blk': seq<Block>, ip: Inode, ip': Inode)
    requires |ip.addrs| == |ip'.addrs| == NDIRECT + 1 && |blk| == |blk'|
    requires ip.size == ip'.size && 0 <= ip.size <= MAXFILE * BSIZE
    requires forall bn {:trigger SlotOf(bn)} :: 0 <= bn < MAXFILE && bn * 1024 < ip.size ==>
               var a := Ref(blk, ip, SlotOf(bn));
               Ref(blk', ip', SlotOf(bn)) == a && (0 <= a < |blk| ==> blk'[a] == blk[a])
    ensures File(blk', ip') == File(blk, ip)
  {
    forall o | 0 <= o < ip.size ensures ByteAt(blk', ip', o) == ByteAt(blk, ip, o) {
      var bn := o / 1024;
      assert bn * 1024 <= o && SlotOf(bn) >= 0;
    }
  }

  /** Block maps only gain: from the first state to the second, inode `i` may have got blocks, and
      nothing that was stored has moved or changed, except that `i`'s indirect block has new entries. */
  ghost predicate Grew(blk: seq<Block>, inodes: seq<Inode>, owner: map<int, Slot>,
                       blk': seq<Block>, inodes': seq<Inode>, owner': map<int, Slot>, i: int) {
    && |inodes'| == |inodes| && 0 <= i < |inodes| && |blk'| == |blk|
    && (forall j :: 0 <= j < |inodes| && j != i ==> inodes'[j] == inodes[j])
    && inodes'[i].size == inodes[i].size
    && (forall x :: x in owner ==> x in owner' && owner'[x] == owner[x])
    && (forall x :: x in owner && 0 <= x < |blk| && owner[x] != Slot(i, NDIRECT) ==> blk'[x] == blk[x])
    && (forall x :: x in owner' && x !in owner ==> owner'[x].inum == i)
  }

  lemma GrewTrans(blk: seq<Block>, inodes: seq<Inode>, owner: map<int, Slot>,
                  blk1: seq<Block>, inodes1: seq<Inode>, owner1: map<int, Slot>,
                  blk2: seq<Block>, inodes2: seq<Inode>, owner2: map<int, Slot>, i: int)
    requires Grew(blk, inodes, owner, blk1, inodes1, owner1, i) && Grew(blk1, inodes1, owner1, blk2, inodes2, owner2, i)
    ensures Grew(blk, inodes, owner, blk2, inodes2, owner2, i)
  {
  }

  /** A slot that held a block still holds it. */
  lemma GrewKeepsRefs(g: Super, blk: seq<Block>, inodes: seq<Inode>, owner: map<int, Slot>, held: set<int>,
                      blk': seq<Block>, inodes': seq<Inode>, owner': map<int, Slot>, held': set<int>, i: int, j: int,
                      k: int)
    requires FsOk(g, blk, inodes, owner, held) && FsOk(g, blk', inodes', owner', held')
    requires Grew(blk, inodes, owner, blk', inodes', owner', i) && 0 <= j < |inodes| && 0 <= k < NSLOT
    requires Ref(blk, inodes[j], k) != 0
    ensures Ref(blk', inodes'[j], k) == Ref(blk, inodes[j], k)
    ensures k != NDIRECT ==>
              0 <= Ref(blk, inodes[j], k) < |blk| && blk'[Ref(blk, inodes[j], k)] == blk[Ref(blk, inodes[j], k)]
  {
    var x := Ref(blk, inodes[j], k);
    assert x in owner && owner[x] == Slot(j, k);
    assert x in owner' && owner'[x] == Slot(j, k);
  }

  /** So every file keeps its bytes. */
  lemma GrewKeepsFiles(g: Super, blk: seq<Block>, inodes: seq<Inode>, owner: map<int, Slot>, held: set<int>,
                       blk': seq<Block>, inodes': seq<Inode>, owner': map<int, Slot>, held': set<int>, i: int, j: int)
    requires FsOk(g, blk, inodes, owner, held) && FsOk(g, blk', inodes', owner', held')
    requires Grew(blk, inodes, owner, blk', inodes', owner', i) && 0 <= j < |inodes|
    ensures inodes'[j].size == inodes[j].size && File(blk', inodes'[j]) == File(blk, inodes[j])
  {
    assert NoHoles(blk, inodes[j]);
    forall bn | 0 <= bn < MAXFILE && bn * 1024 < inodes[j].size
      ensures var a := Ref(blk, inodes[j], SlotOf(bn));
              Ref(blk', inodes'[j], SlotOf(bn)) == a && (0 <= a < |blk| ==> blk'[a] == blk[a])
    {
      GrewKeepsRefs(g, blk, inodes, owner, held, blk', inodes', owner', held', i, j, SlotOf(bn));
    }
    SameFile(blk, blk', inodes[j], inodes'[j]);
  }

  // ----- disk inodes: sixteen words each, of which word 2 is the size and the last thirteen are addresses

  function InodeBlock(g: Super, i: int): (b: int) {
    g.inodestart + i / 16
  }

  function DiskInode(g: Super, blk: seq<Block>, i: int): (ip: Inode)
    requires Layout(g) && |blk| == g.size && 0 <= i < g.ninodes
  {
    var b, w := blk[InodeBlock(g, i)], i % 16 * 16;
    Inode(Word(b, w + 2), seq(NDIRECT + 1, k requires 0 <= k < NDIRECT + 1 => Word(b, w + 3 + k)))
  }

  lemma AddrsAreWords(g: Super, blk: seq<Block>, inodes: seq<Inode>, owner: map<int, Slot>, held: set<int>, i: int)
    requires FsOk(g, blk, inodes, owner, held) && 0 <= i < |inodes|
    ensures 0 <= inodes[i].size < WORD && forall k :: 0 <= k <= NDIRECT ==> 0 <= inodes[i].addrs[k] < WORD
  {
    assert NoHoles(blk, inodes[i]);
    forall k | 0 <= k <= NDIRECT ensures 0 <= inodes[i].addrs[k] < WORD {
      assert Ref(blk, inodes[i], k) == inodes[i].addrs[k];
    }
  }

  /** The inodes with file `i` claiming no bytes. */
  function Truncated(inodes: seq<Inode>, i: int): (r: seq<Inode>)
    requires 0 <= i < |inodes|
  {
    inodes[i := inodes[i].(size := 0)]
  }

  /** The owners that are left once the first `k` slots of inode `i` are empty. */
  ghost function OwnerFrom(owner: map<int, Slot>, i: int, k: int): (r: map<int, Slot>) {
    map x | x in owner && !(owner[x].inum == i && owner[x].k < k) :: owner[x]
  }

  lemma EmptySlotOwnsNothing(g: Super, blk: seq<Block>, inodes: seq<Inode>, owner: map<int, Slot>, held: set<int>,
                             i: int, k: int)
    requires FsOk(g, blk, inodes, owner, held) && 0 <= i < |inodes| && 0 <= k < NSLOT && Ref(blk, inodes[i], k) == 0
    ensures forall y :: y in owner ==> owner[y] != Slot(i, k)
  {
    forall y | y in owner ensures owner[y] != Slot(i, k) {
      assert Ref(blk, inodes[owner[y].inum], owner[y].k) == y;
    }
  }

  lemma NoIndirectBlocks(g: Super, blk: seq<Block>, inodes: seq<Inode>, owner: map<int, Slot>, held: set<int>, i: int)
    requires FsOk(g, blk, inodes, owner, held) && 0 <= i < |inodes| && inodes[i].addrs[NDIRECT] == 0
    ensures IndirectBlocks(owner, i) == {}
  {
    forall y | y in owner ensures !(owner[y].inum == i && owner[y].k >= NDIRECT) {
      assert Ref(blk, inodes[owner[y].inum], owner[y].k) == y;
    }
  }

  lemma OwnerFromNext(owner: map<int, Slot>, i: int, k: int, gone: set<int>)
    requires forall x :: x in gone <==> x in owner && owner[x] == Slot(i, k)
    ensures OwnerFrom(owner, i, k + 1) == OwnerFrom(owner, i, k) - gone
  {
    forall x | x in owner ensures x in OwnerFrom(owner, i, k + 1) <==> x in OwnerFrom(owner, i, k) && x !in gone {
      assert owner[x] == Slot(owner[x].inum, owner[x].k);
    }
  }

  /** `gone` is the indirect block `a` and the blocks that its contents `table` list, each in the
      entry that `was` gives. */
  ghost predicate Lists(table: Block, a: int, was: map<int, Slot>, gone: set<int>) {
    && 0 !in gone && (forall x :: x in gone ==> x in was && NDIRECT <= was[x].k < NSLOT)
    && (forall x :: x in gone && was[x].k == NDIRECT ==> x == a) && a in gone && was[a].k == NDIRECT
    && (forall x :: x in gone && was[x].k > NDIRECT ==> Word(table, was[x].k - NDIRECT - 1) == x)
    && (forall j {:trigger Word(table, j)} :: 0 <= j < NINDIRECT && Word(table, j) != 0 ==>
          Word(table, j) in gone && was[Word(table, j)].k == NDIRECT + 1 + j)
  }

  /** The part of `gone` that is left when the first `j` entries have been freed. */
  ghost function Remaining(was: map<int, Slot>, gone: set<int>, j: int): (r: set<int>)
    requires forall x :: x in gone ==> x in was
  {
    set x | x in gone && (was[x].k == NDIRECT || was[x].k > NDIRECT + j)
  }

  lemma ListsFrom(table: Block, a: int, was: map<int, Slot>, gone: set<int>)
    requires Lists(table, a, was, gone)
    ensures Remaining(was, gone, 0) == gone && Remaining(was, gone, NINDIRECT) == {a}
  {
    forall x | x in gone ensures x in Remaining(was, gone, 0) && (x in Remaining(was, gone, NINDIRECT) <==> x == a) {
      assert x in was && NDIRECT <= was[x].k < NSLOT;
    }
  }

  lemma ListsNext(table: Block, a: int, was: map<int, Slot>, gone: set<int>, j: int)
    requires Lists(table, a, was, gone) && 0 <= j < NINDIRECT
    ensures var x := Word(table, j);
            && (x != 0 ==> x in Remaining(was, gone, j))
            && Remaining(was, gone, j + 1) == if x != 0 then Remaining(was, gone, j) - {x} else Remaining(was, gone, j)
  {
    var x := Word(table, j);
    forall y | y in gone
      ensures y in Remaining(was, gone, j + 1) <==> y in Remaining(was, gone, j) && !(x != 0 && y == x) {
      assert y in was && NDIRECT <= was[y].k < NSLOT;
      if was[y].k == NDIRECT + 1 + j {
        assert Word(table, was[y].k - NDIRECT - 1) == y;
      }
    }
  }

  /** The indirect blocks of an inode are the one it names and the ones listed there. */
  lemma IndirectBlocksListed(g: Super, blk: seq<Block>, inodes: seq<Inode>, owner: map<int, Slot>, held: set<int>,
                             i: int)
    requires FsOk(g, blk, inodes, owner, held) && 0 <= i < |inodes| && inodes[i].addrs[NDIRECT] != 0
    ensures var a := inodes[i].addrs[NDIRECT];
            g.nmeta <= a < g.size && Lists(blk[a], a, owner, IndirectBlocks(owner, i))
  {
    var a, gone := inodes[i].addrs[NDIRECT], IndirectBlocks(owner, i);
    assert Ref(blk, inodes[i], NDIRECT) == a;
    forall x | x in gone ensures Ref(blk, inodes[i], owner[x].k) == x {
    }
    forall j | 0 <= j < NINDIRECT ensures Ref(blk, inodes[i], NDIRECT + 1 + j) == Word(blk[a], j) {
    }
  }

  lemma OwnerWithoutInode(owner: map<int, Slot>, i: int)
    ensures OwnerFrom(owner, i, NDIRECT) - IndirectBlocks(OwnerFrom(owner, i, NDIRECT), i)
         == map x | x in owner && owner[x].inum != i :: owner[x]
  {
  }

  /** If no data block has changed, no file has. */
  lemma UntouchedFile(g: Super, held: set<int>, blk: seq<Block>, inodes: seq<Inode>, owner: map<int, Slot>,
                      blk': seq<Block>, j: int)
    requires FsOk(g, blk, inodes, owner, held) && 0 <= j < |inodes| && |blk'| == |blk|
    requires forall x :: g.nmeta <= x < g.size ==> blk'[x] == blk[x]
    ensures File(blk', inodes[j]) == File(blk, inodes[j])
  {
    assert NoHoles(blk, inodes[j]);
    assert Ref(blk, inodes[j], NDIRECT) == inodes[j].addrs[NDIRECT];
    forall bn | 0 <= bn < MAXFILE && bn * 1024 < inodes[j].size
      ensures var a := Ref(blk, inodes[j], SlotOf(bn));
              Ref(blk', inodes[j], SlotOf(bn)) == a && (0 <= a < |blk| ==> blk'[a] == blk[a])
    {
      var a := Ref(blk, inodes[j], SlotOf(bn));
      assert a in owner;
      SameRefs(blk, blk', inodes[j], SlotOf(bn));
    }
    SameFile(blk, blk', inodes[j], inodes[j]);
  }

  function NonZero(x: int): (s: set<int>) {
    if x == 0 then {} else {x}
  }

  /** Within one block the file's bytes are the block's bytes. */
  lemma SliceOfFile(blk: seq<Block>, ip: Inode, o: int, m: int, addr: int)
    requires |ip.addrs| == NDIRECT + 1 && 0 <= ip.size <= MAXFILE * BSIZE
    requires 0 <= o && 0 < m && o + m <= ip.size && o % 1024 + m <= 1024
    requires addr == Ref(blk, ip, SlotOf(o / 1024)) && 0 <= addr < |blk|
    ensures blk[addr][o % 1024..o % 1024 + m] == File(blk, ip)[o..o + m]
  {
    var piece, slice := blk[addr][o % 1024..o % 1024 + m], File(blk, ip)[o..o + m];
    forall t | 0 <= t < m ensures piece[t] == slice[t] {
      assert (o + t) / 1024 == o / 1024 && (o + t) % 1024 == o % 1024 + t;
    }
  }

  function Min(a: int, b: int): (r: int) {
    if a < b then a else b
  }

  lemma JoinSlices(s: seq<Byte>, a: int, b: int, c: int)
    requires 0 <= a <= b <= c <= |s|
    ensures s[a..b] + s[b..c] == s[a..c]
  {
  }

  // ----- writing bytes

  /** The file has a block for offset `o`. */
  ghost predicate Has(blk: seq<Block>, ip: Inode, o: int) {
    |ip.addrs| == NDIRECT + 1 && 0 <= o < MAXFILE * BSIZE && Ref(blk, ip, SlotOf(o / 1024)) != 0
  }

  /** From the first state to the second, exactly `bytes` were put at `off`: every offset that had a
      block keeps its byte unless it was written, and written offsets have blocks. */
  ghost predicate Wrote(blk: seq<Block>, ip: Inode, blk': seq<Block>, ip': Inode, off: int, bytes: seq<Byte>)
    requires |ip.addrs| == |ip'.addrs| == NDIRECT + 1
  {
    && 0 <= off && off + |bytes| <= MAXFILE * BSIZE
    && forall o {:trigger Has(blk', ip', o)} {:trigger Has(blk, ip, o)} ::
         0 <= o < MAXFILE * BSIZE && (Has(blk, ip, o) || off <= o < off + |bytes|) ==>
         Has(blk', ip', o) && ByteAt(blk', ip', o) == if off <= o < off + |bytes| then bytes[o - off]
             else ByteAt(blk, ip, o)
  }

  lemma WroteTrans(blk: seq<Block>, ip: Inode, blk1: seq<Block>, ip1: Inode, blk2: seq<Block>, ip2: Inode,
                   off: int, a: seq<Byte>, b: seq<Byte>)
    requires |ip.addrs| == |ip1.addrs| == |ip2.addrs| == NDIRECT + 1
    requires Wrote(blk, ip, blk1, ip1, off, a) && Wrote(blk1, ip1, blk2, ip2, off + |a|, b)
    ensures Wrote(blk, ip, blk2, ip2, off, a + b)
  {
    forall o | 0 <= o < MAXFILE * BSIZE && (Has(blk, ip, o) || off <= o < off + |a + b|)
      ensures Has(blk2, ip2, o)
      ensures ByteAt(blk2, ip2, o) == if off <= o < off + |a + b| then (a + b)[o - off] else ByteAt(blk, ip, o)
    {
      assert Has(blk, ip, o) || off <= o < off + |a| ==> Has(blk1, ip1, o);
      assert Has(blk1, ip1, o) || off + |a| <= o < off + |a| + |b| ==> Has(blk2, ip2, o);
    }
  }

  /** Getting blocks writes nothing. */
  lemma GrewWrote(g: Super, held: set<int>, blk: seq<Block>, inodes: seq<Inode>, owner: map<int, Slot>,
                  blk': seq<Block>, inodes': seq<Inode>, owner': map<int, Slot>, i: int, off: int)
    requires FsOk(g, blk, inodes, owner, held) && FsOk(g, blk', inodes', owner', held)
    requires Grew(blk, inodes, owner, blk', inodes', owner', i) && 0 <= off <= MAXFILE * BSIZE
    ensures Wrote(blk, inodes[i], blk', inodes'[i], off, [])
  {
    forall o | Has(blk, inodes[i], o)
      ensures Has(blk', inodes'[i], o) && ByteAt(blk', inodes'[i], o) == ByteAt(blk, inodes[i], o)
    {
      GrewKeepsRefs(g, blk, inodes, owner, held, blk', inodes', owner', held, i, i, SlotOf(o / 1024));
    }
  }

  function Overwrite(b: Block, r: int, piece: seq<Byte>): (b': Block)
    requires 0 <= r && r + |piece| <= BSIZE
  {
    b[..r] + piece + b[r + |piece|..]
  }

  /** Overwriting part of the block that holds offset `off` of file `i`. */
  lemma PieceWrote(g: Super, held: set<int>, blk: seq<Block>, inodes: seq<Inode>, owner: map<int, Slot>, i: int,
                   off: int, piece: seq<Byte>, addr: int)
    requires FsOk(g, blk, inodes, owner, held) && 0 <= i < |inodes| && 0 <= off && off + |piece| <= MAXFILE * BSIZE
    requires 0 < |piece| && off % 1024 + |piece| <= 1024 && addr == Ref(blk, inodes[i], SlotOf(off / 1024)) && addr != 0
    ensures addr in owner && owner[addr] == Slot(i, SlotOf(off / 1024)) && g.nmeta <= addr < g.size
    ensures var blk' := blk[addr := Overwrite(blk[addr], off % 1024, piece)];
            && FsOk(g, blk', inodes, owner, held)
            && Wrote(blk, inodes[i], blk', inodes[i], off, piece)
  {
    assert addr in owner && owner[addr] == Slot(i, SlotOf(off / 1024));
    var b := Overwrite(blk[addr], off % 1024, piece);
    var blk' := blk[addr := b];
    DataWriteKeeps(g, blk, inodes, owner, held, addr, b);
    forall o | 0 <= o < MAXFILE * BSIZE && (Has(blk, inodes[i], o) || off <= o < off + |piece|)
      ensures Has(blk', inodes[i], o)
      ensures ByteAt(blk', inodes[i], o) == if off <= o < off + |piece| then piece[o - off]
              else ByteAt(blk, inodes[i], o)
    {
      assert off <= o < off + |piece| ==> o / 1024 == off / 1024 && o % 1024 == off % 1024 + (o - off);
      var a := Ref(blk, inodes[i], SlotOf(o / 1024));
      assert Ref(blk', inodes[i], SlotOf(o / 1024)) == a;
      assert a in owner && owner[a] == Slot(i, SlotOf(o / 1024));
      assert a == addr ==> o / 1024 == off / 1024;
    }
  }

  /** A write to a block of file `i` is not seen in any other file. */
  lemma PieceElsewhere(g: Super, held: set<int>, blk: seq<Block>, inodes: seq<Inode>, owner: map<int, Slot>, i: int,
                       addr: int, b: Block, j: int)
    requires FsOk(g, blk, inodes, owner, held) && addr in owner && owner[addr].inum == i && owner[addr].k != NDIRECT
    requires 0 <= j < |inodes| && j != i
    ensures File(blk[addr := b], inodes[j]) == File(blk, inodes[j])
  {
    var blk' := blk[addr := b];
    assert NoHoles(blk, inodes[j]);
    assert Ref(blk, inodes[j], NDIRECT) == inodes[j].addrs[NDIRECT];
    forall bn | 0 <= bn < MAXFILE && bn * 1024 < inodes[j].size
      ensures var a := Ref(blk, inodes[j], SlotOf(bn));
              Ref(blk', inodes[j], SlotOf(bn)) == a && (0 <= a < |blk| ==> blk'[a] == blk[a])
    {
      var a := Ref(blk, inodes[j], SlotOf(bn));
      assert a in owner && owner[a] == Slot(j, SlotOf(bn));
      SameRefs(blk, blk', inodes[j], SlotOf(bn));
    }
    SameFile(blk, blk', inodes[j], inodes[j]);
  }

  /** A byte sequence with `bytes` put at `off`, which is at most its length. */
  function Patch(f: seq<Byte>, off: int, bytes: seq<Byte>): (r: seq<Byte>)
    requires 0 <= off <= |f|
  {
    f[..off] + bytes + (if off + |bytes| < |f| then f[off + |bytes|..] else [])
  }

  function Max(a: int, b: int): (r: int) {
    if a < b then b else a
  }

  /** Once the size is brought up to date, the file is the patched byte sequence. */
  lemma WrotePatches(blk: seq<Block>, ip: Inode, blk': seq<Block>, ip': Inode, off: int, bytes: seq<Byte>)
    requires |ip.addrs| == |ip'.addrs| == NDIRECT + 1 && NoHoles(blk, ip) && off <= ip.size
    requires Wrote(blk, ip, blk', ip', off, bytes)
    ensures NoHoles(blk', ip'.(size := Max(ip.size, off + |bytes|)))
    ensures File(blk', ip'.(size := Max(ip.size, off + |bytes|))) == Patch(File(blk, ip), off, bytes)
  {
    var ip2 := ip'.(size := Max(ip.size, off + |bytes|));
    forall bn | 0 <= bn < MAXFILE && bn * 1024 < ip2.size ensures Ref(blk', ip2, SlotOf(bn)) != 0 {
      var o := bn * 1024;
      assert o / 1024 == bn;
      assert Has(blk, ip, o) || off <= o < off + |bytes|;
      assert Has(blk', ip', o);
      assert Ref(blk', ip2, SlotOf(bn)) == Ref(blk', ip', SlotOf(bn));
    }
    var f, p := File(blk', ip2), Patch(File(blk, ip), off, bytes);
    forall o | 0 <= o < ip2.size ensures f[o] == p[o] {
      assert o / 1024 * 1024 <= o && SlotOf(o / 1024) >= 0;
      assert Has(blk, ip, o) || off <= o < off + |bytes|;
      assert ByteAt(blk', ip2, o) == ByteAt(blk', ip', o);
    }
  }

  // ----- how many blocks a write can dirty

  /** The number of blocks that `n` bytes at `off` touch. */
  function Span(off: int, n: int): (r: int)
    requires 0 <= off
  {
    if n <= 0 then 0 else (off % 1024 + n + 1023) / 1024
  }

  /** Writing up to a block boundary, or to the end, touches one more block. */
  lemma SpanNext(off: int, tot: int, m: int, n: int)
    requires 0 <= off && 0 <= tot < n && AtBoundary(off, tot, n) && m == Min(n - tot, 1024 - (off + tot) % 1024)
    ensures 0 < m <= n - tot && (off + tot) % 1024 + m <= 1024
    ensures Span(off, tot + m) == Span(off, tot) + 1 <= Span(off, n)
    ensures AtBoundary(off, tot + m, n)
  {
    var x := off % 1024 + tot;
    SameInBlock(off, tot);
    NextBlock(x, m);
    if tot > 0 {
      WholeBlocks(x);
    }
    MoreBlocks(x + m, off % 1024 + n);
    if tot + m < n {
      assert off + (tot + m) == (off + tot) + m;
      EndOfBlock(off + tot);
    }
  }

  lemma SameInBlock(off: int, tot: int)
    requires 0 <= off && 0 <= tot
    ensures (off % 1024 + tot) % 1024 == (off + tot) % 1024
  {
  }

  lemma NextBlock(x: int, m: int)
    requires 0 <= x && 0 < m <= 1024 - x % 1024
    ensures (x + m + 1023) / 1024 == x / 1024 + 1
  {
  }

  lemma WholeBlocks(x: int)
    requires 0 <= x && x % 1024 == 0
    ensures (x + 1023) / 1024 == x / 1024
  {
  }

  lemma MoreBlocks(x: int, y: int)
    requires 0 <= x <= y
    ensures (x + 1023) / 1024 <= (y + 1023) / 1024
  {
  }

  lemma EndOfBlock(x: int)
    requires 0 <= x
    ensures (x + (1024 - x % 1024)) % 1024 == 0
  {
  }

  predicate AtBoundary(off: int, tot: int, n: int) {
    tot == 0 || tot == n || (off + tot) % 1024 == 0
  }

  /** The blocks logged since `before`: data blocks, bitmap blocks and the indirect block `ind`.
      Every touched block costs at most one bitmap block, except that a write starting inside a block
      finds that block mapped; a new indirect block costs one more. */
  ghost predicate Tally(before: set<int>, after: set<int>, data: set<int>, bits: set<int>, span: int, unaligned: bool,
                        ind0: int, ind: int) {
    && after <= before + bits + data + NonZero(ind)
    && (ind0 != 0 ==> ind == ind0)
    && 0 <= span && |data| <= span
    && |bits| <= span - (if unaligned && span > 0 then 1 else 0) + (if ind0 == 0 && ind != 0 then 1 else 0)
  }

  lemma TallyNext(before: set<int>, d1: set<int>, d2: set<int>, data: set<int>, bits: set<int>, span: int,
                  unaligned: bool,
                  ind0: int, ind1: int, ind2: int, b: set<int>, addr: int)
    requires Tally(before, d1, data, bits, span, unaligned, ind0, ind1)
    requires d2 <= d1 + b + {addr} + NonZero(ind2) && (ind1 != 0 ==> ind2 == ind1)
    requires |b| <= if ind1 == 0 && ind2 != 0 then 2 else 1
    requires span == 0 && unaligned ==> b == {} && ind2 == ind1
    ensures Tally(before, d2, data + {addr}, bits + b, span + 1, unaligned, ind0, ind2)
  {
    UnionSize(data, {addr});
    UnionSize(bits, b);
  }

  /** A write that starts inside a block starts in one that the file already has. */
  lemma UnalignedIsMapped(g: Super, blk: seq<Block>, inodes: seq<Inode>, owner: map<int, Slot>, held: set<int>, i: int,
                          off: int)
    requires FsOk(g, blk, inodes, owner, held) && 0 <= i < |inodes| && 0 <= off <= inodes[i].size && off % 1024 != 0
    ensures Has(blk, inodes[i], off)
  {
    assert NoHoles(blk, inodes[i]);
    assert off / 1024 * 1024 < off && SlotOf(off / 1024) >= 0;
  }

  lemma UnionSize<T>(a: set<T>, b: set<T>)
    ensures |a + b| <= |a| + |b|
  {
    assert a + b == a + (b - a);
    SubsetSize(b - a, b);
  }

  lemma {:induction false} SubsetSize<T>(a: set<T>, b: set<T>)
    requires a <= b
    ensures |a| <= |b|
  {
    if a != {} {
      var x :| x in a;
      SubsetSize(a - {x}, b - {x});
    }
  }

  /** Data blocks, bitmap blocks, the indirect block and the inode block. */
  lemma DirtySize(before: set<int>, after: set<int>, bits: set<int>, data: set<int>, ind: int, inodeBlock: int)
    requires after <= before + bits + data + NonZero(ind) + {inodeBlock}
    ensures |after - before| <= |bits| + |data| + 2
  {
    SubsetSize(after - before, bits + data + NonZero(ind) + {inodeBlock});
    UnionSize(bits, data);
    UnionSize(bits + data, NonZero(ind));
    UnionSize(bits + data + NonZero(ind), {inodeBlock});
  }

  /** Every file but `i` has the same inode and the same bytes. */
  ghost predicate OthersKept(blk: seq<Block>, inodes: seq<Inode>, blk': seq<Block>, inodes': seq<Inode>, i: int) {
    && |inodes'| == |inodes|
    && forall j :: 0 <= j < |inodes| && j != i ==>
         && inodes'[j] == inodes[j] && |inodes[j].addrs| == NDIRECT + 1 && 0 <= inodes[j].size <= MAXFILE * BSIZE
         && File(blk', inodes[j]) == File(blk, inodes[j])
  }

  lemma ExtendedKept(blk0: seq<Block>, inodes0: seq<Inode>, blk1: seq<Block>, inodes1: seq<Inode>, blk2: seq<Block>,
                     inodes2: seq<Inode>, i: int)
    requires OthersKept(blk0, inodes0, blk1, inodes1, i) && 0 <= i < |inodes1| == |inodes2|
             && inodes2 == inodes1[i := inodes2[i]]
    requires forall j ::
               0 <= j < |inodes2| ==>
                   |inodes2[j].addrs| == NDIRECT + 1 && 0 <= inodes2[j].size <= MAXFILE * BSIZE
                       && File(blk2, inodes2[j]) == File(blk1, inodes2[j])
    ensures OthersKept(blk0, inodes0, blk2, inodes2, i)
  {
  }

  lemma AllKept(blk: seq<Block>, inodes: seq<Inode>, i: int)
    requires forall j ::
               0 <= j < |inodes| ==> |inodes[j].addrs| == NDIRECT + 1 && 0 <= inodes[j].size <= MAXFILE * BSIZE
    ensures OthersKept(blk, inodes, blk, inodes, i)
  {
  }

  /** What writei has done after some bytes: exactly those are written, and no other file has changed. */
  ghost predicate Written(g: Super, held: set<int>, blk0: seq<Block>, inodes0: seq<Inode>, blk: seq<Block>,
                          inodes: seq<Inode>, owner: map<int, Slot>,
                          i: int, off: int, bytes: seq<Byte>)
  {
    && FsOk(g, blk, inodes, owner, held)
    && 0 <= i < |inodes| && |inodes0| == |inodes| && |inodes0[i].addrs| == |inodes[i].addrs| == NDIRECT + 1
    && inodes[i].size == inodes0[i].size
    && OthersKept(blk0, inodes0, blk, inodes, i)
    && Wrote(blk0, inodes0[i], blk, inodes[i], off, bytes)
  }

  lemma WrittenTrans(g: Super, held: set<int>, blk0: seq<Block>, inodes0: seq<Inode>, blk1: seq<Block>,
                     inodes1: seq<Inode>, owner1: map<int, Slot>,
                     blk2: seq<Block>, inodes2: seq<Inode>, owner2: map<int, Slot>, i: int, off: int, a: seq<Byte>,
                     b: seq<Byte>)
    requires Written(g, held, blk0, inodes0, blk1, inodes1, owner1, i, off, a)
    requires Written(g, held, blk1, inodes1, blk2, inodes2, owner2, i, off + |a|, b)
    ensures Written(g, held, blk0, inodes0, blk2, inodes2, owner2, i, off, a + b)
  {
    hide FsOk;
    WroteTrans(blk0, inodes0[i], blk1, inodes1[i], blk2, inodes2[i], off, a, b);
  }

  lemma WrittenNothing(g: Super, held: set<int>, blk: seq<Block>, inodes: seq<Inode>, owner: map<int, Slot>, i: int,
                       off: int)
    requires FsOk(g, blk, inodes, owner, held) && 0 <= i < |inodes| && 0 <= off <= MAXFILE * BSIZE
    ensures Written(g, held, blk, inodes, blk, inodes, owner, i, off, [])
  {
  }

  /** Allocating blocks for a file writes nothing into it or any other. */
  lemma GrewWritten(g: Super, held: set<int>, blk: seq<Block>, inodes: seq<Inode>, owner: map<int, Slot>,
                    blk': seq<Block>, inodes': seq<Inode>, owner': map<int, Slot>, i: int, off: int)
    requires FsOk(g, blk, inodes, owner, held) && FsOk(g, blk', inodes', owner', held) && 0 <= i < |inodes|
    requires Grew(blk, inodes, owner, blk', inodes', owner', i) && 0 <= off <= MAXFILE * BSIZE
    ensures Written(g, held, blk, inodes, blk', inodes', owner', i, off, [])
  {
    GrewWrote(g, held, blk, inodes, owner, blk', inodes', owner', i, off);
    forall j | 0 <= j < |inodes| && j != i ensures File(blk', inodes[j]) == File(blk, inodes[j]) {
      GrewKeepsFiles(g, blk, inodes, owner, held, blk', inodes', owner', held, i, j);
    }
  }

  /** Overwriting part of a file's own block writes exactly that part. */
  lemma PieceWritten(g: Super, held: set<int>, blk: seq<Block>, inodes: seq<Inode>, owner: map<int, Slot>, i: int,
                     off: int, piece: seq<Byte>, a: int)
    requires FsOk(g, blk, inodes, owner, held) && 0 <= i < |inodes| && 0 <= off && off + |piece| <= MAXFILE * BSIZE
    requires 0 < |piece| && off % 1024 + |piece| <= 1024 && a in owner && owner[a] == Slot(i, SlotOf(off / 1024))
             && 0 <= a < |blk|
    ensures Written(g, held, blk, inodes, blk[a := Overwrite(blk[a], off % 1024, piece)], inodes, owner, i, off, piece)
  {
    PieceWrote(g, held, blk, inodes, owner, i, off, piece, a);
    var b := Overwrite(blk[a], off % 1024, piece);
    forall j | 0 <= j < |inodes| && j != i ensures File(blk[a := b], inodes[j]) == File(blk, inodes[j]) {
      PieceElsewhere(g, held, blk, inodes, owner, i, a, b, j);
    }
  }

  /** What writei's loop leaves, given the new size: the patched file. */
  lemma WrittenPatches(g: Super, held: set<int>, blk0: seq<Block>, inodes0: seq<Inode>, owner0: map<int, Slot>,
                       blk: seq<Block>, inodes: seq<Inode>,
                       owner: map<int, Slot>, i: int, off: int, bytes: seq<Byte>)
    requires FsOk(g, blk0, inodes0, owner0, held) && Written(g, held, blk0, inodes0, blk, inodes, owner, i, off, bytes)
             && off <= inodes0[i].size
    ensures 0 <= inodes0[i].size <= MAXFILE * BSIZE
            && NoHoles(blk, inodes[i].(size := Max(inodes[i].size, off + |bytes|)))
    ensures File(blk, inodes[i].(size := Max(inodes[i].size, off + |bytes|)))
            == Patch(File(blk0, inodes0[i]), off, bytes)
  {
    WrotePatches(blk0, inodes0[i], blk, inodes[i], off, bytes);
  }

  /** The chunk bound: no more blocks than one operation has reserved. */
  lemma ChunkFits(before: set<int>, after: set<int>, data: set<int>, bits: set<int>, span: int, ind0: int, ind: int,
                  off: int, n: int, inodeBlock: int)
    requires Tally(before, after, data, bits, span, off % 1024 != 0, ind0, ind) && 0 <= off && 0 <= n <= 3072
             && span <= Span(off, n)
    ensures |after + {inodeBlock} - before| <= 10
  {
    DirtySize(before, after + {inodeBlock}, bits, data, ind, inodeBlock);
    assert span <= if off % 1024 != 0 then 4 else 3;
  }

  /** Two adjacent patches are one. */
  lemma PatchPatch(f: seq<Byte>, off: int, a: seq<Byte>, b: seq<Byte>)
    requires 0 <= off <= |f|
    ensures Patch(Patch(f, off, a), off + |a|, b) == Patch(f, off, a + b)
  {
  }

  lemma OthersKeptTrans(blk0: seq<Block>, inodes0: seq<Inode>, blk1: seq<Block>, inodes1: seq<Inode>, blk2: seq<Block>,
                        inodes2: seq<Inode>, i: int)
    requires OthersKept(blk0, inodes0, blk1, inodes1, i) && OthersKept(blk1, inodes1, blk2, inodes2, i)
    ensures OthersKept(blk0, inodes0, blk2, inodes2, i)
  {
  }

  /** filewrite so far: `bytes` are in the file from `off` on, if `off` is in the file at all. */
  ghost predicate Appended(g: Super, held: set<int>, blk0: seq<Block>, inodes0: seq<Inode>, blk: seq<Block>,
                           inodes: seq<Inode>, owner: map<int, Slot>,
                           i: int, off: int, bytes: seq<Byte>)
  {
    && FsOk(g, blk, inodes, owner, held)
    && 0 <= i < |inodes| && |inodes0| == |inodes| && |inodes0[i].addrs| == |inodes[i].addrs| == NDIRECT + 1
    && 0 <= inodes0[i].size <= MAXFILE * BSIZE && 0 <= inodes[i].size <= MAXFILE * BSIZE
    && OthersKept(blk0, inodes0, blk, inodes, i)
    && if 0 <= off <= inodes0[i].size then File(blk, inodes[i]) == Patch(File(blk0, inodes0[i]), off, bytes)
       else bytes == [] && File(blk, inodes[i]) == File(blk0, inodes0[i])
  }

  lemma NothingAppended(g: Super, held: set<int>, blk: seq<Block>, inodes: seq<Inode>, owner: map<int, Slot>, i: int,
                        off: int, src: seq<Byte>)
    requires FsOk(g, blk, inodes, owner, held) && 0 <= i < |inodes|
    ensures Appended(g, held, blk, inodes, blk, inodes, owner, i, off, src[..0])
  {
    assert src[..0] == [];
    assert NoHoles(blk, inodes[i]);
  }

  // ----- runs of calls against plain byte sequences

  datatype Call = ReadCall(i: int, off: int, n: int) | WriteCall(i: int, off: int, src: seq<Byte>) | TruncCall(i: int)

  /** What a call returned: the bytes read, or the count written. */
  datatype Answer = Got(bytes: seq<Byte>) | Count(n: int)

  predicate InRange(c: Call, n: int) {
    && 0 <= c.i < n
    && (c.ReadCall? ==> 0 <= c.off < 0x1_0000_0000 && 0 <= c.n < 0x1_0000_0000)
    && (c.WriteCall? ==> 0 <= c.off < 0x1_0000_0000 && |c.src| < 0x1_0000_0000)
  }

  /** The answers that are right for these files. */
  ghost predicate Right(files: seq<seq<Byte>>, c: Call, a: Answer)
    requires InRange(c, |files|)
  {
    match c
    case ReadCall(i, off, n) =>
      a == Got(if off > |files[i]| || off + n >= 0x1_0000_0000 then [] else files[i][off..Min(off + n, |files[i]|)])
    case WriteCall(i, off, src) =>
      a.Count? && (if off > |files[i]| || off + |src| > MAXFILE * BSIZE then a.n == -1 else 0 <= a.n <= |src|)
    case TruncCall(i) => a == Count(0)
  }

  /** The files after a call with this answer. */
  ghost function After(files: seq<seq<Byte>>, c: Call, a: Answer): (r: seq<seq<Byte>>)
    requires InRange(c, |files|) && Right(files, c, a)
    ensures |r| == |files|
  {
    match c
    case ReadCall(_, _, _) => files
    case WriteCall(i, off, src) => if a.n < 0 then files else files[i := Patch(files[i], off, src[..a.n])]
    case TruncCall(i) => files[i := []]
  }

  ghost function Files(blk: seq<Block>, inodes: seq<Inode>): (r: seq<seq<Byte>>)
    requires Bounded(inodes)
    ensures |r| == |inodes|
  {
    seq(|inodes|, j requires 0 <= j < |inodes| => File(blk, inodes[j]))
  }

  lemma FilesDefined(g: Super, held: set<int>, blk: seq<Block>, inodes: seq<Inode>, owner: map<int, Slot>)
    requires FsOk(g, blk, inodes, owner, held)
    ensures Bounded(inodes)
  {
    forall j | 0 <= j < |inodes| ensures 0 <= inodes[j].size <= MAXFILE * BSIZE {
      assert NoHoles(blk, inodes[j]);
    }
  }

  /** One file changed. */
  lemma FilesAfter(blk: seq<Block>, inodes: seq<Inode>, blk': seq<Block>, inodes': seq<Inode>, i: int, f: seq<Byte>)
    requires Bounded(inodes) && Bounded(inodes')
    requires OthersKept(blk, inodes, blk', inodes', i) && 0 <= i < |inodes| && File(blk', inodes'[i]) == f
    ensures Files(blk', inodes') == Files(blk, inodes)[i := f]
  {
  }

  /** All there is between two calls. */
  datatype Image = Image(blk: seq<Block>, inodes: seq<Inode>, owner: map<int, Slot>)

  ghost predicate Bounded(inodes: seq<Inode>) {
    forall j :: 0 <= j < |inodes| ==> |inodes[j].addrs| == NDIRECT + 1 && 0 <= inodes[j].size <= MAXFILE * BSIZE
  }

  /** The call took `s` to `t` with this answer: the files are those of plain byte sequences, the block map
      is right before and after, and a write fell short only because no block was left. */
  ghost predicate Served(g: Super, held: set<int>, s: Image, c: Call, a: Answer, t: Image) {
    && FsOk(g, s.blk, s.inodes, s.owner, held) && FsOk(g, t.blk, t.inodes, t.owner, held)
    && Bounded(s.inodes) && Bounded(t.inodes) && InRange(c, |s.inodes|)
    && Right(Files(s.blk, s.inodes), c, a) && Files(t.blk, t.inodes) == After(Files(s.blk, s.inodes), c, a)
    && (c.WriteCall? && 0 <= a.n < |c.src| ==> DiskFull(g, t.blk))
  }

  /** A run: each call takes one image to the next. */
  ghost predicate Serves(g: Super, held: set<int>, trace: seq<Image>, calls: seq<Call>, answers: seq<Answer>) {
    && |trace| == |calls| + 1 && |answers| == |calls|
    && forall k :: 0 <= k < |calls| ==> Served(g, held, trace[k], calls[k], answers[k], trace[k + 1])
  }

  lemma ServesOn(g: Super, held: set<int>, trace: seq<Image>, calls: seq<Call>, answers: seq<Answer>, c: Call,
                 a: Answer, t: Image)
    requires Serves(g, held, trace, calls, answers) && Served(g, held, trace[|calls|], c, a, t)
    ensures Serves(g, held, trace + [t], calls + [c], answers + [a])
  {
    hide Served;
  }

  // ----- an empty file system

  const SMALL: Super := Super(16, 16, 2, 4, 8)

  function FirstByteSet(): (b: Block) {
    [255] + seq(1023, i => 0)
  }

  function EmptyBlock(x: int): (b: Block) {
    if x == 4 then FirstByteSet() else Zeros()
  }

  function EmptyBlocks(): (r: seq<Block>) {
    seq(16, x => EmptyBlock(x))
  }

  /** There are disks that satisfy the invariant: one with eight metadata blocks, and empty files. */
  lemma {:induction false} EmptyDiskOk()
    ensures FsOk(SMALL, EmptyBlocks(), seq(16, i => Inode(0, seq(NDIRECT + 1, k => 0))), map[], {})
  {
    var blk, inodes := EmptyBlocks(), seq(16, i => Inode(0, seq(NDIRECT + 1, k => 0)));
    hide Bit, Zeros, FirstByteSet;
    forall x | 0 <= x < 16 ensures Marked(SMALL, blk, x) <==> x < 8 {
      assert BitBlock(SMALL, x) == 4 && x % 8192 == x && blk[4] == FirstByteSet();
      FirstByteBit(x);
    }
    forall i, k | 0 <= i < 16 && 0 <= k < NSLOT ensures Ref(blk, inodes[i], k) == 0 {
    }
  }

  lemma FirstByteBit(x: int)
    requires 0 <= x < 16
    ensures Bit(FirstByteSet(), x) <==> x < 8
  {
    if x < 8 {
      assert Pow2(4) == 16 && Pow2(8) == 256;
      OnesBit(255, x, 8);
      assert x / 8 == 0 && FirstByteSet()[0] == 255;
    } else {
      ZeroBit(x % 8);
      assert x / 8 == 1 && FirstByteSet()[1] == 0;
    }
  }

  lemma {:induction false} OnesBit(v: nat, m: nat, n: nat)
    requires v == Pow2(n) - 1 && m < n
    ensures BitOf(v, m)
  {
    if m > 0 {
      assert v / 2 == Pow2(n - 1) - 1;
      OnesBit(v / 2, m - 1, n - 1);
    }
  }

  lemma {:induction false} ZeroBit(m: nat)
    ensures !BitOf(0, m)
  {
    if m > 0 {
      ZeroBit(m - 1);
    }
  }

  /** What writei did to the file, on top of what filewrite had done before. */
  lemma AppendedNext(g: Super, held: set<int>, blk0: seq<Block>, inodes0: seq<Inode>, blk1: seq<Block>,
                     inodes1: seq<Inode>, owner1: map<int, Slot>,
                     blk2: seq<Block>, inodes2: seq<Inode>, owner2: map<int, Slot>, i: int, off: int, a: seq<Byte>,
                     b: seq<Byte>)
    requires Appended(g, held, blk0, inodes0, blk1, inodes1, owner1, i, off, a) && FsOk(g, blk2, inodes2, owner2, held)
             && |inodes2| == |inodes1|
    requires OthersKept(blk1, inodes1, blk2, inodes2, i) && |inodes2[i].addrs| == NDIRECT + 1
             && 0 <= inodes2[i].size <= MAXFILE * BSIZE
    requires 0 <= off + |a| <= inodes1[i].size && 0 <= off
             && File(blk2, inodes2[i]) == Patch(File(blk1, inodes1[i]), off + |a|, b)
    requires off <= inodes0[i].size
    ensures Appended(g, held, blk0, inodes0, blk2, inodes2, owner2, i, off, a + b)
  {
    hide FsOk;
    OthersKeptTrans(blk0, inodes0, blk1, inodes1, blk2, inodes2, i);
    PatchPatch(File(blk0, inodes0[i]), off, a, b);
  }

  lemma AppendedAt(g: Super, held: set<int>, blk0: seq<Block>, inodes0: seq<Inode>, blk: seq<Block>, inodes: seq<Inode>,
                   owner: map<int, Slot>,
                   i: int, off: int, bytes: seq<Byte>)
    requires Appended(g, held, blk0, inodes0, blk, inodes, owner, i, off, bytes) && 0 <= off
    ensures FsOk(g, blk, inodes, owner, held) && 0 <= i < |inodes| == |inodes0| && |inodes[i].addrs| == NDIRECT + 1
            && 0 <= inodes[i].size <= MAXFILE * BSIZE
    ensures if off <= inodes0[i].size then off + |bytes| <= inodes[i].size
            else bytes == [] && inodes[i].size == inodes0[i].size
  {
    hide FsOk, OthersKept;
  }

  lemma PrefixGrows<T>(src: seq<T>, at: int, n: int, r: int)
    requires 0 <= at && 0 <= r <= n && at + n <= |src|
    ensures src[..at] + src[at..at + n][..r] == src[..at + r]
  {
  }

  // ----- whole steps of the calls, as values

  /** The sizes of things, and that files are within bounds. */
  lemma Sizes(g: Super, blk: seq<Block>, inodes: seq<Inode>, owner: map<int, Slot>, held: set<int>)
    requires FsOk(g, blk, inodes, owner, held)
    ensures Layout(g) && |blk| == g.size && |inodes| == g.ninodes
    ensures forall j :: 0 <= j < |inodes| ==> |inodes[j].addrs| == NDIRECT + 1 && 0 <= inodes[j].size <= MAXFILE * BSIZE
  {
    FilesDefined(g, held, blk, inodes, owner);
  }

  lemma NamedByTable(g: Super, blk: seq<Block>, inodes: seq<Inode>, owner: map<int, Slot>, held: set<int>, i: int,
                     bn: int, x: int)
    requires FsOk(g, blk, inodes, owner, held) && 0 <= i < |inodes| && NDIRECT <= bn < MAXFILE
             && |inodes[i].addrs| == 13
    requires x in owner && owner[x] == Slot(i, SlotOf(bn)) && x != 0
    ensures 0 < inodes[i].addrs[12] < |blk| && Word(blk[inodes[i].addrs[12]], bn - 12) == x
  {
    hide Mapped, AllFilled, Word;
    assert Ref(blk, inodes[i], SlotOf(bn)) == x;
  }

  /** Allocating touches no block that anyone owns. */
  lemma AllocApart(g: Super, blk: seq<Block>, inodes: seq<Inode>, owner: map<int, Slot>, held: set<int>, x: int)
    requires FsOk(g, blk, inodes, owner, held) && 0 <= x < g.size && !Marked(g, blk, x)
    ensures forall y :: y in owner ==> 0 <= y < |blk| && y != x && AfterAlloc(g, blk, x)[y] == blk[y]
    ensures AfterAlloc(g, blk, x)[x] == Zeros() && x != 0
  {
  }

  /** A free block becomes the one in an empty slot of the inode itself. */
  lemma DirectTaken(g: Super, blk: seq<Block>, inodes: seq<Inode>, owner: map<int, Slot>, held: set<int>, i: int,
                    k: int, x: int)
    requires FsOk(g, blk, inodes, owner, held) && 0 <= x < g.size && !Marked(g, blk, x)
    requires 0 <= i < |inodes| && 0 <= k <= NDIRECT && inodes[i].addrs[k] == 0
    ensures var blk', inodes', owner' := AfterAlloc(g, blk, x),
            inodes[i := inodes[i].(addrs := inodes[i].addrs[k := x])], owner[x := Slot(i, k)];
            FsOk(g, blk', inodes', owner', held) && Grew(blk, inodes, owner, blk', inodes', owner', i)
  {
    AllocKeeps(g, blk, inodes, owner, held, x);
    AllocApart(g, blk, inodes, owner, held, x);
    LinkDirectKeeps(g, AfterAlloc(g, blk, x), inodes, owner, held + {x}, i, k, x);
    assert held + {x} - {x} == held;
  }

  /** A free block becomes the one in an empty entry of the indirect block. */
  lemma EntryTaken(g: Super, blk: seq<Block>, inodes: seq<Inode>, owner: map<int, Slot>, held: set<int>, i: int, j: int,
                   x: int)
    requires FsOk(g, blk, inodes, owner, held) && 0 <= x < g.size && !Marked(g, blk, x)
    requires 0 <= i < |inodes| && 0 <= j < NINDIRECT && inodes[i].addrs[NDIRECT] != 0
             && Ref(blk, inodes[i], NDIRECT + 1 + j) == 0
    ensures var a := inodes[i].addrs[NDIRECT];
            && 0 <= a < g.size && a != x
            && var blk1 := AfterAlloc(g, blk, x);
            && var blk', owner' := blk1[a := PutWord(blk1[a], j, x)], owner[x := Slot(i, NDIRECT + 1 + j)];
            && FsOk(g, blk', inodes, owner', held) && Grew(blk, inodes, owner, blk', inodes, owner', i)
            && blk'[x] == Zeros()
  {
    var a := inodes[i].addrs[NDIRECT];
    assert Ref(blk, inodes[i], NDIRECT) == a && a in owner && owner[a] == Slot(i, NDIRECT);
    AllocKeeps(g, blk, inodes, owner, held, x);
    AllocApart(g, blk, inodes, owner, held, x);
    var blk1 := AfterAlloc(g, blk, x);
    LinkEntryKeeps(g, blk1, inodes, owner, held + {x}, i, j, x);
    assert held + {x} - {x} == held;
    EntryGrew(blk, blk1, inodes, owner, i, a, PutWord(blk1[a], j, x), x, NDIRECT + 1 + j);
  }

  lemma EntryGrew(blk: seq<Block>, blk1: seq<Block>, inodes: seq<Inode>, owner: map<int, Slot>, i: int, a: int,
                  b: Block, x: int, k: int)
    requires 0 <= i < |inodes| && |blk1| == |blk| && 0 <= a < |blk| && a in owner && owner[a] == Slot(i, NDIRECT)
             && x !in owner
    requires forall y :: y in owner ==> 0 <= y < |blk| && blk1[y] == blk[y]
    ensures Grew(blk, inodes, owner, blk1[a := b], inodes, owner[x := Slot(i, k)], i)
  {
  }

  /** bfree changes a bitmap block only. */
  lemma FreeApart(g: Super, blk: seq<Block>, x: int)
    requires Layout(g) && |blk| == g.size && 0 <= x < g.size
    ensures forall y :: 0 <= y < |blk| && !InBitmap(g, y) ==> AfterFree(g, blk, x)[y] == blk[y]
  {
  }

  /** The block in a direct slot of a truncated inode is taken out and freed. */
  lemma SlotFreed(g: Super, blk: seq<Block>, view: seq<Inode>, owner: map<int, Slot>, held: set<int>, i: int, k: int)
    requires FsOk(g, blk, view, owner, held) && 0 <= i < |view| && 0 <= k < NDIRECT && view[i].size == 0
             && view[i].addrs[k] != 0
    ensures var x := view[i].addrs[k];
            && x in owner && owner[x] == Slot(i, k) && 0 < x < g.size && x !in held
            && FsOk(g, blk, view[i := view[i].(addrs := view[i].addrs[k := 0])], owner - {x}, held + {x})
            && (forall y :: y in owner && owner[y] == Slot(i, k) ==> y == x)
  {
    var x := view[i].addrs[k];
    UnlinkDirectKeeps(g, blk, view, owner, held, i, k);
    forall y | y in owner && owner[y] == Slot(i, k) ensures y == x {
      assert Ref(blk, view[i], k) == y;
    }
  }

  /** The indirect block of a truncated inode and what it lists are taken out. */
  lemma IndirectGone(g: Super, blk: seq<Block>, view: seq<Inode>, owner: map<int, Slot>, held: set<int>, i: int)
    requires FsOk(g, blk, view, owner, held) && 0 <= i < |view| && view[i].size == 0 && view[i].addrs[NDIRECT] != 0
    ensures var a, gone := view[i].addrs[NDIRECT], IndirectBlocks(owner, i);
            && 0 < a < |blk| && !InBitmap(g, a) && a in gone && held !! gone && Lists(blk[a], a, owner, gone)
            && FsOk(g, blk, view[i := view[i].(addrs := view[i].addrs[NDIRECT := 0])], owner - gone, held + gone)
  {
    IndirectBlocksListed(g, blk, view, owner, held, i);
    DetachIndirectKeeps(g, blk, view, owner, held, i);
    forall x | x in held ensures x !in IndirectBlocks(owner, i) {
      assert x !in owner;
    }
  }

  /** Nothing has changed. */
  lemma GrewNot(blk: seq<Block>, inodes: seq<Inode>, owner: map<int, Slot>, i: int)
    requires 0 <= i < |inodes|
    ensures Grew(blk, inodes, owner, blk, inodes, owner, i)
  {
  }

  lemma SameSizes(blk: seq<Block>, inodes: seq<Inode>, owner: map<int, Slot>, blk': seq<Block>, inodes': seq<Inode>,
                  owner': map<int, Slot>, i: int)
    requires Grew(blk, inodes, owner, blk', inodes', owner', i)
    ensures |blk'| == |blk| && |inodes'| == |inodes| && inodes'[i].size == inodes[i].size
    ensures forall x :: x in owner ==> x in owner' && owner'[x] == owner[x]
  {
  }

  /** A block number in a slot is owned by that slot. */
  lemma SlotOwned(g: Super, blk: seq<Block>, inodes: seq<Inode>, owner: map<int, Slot>, held: set<int>, i: int, k: int)
    requires FsOk(g, blk, inodes, owner, held) && 0 <= i < |inodes| && 0 <= k < NSLOT && Ref(blk, inodes[i], k) != 0
    ensures var x := Ref(blk, inodes[i], k); x in owner && owner[x] == Slot(i, k) && 0 < x < |blk|
  {
  }

  /** A block that encodes inode `i` besides the other fifteen. */
  lemma InodeEncoded(g: Super, blk: seq<Block>, b: Block, i: int, ip: Inode)
    requires Layout(g) && |blk| == g.size && 0 <= i < g.ninodes && |ip.addrs| == NDIRECT + 1
    requires var w := i % 16 * 16;
             && Word(b, w + 2) == ip.size && (forall j :: 0 <= j <= NDIRECT ==> Word(b, w + 3 + j) == ip.addrs[j])
             && forall j {:trigger Word(b, j)} ::
                  0 <= j < NINDIRECT && !(w + 2 <= j < w + 16) ==> Word(b, j) == Word(blk[InodeBlock(g, i)], j)
    ensures forall j :: 0 <= j < g.ninodes ==>
              DiskInode(g, blk[InodeBlock(g, i) := b], j) == if j == i then ip else DiskInode(g, blk, j)
  {
    hide Word;
    forall j | 0 <= j < g.ninodes
      ensures DiskInode(g, blk[InodeBlock(g, i) := b], j) == if j == i then ip else DiskInode(g, blk, j) {
      if j != i && j / 16 == i / 16 {
        assert j % 16 != i % 16;
      }
    }
  }

  ghost predicate BitmapOnly(g: Super, blk: seq<Block>, blk': seq<Block>) {
    |blk'| == |blk| && forall x :: 0 <= x < |blk| && !InBitmap(g, x) ==> blk'[x] == blk[x]
  }

  lemma BitmapOnlyNone(g: Super, blk: seq<Block>)
    ensures BitmapOnly(g, blk, blk)
  {
  }

  lemma BitmapOnlyTrans(g: Super, blk: seq<Block>, blk1: seq<Block>, blk2: seq<Block>)
    requires BitmapOnly(g, blk, blk1) && BitmapOnly(g, blk1, blk2)
    ensures BitmapOnly(g, blk, blk2)
  {
  }

  lemma OwnerFromNone(g: Super, blk: seq<Block>, inodes: seq<Inode>, owner: map<int, Slot>, held: set<int>, i: int)
    requires FsOk(g, blk, inodes, owner, held)
    ensures OwnerFrom(owner, i, 0) == owner
  {
    assert forall x :: x in owner ==> owner[x].k >= 0;
  }

  /** One slot less. */
  lemma OwnerFromOne(owner: map<int, Slot>, left: map<int, Slot>, i: int, k: int, gone: set<int>)
    requires left == OwnerFrom(owner, i, k) && (forall x :: x in left && left[x] == Slot(i, k) ==> x in gone)
    requires forall x :: x in gone ==> x in left && left[x] == Slot(i, k)
    ensures left - gone == OwnerFrom(owner, i, k + 1)
  {
    OwnerFromNext(owner, i, k, gone);
  }

  /** The block with a byte of the file. */
  lemma ByteHasBlock(g: Super, blk: seq<Block>, inodes: seq<Inode>, owner: map<int, Slot>, held: set<int>, i: int,
                     o: int)
    requires FsOk(g, blk, inodes, owner, held) && 0 <= i < |inodes| && 0 <= o < inodes[i].size
    ensures 0 <= o / 1024 < MAXFILE && Ref(blk, inodes[i], SlotOf(o / 1024)) != 0
  {
    assert NoHoles(blk, inodes[i]);
    assert o / 1024 * 1024 <= o && SlotOf(o / 1024) >= 0;
  }

  lemma EmptyFile(blk: seq<Block>, ip: Inode)
    requires |ip.addrs| == NDIRECT + 1 && ip.size == 0
    ensures File(blk, ip) == []
  {
  }

  lemma NothingToHold(blk: seq<Block>, ip: Inode)
    requires |ip.addrs| == NDIRECT + 1
    ensures NoHoles(blk, ip.(size := 0))
  {
  }

  /** After a truncation exactly the inode's blocks are no longer marked. */
  lemma TruncatedMarks(g: Super, blk0: seq<Block>, inodes0: seq<Inode>, owner0: map<int, Slot>, blk: seq<Block>,
                       inodes: seq<Inode>,
                       owner: map<int, Slot>, held: set<int>, i: int)
    requires FsOk(g, blk0, inodes0, owner0, held) && FsOk(g, blk, inodes, owner, held)
    requires owner == map x | x in owner0 && owner0[x].inum != i :: owner0[x]
    ensures forall x ::
              0 <= x < g.size ==> (Marked(g, blk, x) <==> Marked(g, blk0, x) && !(x in owner0 && owner0[x].inum == i))
  {
  }

  /** The other files are as they were: only bitmap blocks and one inode block have changed. */
  lemma TruncatedOthers(g: Super, blk0: seq<Block>, inodes0: seq<Inode>, owner0: map<int, Slot>, blk1: seq<Block>,
                        blk: seq<Block>,
                        inodes: seq<Inode>, held: set<int>, i: int)
    requires FsOk(g, blk0, inodes0, owner0, held) && BitmapOnly(g, blk0, blk1) && 0 <= i < |inodes0|
    requires |blk| == |blk1| && g.inodestart <= InodeBlock(g, i) < g.bmapstart && InodeBlock(g, i) < |blk|
             && blk == blk1[InodeBlock(g, i) := blk[InodeBlock(g, i)]]
    requires |inodes| == |inodes0| && forall j :: 0 <= j < |inodes| && j != i ==> inodes[j] == inodes0[j]
    ensures OthersKept(blk0, inodes0, blk, inodes, i)
  {
    Sizes(g, blk0, inodes0, owner0, held);
    forall j | 0 <= j < |inodes| && j != i ensures File(blk, inodes0[j]) == File(blk0, inodes0[j]) {
      UntouchedFile(g, held, blk0, inodes0, owner0, blk, j);
    }
  }
}
