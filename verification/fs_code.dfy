/** kernel/fs.c and the inode branch of filewrite in kernel/file.c, over the block contents that the
    open transaction sees. Inodes are their locked in-memory copies. */
module FsCode {
  import opened Param
  import opened FsFormat
  import opened FsModel

  class FileSystem {
    const g: Super
    var blk: seq<Block>
    var inodes: seq<Inode>
    ghost var owner: map<int, Slot>   // which slot holds each allocated data block
    ghost var dirtied: set<int>       // blocks logged since the operation began
    ghost var others: set<int>        // blocks in transit in other threads

    /** A disk image on which the invariant holds, with other threads inside calls of their own. For an
        inode that another thread is truncating, `files` has what is left of its block map. */
    constructor (image: Super, blocks: seq<Block>, files: seq<Inode>, ghost slots: map<int, Slot>,
                 ghost transit: set<int>)
      requires FsOk(image, blocks, files, slots, transit)
      ensures Ok() && g == image && blk == blocks && inodes == files && others == transit && dirtied == {}
    {
      g, blk, inodes, owner, others, dirtied := image, blocks, files, slots, transit, {};
    }

    ghost predicate Ok()
      reads this
    {
      FsOk(g, blk, inodes, owner, others)
    }

    /** modify a buffer, log_write, brelse */
    method LogWrite(x: int, b: Block)
      requires 0 <= x < |blk|
      modifies this`blk, this`dirtied
      ensures blk == old(blk)[x := b] && dirtied == old(dirtied) + {x}
    {
      blk := blk[x := b];
      dirtied := dirtied + {x};
    }

    /** balloc: the first free block, marked and cleared, or 0 if there is none. */
    method Balloc() returns (x: int)
      requires Ok()
      modifies this`blk, this`dirtied
      ensures x == 0 ==> blk == old(blk) && dirtied == old(dirtied) && DiskFull(g, blk)
      ensures x != 0 ==> 0 < x < g.size && !Marked(g, old(blk), x) && forall y :: 0 <= y < x ==> Marked(g, old(blk), y)
      ensures x != 0 ==> blk == AfterAlloc(g, old(blk), x) && dirtied == old(dirtied) + {BitBlock(g, x), x}
      ensures x != 0 ==> x !in others && FsOk(g, blk, inodes, owner, others + {x})
    {
      hide FsOk, Bit, SetBit, BitBlock;
      Sizes(g, blk, inodes, owner, others);
      var b := 0;
      while b < g.size
        invariant 0 <= b && b % 8192 == 0 && blk == old(blk) && dirtied == old(dirtied)
        invariant forall y :: 0 <= y < b && y < g.size ==> Marked(g, blk, y)
        decreases g.size - b
      {
        var bb := g.bmapstart + b / 8192;
        var bi := 0;
        while bi < 8192 && b + bi < g.size
          invariant 0 <= bi <= 8192 && blk == old(blk) && dirtied == old(dirtied)
          invariant forall y :: 0 <= y < b + bi && y < g.size ==> Marked(g, blk, y)
        {
          BitAt(g, b, bi);
          if !Bit(blk[bb], bi) {
            x := b + bi;
            AllocKeeps(g, blk, inodes, owner, others, x);
            LogWrite(bb, SetBit(blk[bb], bi));
            LogWrite(x, Zeros());
            return;
          }
          assert Marked(g, blk, b + bi);
          bi := bi + 1;
        }
        b := b + 8192;
      }
      return 0;
    }

    /** bfree of a block in transit: its bit is set, so the panic on freeing a free block is not reached. */
    method Bfree(x: int, ghost view: seq<Inode>, ghost held: set<int>)
      requires FsOk(g, blk, view, owner, held) && x in held
      modifies this`blk, this`dirtied
      ensures 0 <= x < g.size && |old(blk)| == g.size && Layout(g)
      ensures Marked(g, old(blk), x) && blk == AfterFree(g, old(blk), x) && dirtied == old(dirtied) + {BitBlock(g, x)}
      ensures FsOk(g, blk, view, owner, held - {x})
    {
      FreeKeeps(g, blk, view, owner, held, x);
      var bb := g.bmapstart + x / 8192;
      LogWrite(bb, ClearBit(blk[bb], x % 8192));
    }

    ghost predicate GrewFrom(blk0: seq<Block>, inodes0: seq<Inode>, owner0: map<int, Slot>, i: int)
      reads this
    {
      Grew(blk0, inodes0, owner0, blk, inodes, owner, i)
    }

    /** Allocate a block for an empty address in the inode itself. */
    method AllocDirect(i: int, k: int) returns (addr: int)
      requires Ok() && 0 <= i < |inodes| && 0 <= k <= NDIRECT && |inodes[i].addrs| == NDIRECT + 1
               && inodes[i].addrs[k] == 0
      modifies this`blk, this`inodes, this`owner, this`dirtied
      ensures Ok() && GrewFrom(old(blk), old(inodes), old(owner), i)
      ensures addr == 0 ==> blk == old(blk) && inodes == old(inodes) && owner == old(owner) && dirtied == old(dirtied)
      ensures addr == 0 ==> DiskFull(g, blk)
      ensures addr != 0 ==> inodes == old(inodes)[i := old(inodes)[i].(addrs := old(inodes)[i].addrs[k := addr])]
      ensures addr != 0 ==>
                addr in owner && owner == old(owner)[addr := Slot(i, k)] && 0 <= addr < |blk| && blk[addr] == Zeros()
      ensures addr != 0 ==> dirtied == old(dirtied) + {BitBlock(g, addr), addr}
    {
      hide FsOk, Grew, Marked, DiskFull, SetBit;
      Sizes(g, blk, inodes, owner, others);
      addr := Balloc();
      if addr == 0 {
        GrewNot(blk, inodes, owner, i);
        return;
      }
      DirectTaken(g, old(blk), inodes, owner, others, i, k, addr);
      inodes := inodes[i := inodes[i].(addrs := inodes[i].addrs[k := addr])];
      owner := owner[addr := Slot(i, k)];
    }

    /** Allocate a block for an empty entry of the indirect block. */
    method AllocEntry(i: int, j: int) returns (addr: int)
      requires Ok() && 0 <= i < |inodes| && 0 <= j < NINDIRECT && |inodes[i].addrs| == NDIRECT + 1
      requires inodes[i].addrs[NDIRECT] != 0 && Ref(blk, inodes[i], NDIRECT + 1 + j) == 0
      modifies this`blk, this`owner, this`dirtied
      ensures Ok() && GrewFrom(old(blk), old(inodes), old(owner), i)
      ensures addr == 0 ==> blk == old(blk) && owner == old(owner) && dirtied == old(dirtied)
      ensures addr == 0 ==> DiskFull(g, blk)
      ensures addr != 0 ==>
                addr in owner && owner == old(owner)[addr := Slot(i, NDIRECT + 1 + j)] && 0 <= addr < |blk|
                    && blk[addr] == Zeros()
      ensures addr != 0 ==> dirtied == old(dirtied) + {BitBlock(g, addr), addr, inodes[i].addrs[NDIRECT]}
    {
      hide FsOk, Grew, Marked, DiskFull, SetBit, PutWord, Ref;
      Sizes(g, blk, inodes, owner, others);
      var a := inodes[i].addrs[NDIRECT];
      addr := Balloc();
      if addr == 0 {
        GrewNot(blk, inodes, owner, i);
        return;
      }
      EntryTaken(g, old(blk), inodes, owner, others, i, j, addr);
      assert |blk| == |old(blk)|;
      LogWrite(a, PutWord(blk[a], j, addr));
      owner := owner[addr := Slot(i, NDIRECT + 1 + j)];
    }

    /** bmap: the block of file block `bn`, allocated if it was missing, or 0 if the disk is full. It is named by
        address `bn` of the inode, or by word `bn` - 12 of the block that the last address names.
        `bits` are the bitmap blocks it logged: at most one, and one more if the inode had no
        indirect block yet. */
    method Bmap(i: int, bn: int) returns (addr: int, ghost bits: set<int>)
      requires Ok() && 0 <= i < |inodes| && 0 <= bn < MAXFILE && |inodes[i].addrs| == NDIRECT + 1
      modifies this`blk, this`inodes, this`owner, this`dirtied
      ensures Ok() && GrewFrom(old(blk), old(inodes), old(owner), i)
      ensures |inodes| == |old(inodes)| && |inodes[i].addrs| == NDIRECT + 1 && |blk| == |old(blk)|
      ensures addr == 0 ==> DiskFull(g, blk)
      ensures addr != 0 && bn < 12 ==> inodes[i].addrs[bn] == addr
      ensures addr != 0 && bn >= 12 ==>
                0 < inodes[i].addrs[12] < |blk| && Word(blk[inodes[i].addrs[12]], bn - 12) == addr
      ensures addr != 0 ==> addr in owner && owner[addr] == Slot(i, SlotOf(bn)) && 0 <= addr < |blk|
      ensures addr != 0 && addr !in old(owner) ==> blk[addr] == Zeros()
      ensures old(Ref(blk, inodes[i], SlotOf(bn))) != 0 ==>
                addr == old(Ref(blk, inodes[i], SlotOf(bn))) && blk == old(blk) && inodes == old(inodes)
                    && owner == old(owner)
                && dirtied == old(dirtied) && bits == {}
      ensures dirtied <= old(dirtied) + bits + NonZero(addr) + NonZero(inodes[i].addrs[NDIRECT])
      ensures |bits| <= if old(inodes)[i].addrs[NDIRECT] == 0 && inodes[i].addrs[NDIRECT] != 0 then 2 else 1
      ensures old(inodes)[i].addrs[NDIRECT] != 0 ==> inodes[i].addrs[NDIRECT] == old(inodes)[i].addrs[NDIRECT]
    {
      hide FsOk, Grew, DiskFull;
      GrewNot(blk, inodes, owner, i);
      bits := {};
      if bn < NDIRECT {
        addr := inodes[i].addrs[bn];
        if addr == 0 {
          addr := AllocDirect(i, bn);
          bits := if addr != 0 then {BitBlock(g, addr)} else {};
          SameSizes(old(blk), old(inodes), old(owner), blk, inodes, owner, i);
        } else {
          SlotOwned(g, blk, inodes, owner, others, i, bn);
        }
        return;
      }
      if inodes[i].addrs[NDIRECT] == 0 {
        var ind := AllocDirect(i, NDIRECT);
        SameSizes(old(blk), old(inodes), old(owner), blk, inodes, owner, i);
        if ind == 0 {
          return 0, {};
        }
        bits := {BitBlock(g, ind)};
      }
      addr, bits := BmapEntry(i, bn, bits, old(blk), old(inodes), old(owner));
      if addr != 0 {
        NamedByTable(g, blk, inodes, owner, others, i, bn, addr);
      }
    }

    /** bmap past the direct blocks, once there is an indirect block. */
    method BmapEntry(i: int, bn: int, ghost bits0: set<int>, ghost blk0: seq<Block>, ghost inodes0: seq<Inode>,
                     ghost owner0: map<int, Slot>)
      returns (addr: int, ghost bits: set<int>)
      requires Ok() && 0 <= i < |inodes| && NDIRECT <= bn < MAXFILE && |inodes[i].addrs| == NDIRECT + 1
               && inodes[i].addrs[NDIRECT] != 0
      requires GrewFrom(blk0, inodes0, owner0, i)
      modifies this`blk, this`owner, this`dirtied
      ensures Ok() && GrewFrom(blk0, inodes0, owner0, i) && |blk| == |old(blk)|
      ensures addr == 0 ==> DiskFull(g, blk)
      ensures addr != 0 ==> addr in owner && owner[addr] == Slot(i, SlotOf(bn)) && 0 <= addr < |blk|
      ensures addr != 0 && addr !in old(owner) ==> blk[addr] == Zeros()
      ensures old(Ref(blk, inodes[i], SlotOf(bn))) != 0 ==>
                addr == old(Ref(blk, inodes[i], SlotOf(bn))) && blk == old(blk) && owner == old(owner)
                    && dirtied == old(dirtied) && bits == bits0
      ensures dirtied <= old(dirtied) + bits + NonZero(addr) + NonZero(inodes[i].addrs[NDIRECT])
      ensures bits0 <= bits && |bits| <= |bits0| + 1
      ensures forall x :: x in old(owner) ==> x in owner && owner[x] == old(owner)[x]
    {
      hide FsOk, Grew, DiskFull, Word;
      Sizes(g, blk, inodes, owner, others);
      SlotOwned(g, blk, inodes, owner, others, i, NDIRECT);
      var ind := inodes[i].addrs[NDIRECT];
      var j := bn - NDIRECT;
      bits := bits0;
      addr := Word(blk[ind], j);
      assert Ref(blk, inodes[i], bn + 1) == addr;
      if addr == 0 {
        ghost var blk1, owner1 := blk, owner;
        addr := AllocEntry(i, j);
        GrewTrans(blk0, inodes0, owner0, blk1, inodes, owner1, blk, inodes, owner, i);
        SameSizes(blk1, inodes, owner1, blk, inodes, owner, i);
        if addr != 0 {
          bits := bits0 + {BitBlock(g, addr)};
        }
      } else {
        SlotOwned(g, blk, inodes, owner, others, i, bn + 1);
      }
    }

    /** iupdate: copy the in-memory inode into its disk inode. */
    method Iupdate(i: int)
      requires Ok() && 0 <= i < |inodes|
      modifies this`blk, this`dirtied
      ensures Ok() && dirtied == old(dirtied) + {InodeBlock(g, i)}
      ensures Layout(g) && |blk| == |old(blk)| == g.size && |inodes| == g.ninodes
              && g.inodestart <= InodeBlock(g, i) < g.bmapstart
      ensures blk == old(blk)[InodeBlock(g, i) := blk[InodeBlock(g, i)]]
      ensures forall j ::
                0 <= j < |inodes| ==> DiskInode(g, blk, j) == if j == i then inodes[i] else DiskInode(g, old(blk), j)
    {
      hide FsOk, Word;
      Sizes(g, blk, inodes, owner, others);
      AddrsAreWords(g, blk, inodes, owner, others, i);
      var x := g.inodestart + i / 16;
      var b := EncodeInode(blk[x], i % 16 * 16, inodes[i]);
      InodeWriteKeeps(g, blk, inodes, owner, others, x, b);
      InodeEncoded(g, blk, b, i, inodes[i]);
      LogWrite(x, b);
    }

    /** iupdate's assignments into the buffer of the inode's block. */
    static method EncodeInode(was: Block, w: int, ip: Inode) returns (b: Block)
      requires 0 <= w <= 240 && |ip.addrs| == NDIRECT + 1 && 0 <= ip.size < WORD && forall k ::
                 0 <= k <= NDIRECT ==> 0 <= ip.addrs[k] < WORD
      ensures Word(b, w + 2) == ip.size && forall j :: 0 <= j <= NDIRECT ==> Word(b, w + 3 + j) == ip.addrs[j]
      ensures forall j {:trigger Word(b, j)} ::
                0 <= j < NINDIRECT && !(w + 2 <= j < w + 16) ==> Word(b, j) == Word(was, j)
    {
      hide Word, PutWord;
      b := PutWord(was, w + 2, ip.size);
      var k := 0;
      while k <= NDIRECT
        invariant 0 <= k <= NDIRECT + 1 && Word(b, w + 2) == ip.size
        invariant forall j :: 0 <= j < k ==> Word(b, w + 3 + j) == ip.addrs[j]
        invariant forall j {:trigger Word(b, j)} ::
                    0 <= j < NINDIRECT && !(w + 2 <= j < w + 16) ==> Word(b, j) == Word(was, j)
      {
        b := PutWord(b, w + 3 + k, ip.addrs[k]);
        k := k + 1;
      }
    }

    ghost predicate OnlyBitmap(blk0: seq<Block>)
      reads this
    {
      BitmapOnly(g, blk0, blk)
    }

    /** itrunc's first loop, over the direct blocks. The file already claims no bytes in the view. */
    method FreeDirect(i: int)
      requires 0 <= i < |inodes| && |inodes[i].addrs| == NDIRECT + 1
               && FsOk(g, blk, Truncated(inodes, i), owner, others)
      modifies this`blk, this`inodes, this`owner, this`dirtied
      ensures |inodes| == |old(inodes)| && FsOk(g, blk, Truncated(inodes, i), owner, others)
      ensures inodes
              == old(inodes)[i := old(inodes)[i].(addrs := seq(NDIRECT, k => 0) + [old(inodes)[i].addrs[NDIRECT]])]
      ensures owner == OwnerFrom(old(owner), i, NDIRECT) && OnlyBitmap(old(blk))
    {
      hide FsOk, OwnerFrom, BitmapOnly;
      OwnerFromNone(g, blk, Truncated(inodes, i), owner, others, i);
      BitmapOnlyNone(g, blk);
      var k := 0;
      while k < NDIRECT
        invariant 0 <= k <= NDIRECT && |inodes| == |old(inodes)| && |inodes[i].addrs| == NDIRECT + 1
        invariant FsOk(g, blk, Truncated(inodes, i), owner, others) && OnlyBitmap(old(blk))
        invariant inodes == old(inodes)[i := old(inodes)[i].(addrs := inodes[i].addrs)]
        invariant forall j :: 0 <= j <= NDIRECT ==> inodes[i].addrs[j] == if j < k then 0 else old(inodes)[i].addrs[j]
        invariant owner == OwnerFrom(old(owner), i, k)
      {
        ghost var owner1, blk1 := owner, blk;
        if inodes[i].addrs[k] != 0 {
          ghost var x := inodes[i].addrs[k];
          FreeSlot(i, k);
          OwnerFromOne(old(owner), owner1, i, k, {x});
          BitmapOnlyTrans(g, old(blk), blk1, blk);
        } else {
          EmptySlotOwnsNothing(g, blk, Truncated(inodes, i), owner, others, i, k);
          OwnerFromOne(old(owner), owner1, i, k, {});
          assert owner - {} == owner;
        }
        k := k + 1;
      }
      assert inodes[i].addrs == seq(NDIRECT, k => 0) + [old(inodes)[i].addrs[NDIRECT]];
    }

    /** One turn of itrunc's first loop. */
    method FreeSlot(i: int, k: int)
      requires 0 <= i < |inodes| && |inodes[i].addrs| == NDIRECT + 1
               && FsOk(g, blk, Truncated(inodes, i), owner, others)
      requires 0 <= k < NDIRECT && inodes[i].addrs[k] != 0
      modifies this`blk, this`inodes, this`owner, this`dirtied
      ensures inodes == old(inodes)[i := old(inodes)[i].(addrs := old(inodes)[i].addrs[k := 0])]
      ensures FsOk(g, blk, Truncated(inodes, i), owner, others) && OnlyBitmap(old(blk))
      ensures var x := old(inodes)[i].addrs[k];
              x in old(owner) && old(owner)[x] == Slot(i, k) && owner == old(owner) - {x}
      ensures forall y :: y in old(owner) && old(owner)[y] == Slot(i, k) ==> y == old(inodes)[i].addrs[k]
    {
      hide FsOk;
      ghost var view := Truncated(inodes, i);
      var x := inodes[i].addrs[k];
      SlotFreed(g, blk, view, owner, others, i, k);
      owner := owner - {x};
      Bfree(x, view[i := view[i].(addrs := view[i].addrs[k := 0])], others + {x});
      FreeApart(g, old(blk), x);
      inodes := inodes[i := inodes[i].(addrs := inodes[i].addrs[k := 0])];
      assert others + {x} - {x} == others;
      assert Truncated(inodes, i) == view[i := view[i].(addrs := view[i].addrs[k := 0])];
    }

    /** itrunc's second loop: free every block listed in the indirect block `a`. Those blocks and `a`
        are in transit already. */
    method FreeEntries(a: int, ghost view: seq<Inode>, ghost was: map<int, Slot>, ghost gone: set<int>)
      requires FsOk(g, blk, view, owner, others + gone) && others !! gone && a in gone && 0 <= a < |blk|
               && !InBitmap(g, a)
      requires Lists(blk[a], a, was, gone)
      modifies this`blk, this`dirtied
      ensures FsOk(g, blk, view, owner, others + {a}) && OnlyBitmap(old(blk))
    {
      hide FsOk, Remaining;
      ghost var table := blk[a];
      ListsFrom(table, a, was, gone);
      BitmapOnlyNone(g, blk);
      ghost var left := gone;
      var j := 0;
      while j < NINDIRECT
        invariant 0 <= j <= NINDIRECT && left == Remaining(was, gone, j) && left <= gone
        invariant FsOk(g, blk, view, owner, others + left) && OnlyBitmap(old(blk))
      {
        var x := Word(blk[a], j);
        ListsNext(table, a, was, gone, j);
        if x != 0 {
          ghost var blk1 := blk;
          Bfree(x, view, others + left);
          FreeApart(g, blk1, x);
          BitmapOnlyTrans(g, old(blk), blk1, blk);
          assert others + left - {x} == others + (left - {x});
          left := left - {x};
        }
        j := j + 1;
      }
    }

    /** itrunc's second part: the blocks listed in the indirect block, then that block itself. */
    method FreeIndirect(i: int)
      requires 0 <= i < |inodes| && |inodes[i].addrs| == NDIRECT + 1
               && FsOk(g, blk, Truncated(inodes, i), owner, others)
      modifies this`blk, this`inodes, this`owner, this`dirtied
      ensures inodes == old(inodes)[i := old(inodes)[i].(addrs := old(inodes)[i].addrs[NDIRECT := 0])]
      ensures FsOk(g, blk, Truncated(inodes, i), owner, others) && OnlyBitmap(old(blk))
      ensures owner == old(owner) - IndirectBlocks(old(owner), i)
    {
      hide FsOk, Lists, IndirectBlocks;
      var a := inodes[i].addrs[NDIRECT];
      ghost var view := Truncated(inodes, i);
      ghost var gone := IndirectBlocks(owner, i);
      BitmapOnlyNone(g, blk);
      if a == 0 {
        NoIndirectBlocks(g, blk, view, owner, others, i);
        assert inodes[i].addrs[NDIRECT := 0] == inodes[i].addrs;
        assert owner - {} == owner;
        return;
      }
      IndirectGone(g, blk, view, owner, others, i);
      ghost var view1 := view[i := view[i].(addrs := view[i].addrs[NDIRECT := 0])];
      owner := owner - gone;
      FreeEntries(a, view1, old(owner), gone);
      ghost var blk1 := blk;
      Bfree(a, view1, others + {a});
      FreeApart(g, blk1, a);
      BitmapOnlyTrans(g, old(blk), blk1, blk);
      assert others + {a} - {a} == others;
      inodes := inodes[i := inodes[i].(addrs := inodes[i].addrs[NDIRECT := 0])];
      assert Truncated(inodes, i) == view1;
    }

    /** itrunc: afterwards the file is empty and exactly its blocks are free again. */
    method Itrunc(i: int)
      requires Ok() && 0 <= i < |inodes|
      modifies this`blk, this`inodes, this`owner, this`dirtied
      ensures Ok() && inodes == old(inodes)[i := Inode(0, seq(NDIRECT + 1, k => 0))]
      ensures owner == map x | x in old(owner) && old(owner)[x].inum != i :: old(owner)[x]
      ensures Layout(g) && |blk| == |old(blk)| == g.size && |inodes| == g.ninodes
      ensures forall x :: 0 <= x < g.size ==>
                (Marked(g, blk, x) <==> Marked(g, old(blk), x) && !(x in old(owner) && old(owner)[x].inum == i))
      ensures OthersKept(old(blk), old(inodes), blk, inodes, i)
      ensures DiskInode(g, blk, i) == inodes[i]
    {
      hide FsOk, OwnerFrom, IndirectBlocks, BitmapOnly, Marked, OthersKept, DiskInode;
      ghost var blk0, inodes0, owner0 := blk, inodes, owner;
      Sizes(g, blk, inodes, owner, others);
      SetSizeKeeps(g, blk, inodes, owner, others, i, 0) by {
        NothingToHold(blk, inodes[i]);
      }
      FreeDirect(i);
      ghost var blk1 := blk;
      FreeIndirect(i);
      BitmapOnlyTrans(g, blk0, blk1, blk);
      inodes := inodes[i := inodes[i].(size := 0)];
      assert inodes[i].addrs == seq(NDIRECT + 1, k => 0);
      OwnerWithoutInode(owner0, i);
      ghost var blk2 := blk;
      Iupdate(i);
      TruncatedMarks(g, blk0, inodes0, owner0, blk, inodes, owner, others, i);
      TruncatedOthers(g, blk0, inodes0, owner0, blk2, blk, inodes, others, i);
    }

    /** One turn of readi's loop: bytes that lie in one block. */
    method ReadPiece(i: int, o: int, m: int) returns (piece: seq<Byte>)
      requires Ok() && 0 <= i < |inodes| && 0 <= o && 0 < m && o + m <= inodes[i].size && o % 1024 + m <= 1024
      requires |inodes[i].addrs| == NDIRECT + 1 && 0 <= inodes[i].size <= MAXFILE * BSIZE
      modifies this`blk, this`inodes, this`owner, this`dirtied
      ensures blk == old(blk) && inodes == old(inodes) && owner == old(owner) && dirtied == old(dirtied)
      ensures piece == File(blk, inodes[i])[o..o + m]
    {
      hide FsOk, Grew, File, Ref;
      ByteHasBlock(g, blk, inodes, owner, others, i, o);
      var addr, bits := Bmap(i, o / 1024);
      piece := blk[addr][o % 1024..o % 1024 + m];
      SliceOfFile(blk, inodes[i], o, m, addr);
    }

    /** readi's loop. */
    method ReadRange(i: int, off: int, want: int) returns (dst: seq<Byte>)
      requires Ok() && 0 <= i < |inodes| && |inodes[i].addrs| == NDIRECT + 1 && 0 <= inodes[i].size <= MAXFILE * BSIZE
      requires 0 <= off && 0 <= want && off + want <= inodes[i].size
      modifies this`blk, this`inodes, this`owner, this`dirtied
      ensures blk == old(blk) && inodes == old(inodes) && owner == old(owner) && dirtied == old(dirtied)
      ensures dst == File(blk, inodes[i])[off..off + want]
    {
      hide FsOk, ByteAt;
      dst := [];
      ghost var file := File(blk, inodes[i]);
      var tot := 0;
      while tot < want
        invariant blk == old(blk) && inodes == old(inodes) && owner == old(owner) && dirtied == old(dirtied)
        invariant 0 <= tot <= want && dst == file[off..off + tot]
        decreases want - tot
      {
        var o := off + tot;
        var m := Min(want - tot, 1024 - o % 1024);
        var piece := ReadPiece(i, o, m);
        JoinSlices(file, off, o, o + m);
        dst := dst + piece;
        tot := tot + m;
      }
    }

    /** readi: exactly the requested slice, as far as the file goes; nothing is allocated. */
    method Readi(i: int, off: int, n: int) returns (dst: seq<Byte>)
      requires Ok() && 0 <= i < |inodes| && 0 <= off < 0x1_0000_0000 && 0 <= n < 0x1_0000_0000
      requires |inodes[i].addrs| == NDIRECT + 1 && 0 <= inodes[i].size <= MAXFILE * BSIZE
      modifies this`blk, this`inodes, this`owner, this`dirtied
      ensures blk == old(blk) && inodes == old(inodes) && owner == old(owner) && dirtied == old(dirtied)
      ensures dst == if off > inodes[i].size || off + n >= 0x1_0000_0000 then []
                     else File(blk, inodes[i])[off..Min(off + n, inodes[i].size)]
    {
      hide FsOk, ByteAt;
      dst := [];
      if off > inodes[i].size || (off + n) % 0x1_0000_0000 < off {
        return;
      }
      dst := ReadRange(i, off, if off + n > inodes[i].size then inodes[i].size - off else n);
    }

    /** One turn of writei's loop: bytes that lie in one block. Also told are the block and the
        bitmap blocks that were logged. */
    method WritePiece(i: int, off: int, piece: seq<Byte>) returns (ok: bool, ghost addr: int, ghost bits: set<int>)
      requires Ok() && 0 <= i < |inodes| && |inodes[i].addrs| == NDIRECT + 1 && 0 <= off
               && off + |piece| <= MAXFILE * BSIZE
      requires 0 < |piece| && off % 1024 + |piece| <= 1024
      modifies this`blk, this`inodes, this`owner, this`dirtied
      ensures Ok() && |inodes| == |old(inodes)| && inodes[i].size == old(inodes)[i].size
      ensures Written(g, others, old(blk), old(inodes), blk, inodes, owner, i, off, if ok then piece else [])
      ensures !ok ==> DiskFull(g, blk)
      ensures dirtied <= old(dirtied) + bits + {addr} + NonZero(inodes[i].addrs[NDIRECT])
      ensures Has(old(blk), old(inodes)[i], off) ==> bits == {} && inodes == old(inodes)
      ensures |bits| <= if old(inodes)[i].addrs[NDIRECT] == 0 && inodes[i].addrs[NDIRECT] != 0 then 2 else 1
      ensures old(inodes)[i].addrs[NDIRECT] != 0 ==> inodes[i].addrs[NDIRECT] == old(inodes)[i].addrs[NDIRECT]
    {
      hide FsOk, Grew, Written, DiskFull, Ref;
      ghost var blk0, inodes0, owner0 := blk, inodes, owner;
      var a;
      a, bits := Bmap(i, off / 1024);
      addr, ok := a, a != 0;
      GrewWritten(g, others, blk0, inodes0, owner0, blk, inodes, owner, i, off);
      if ok {
        ghost var blk1 := blk;
        PieceWritten(g, others, blk, inodes, owner, i, off, piece, a);
        LogWrite(a, Overwrite(blk[a], off % 1024, piece));
        WrittenTrans(g, others, blk0, inodes0, blk1, inodes, owner, blk, inodes, owner, i, off, [], piece);
        assert [] + piece == piece;
      }
    }

    /** One turn of writei's loop, with what was written and logged since the loop began. */
    method WriteStep(i: int, off: int, src: seq<Byte>, tot: int, ghost blk0: seq<Block>, ghost inodes0: seq<Inode>,
                     ghost dirtied0: set<int>, ghost data0: set<int>, ghost bits0: set<int>, ghost span: int)
      returns (ok: bool, next: int, ghost data: set<int>, ghost bits: set<int>)
      requires 0 <= off && 0 <= tot < |src| && off + |src| <= MAXFILE * BSIZE && AtBoundary(off, tot, |src|)
               && span == Span(off, tot)
      requires Written(g, others, blk0, inodes0, blk, inodes, owner, i, off, src[..tot])
      requires Tally(dirtied0, dirtied, data0, bits0, span, off % 1024 != 0, inodes0[i].addrs[NDIRECT],
                     inodes[i].addrs[NDIRECT])
      requires span == 0 && off % 1024 != 0 ==> Has(blk, inodes[i], off + tot)
      modifies this`blk, this`inodes, this`owner, this`dirtied
      ensures tot <= next <= |src| && AtBoundary(off, next, |src|)
              && Written(g, others, blk0, inodes0, blk, inodes, owner, i, off, src[..next])
      ensures Tally(dirtied0, dirtied, data, bits, span + 1, off % 1024 != 0, inodes0[i].addrs[NDIRECT],
                    inodes[i].addrs[NDIRECT])
      ensures ok ==> tot < next && Span(off, next) == span + 1
      ensures span + 1 <= Span(off, |src|)
      ensures !ok ==> DiskFull(g, blk)
    {
      hide FsOk, Wrote, OthersKept, Tally, Span, Has;
      var o := off + tot;
      var m := Min(|src| - tot, 1024 - o % 1024);
      SpanNext(off, tot, m, |src|);
      ghost var blk1, inodes1, owner1, dirtied1 := blk, inodes, owner, dirtied;
      ghost var addr;
      var piece := src[tot..tot + m];
      ok, addr, bits := WritePiece(i, o, piece);
      TallyNext(dirtied0, dirtied1, dirtied, data0, bits0, span, off % 1024 != 0,
                inodes0[i].addrs[NDIRECT], inodes1[i].addrs[NDIRECT], inodes[i].addrs[NDIRECT], bits, addr);
      data, bits := data0 + {addr}, bits0 + bits;
      WrittenTrans(g, others, blk0, inodes0, blk1, inodes1, owner1, blk, inodes, owner, i, off, src[..tot],
                   if ok then piece else []);
      assert src[..tot] + [] == src[..tot] && src[..tot] + piece == src[..tot + m];
      next := if ok then tot + m else tot;
    }

    /** writei's loop. It stops early only when no free block is left. */
    method WriteLoop(i: int, off: int, src: seq<Byte>)
      returns (tot: int, ghost data: set<int>, ghost bits: set<int>, ghost span: int)
      requires Ok() && 0 <= i < |inodes| && 0 <= off <= inodes[i].size && off + |src| <= MAXFILE * BSIZE
      modifies this`blk, this`inodes, this`owner, this`dirtied
      ensures 0 <= tot <= |src| && Written(g, others, old(blk), old(inodes), blk, inodes, owner, i, off, src[..tot])
      ensures tot < |src| ==> DiskFull(g, blk)
      ensures Tally(old(dirtied), dirtied, data, bits, span, off % 1024 != 0, old(inodes)[i].addrs[NDIRECT],
                    inodes[i].addrs[NDIRECT])
      ensures span <= Span(off, |src|)
    {
      hide FsOk, DiskFull, OthersKept, Wrote, Has;
      WrittenNothing(g, others, blk, inodes, owner, i, off);
      tot, data, bits, span := 0, {}, {}, 0;
      assert src[..0] == [];
      if off % 1024 != 0 {
        UnalignedIsMapped(g, blk, inodes, owner, others, i, off);
      }
      while tot < |src|
        invariant 0 <= tot <= |src| && AtBoundary(off, tot, |src|) && span == Span(off, tot)
        invariant Written(g, others, old(blk), old(inodes), blk, inodes, owner, i, off, src[..tot])
        invariant span == 0 ==> tot == 0 && inodes == old(inodes) && blk == old(blk)
        invariant Tally(old(dirtied), dirtied, data, bits, span, off % 1024 != 0, old(inodes)[i].addrs[NDIRECT],
                        inodes[i].addrs[NDIRECT])
        decreases |src| - tot
      {
        var ok;
        ok, tot, data, bits := WriteStep(i, off, src, tot, old(blk), old(inodes), old(dirtied), data, bits, span);
        span := span + 1;
        if !ok {
          return;
        }
      }
    }

    /** writei's last part: the file now reaches at least to `end`, and its disk inode says so. */
    method Extend(i: int, end: int)
      requires Ok() && 0 <= i < |inodes| && |inodes[i].addrs| == NDIRECT + 1
      requires NoHoles(blk, inodes[i].(size := Max(inodes[i].size, end)))
      modifies this`blk, this`inodes, this`dirtied
      ensures Ok() && inodes == old(inodes)[i := old(inodes)[i].(size := Max(old(inodes)[i].size, end))]
      ensures dirtied == old(dirtied) + {InodeBlock(g, i)} && DiskInode(g, blk, i) == inodes[i]
      ensures forall j ::
                0 <= j < |inodes| ==>
                    0 <= inodes[j].size <= MAXFILE * BSIZE && File(blk, inodes[j]) == File(old(blk), inodes[j])
      ensures DiskFull(g, old(blk)) ==> DiskFull(g, blk)
    {
      SetSizeKeeps(g, blk, inodes, owner, others, i, Max(inodes[i].size, end));
      if end > inodes[i].size {
        inodes := inodes[i := inodes[i].(size := end)];
      }
      ghost var blk1 := blk;
      Iupdate(i);
      forall j | 0 <= j < |inodes|
        ensures 0 <= inodes[j].size <= MAXFILE * BSIZE && File(blk, inodes[j]) == File(blk1, inodes[j]) {
        assert NoHoles(blk, inodes[j]);
        UntouchedFile(g, others, blk1, inodes, owner, blk, j);
      }
      assert forall y :: 0 <= y < g.size ==> (Marked(g, blk, y) <==> Marked(g, blk1, y));
    }

    /** writei: the first `tot` bytes replace the file's bytes at `off`, extending it if need be; `tot`
        falls short only when the disk is full. A chunk of filewrite's size logs at most MAXOPBLOCKS
        blocks, whatever the size of the bitmap. -1 means that nothing was done. */
    method Writei(i: int, off: int, src: seq<Byte>) returns (tot: int)
      requires Ok() && 0 <= i < |inodes| && |inodes[i].addrs| == NDIRECT + 1 && 0 <= inodes[i].size <= MAXFILE * BSIZE
      requires 0 <= off < 0x1_0000_0000 && |src| < 0x1_0000_0000
      modifies this`blk, this`inodes, this`owner, this`dirtied
      ensures Ok() && |inodes| == |old(inodes)|
      ensures tot == -1 <==> off > old(inodes)[i].size || off + |src| > MAXFILE * BSIZE
      ensures tot == -1 ==> blk == old(blk) && inodes == old(inodes) && owner == old(owner) && dirtied == old(dirtied)
      ensures tot != -1 ==>
                0 <= tot <= |src| && |inodes[i].addrs| == NDIRECT + 1 && 0 <= inodes[i].size <= MAXFILE * BSIZE
      ensures tot != -1 ==> File(blk, inodes[i]) == Patch(old(File(blk, inodes[i])), off, src[..tot])
      ensures tot != -1 ==> DiskInode(g, blk, i) == inodes[i]
      ensures -1 < tot < |src| ==> DiskFull(g, blk)
      ensures OthersKept(old(blk), old(inodes), blk, inodes, i)
      ensures |src| <= 3072 ==> |dirtied - old(dirtied)| <= MAXOPBLOCKS
    {
      hide FsOk, OthersKept, AllFilled, DiskFull, Patch, DiskInode;
      FilesDefined(g, others, blk, inodes, owner);
      AllKept(blk, inodes, i);
      if off > inodes[i].size || (off + |src|) % 0x1_0000_0000 < off {
        return -1;
      }
      if off + |src| > MAXFILE * BSIZE {
        return -1;
      }
      ghost var data, bits, span;
      tot, data, bits, span := WriteLoop(i, off, src);
      WrittenPatches(g, others, old(blk), old(inodes), old(owner), blk, inodes, owner, i, off, src[..tot]);
      if |src| <= 3072 {
        ChunkFits(old(dirtied), dirtied, data, bits, span, old(inodes)[i].addrs[NDIRECT], inodes[i].addrs[NDIRECT], off,
                  |src|, InodeBlock(g, i));
      }
      ghost var blk1, inodes1 := blk, inodes;
      Extend(i, off + tot);
      Sizes(g, blk, inodes, owner, others);
      ExtendedKept(old(blk), old(inodes), blk1, inodes1, blk, inodes, i);
    }

    /** begin_op */
    method BeginOp()
      modifies this`dirtied
      ensures dirtied == {}
    {
      dirtied := {};
    }

    /** end_op, for an operation that kept within its reservation. */
    method EndOp()
      requires |dirtied| <= MAXOPBLOCKS
    {
    }

    /** One chunk of filewrite: a transaction of its own, within its reservation. */
    method WriteChunk(i: int, off: int, src: seq<Byte>, at: int, n1: int, ghost blk0: seq<Block>,
                      ghost inodes0: seq<Inode>) returns (r: int)
      requires 0 <= off < 0x1_0000_0000 && 0 <= at && 0 < n1 <= 3072 && at + n1 <= |src|
      requires Appended(g, others, blk0, inodes0, blk, inodes, owner, i, off, src[..at]) && off + at < 0x1_0000_0000
      modifies this`blk, this`inodes, this`owner, this`dirtied
      ensures -1 <= r <= n1 && Appended(g, others, blk0, inodes0, blk, inodes, owner, i, off, src[..at + Max(r, 0)])
      ensures r >= 0 ==> off + at + n1 <= MAXFILE * BSIZE
      ensures r < n1 ==> off > inodes0[i].size || off + at + n1 > MAXFILE * BSIZE || DiskFull(g, blk)
    {
      hide FsOk, OthersKept, File, DiskFull, Appended, Patch;
      AppendedAt(g, others, blk0, inodes0, blk, inodes, owner, i, off, src[..at]);
      BeginOp();
      ghost var blk1, inodes1, owner1 := blk, inodes, owner;
      r := Writei(i, off + at, src[at..at + n1]);
      if r >= 0 {
        PrefixGrows(src, at, n1, r);
        AppendedNext(g, others, blk0, inodes0, blk1, inodes1, owner1, blk, inodes, owner, i, off, src[..at],
                     src[at..at + n1][..r]);
      }
      EndOp();
    }

    /** filewrite's inode branch: the bytes up to the new offset are written, and all of them unless
        the offset is beyond the file, the file would grow too large, or the disk is full. */
    method Filewrite(i: int, off: int, src: seq<Byte>) returns (ret: int, off': int)
      requires Ok() && 0 <= i < |inodes| && |inodes[i].addrs| == NDIRECT + 1 && 0 <= inodes[i].size <= MAXFILE * BSIZE
      requires 0 <= off < 0x1_0000_0000 && |src| < 0x8000_0000
      modifies this`blk, this`inodes, this`owner, this`dirtied
      ensures off <= off' <= off + |src|
              && Appended(g, others, old(blk), old(inodes), blk, inodes, owner, i, off, src[..off' - off])
      ensures ret == if off' == off + |src| then |src| else -1
      ensures ret == -1 ==> off > old(inodes)[i].size || off + |src| > MAXFILE * BSIZE || DiskFull(g, blk)
    {
      hide Appended, FsOk;
      var max := (MAXOPBLOCKS - 1 - 1 - 2) / 2 * 1024;
      assert Appended(g, others, blk, inodes, blk, inodes, owner, i, off, src[..0]) by {
        NothingAppended(g, others, blk, inodes, owner, i, off, src);
      }
      var n := 0;
      off' := off;
      while n < |src|
        invariant 0 <= n <= |src| && off' == off + n < 0x1_0000_0000
        invariant Appended(g, others, old(blk), old(inodes), blk, inodes, owner, i, off, src[..n])
      {
        var n1 := Min(|src| - n, max);
        var r := WriteChunk(i, off, src, n, n1, old(blk), old(inodes));
        if r > 0 {
          off' := off' + r;
        }
        if r != n1 {
          break;
        }
        n := n + r;
      }
      ret := if n == |src| then n else -1;
    }

    ghost function Now(): (s: Image)
      reads this
    {
      Image(blk, inodes, owner)
    }

    /** One call on any file: its answer and its effect are those of plain byte sequences. */
    method Do(c: Call) returns (a: Answer)
      requires Ok() && InRange(c, |inodes|)
      modifies this`blk, this`inodes, this`owner, this`dirtied
      ensures Ok() && |inodes| == |old(inodes)| && Served(g, others, old(Now()), c, a, Now())
    {
      hide FsOk, DiskFull, Patch, File, OthersKept;
      FilesDefined(g, others, blk, inodes, owner);
      match c {
        case ReadCall(i, off, n) =>
          var dst := Readi(i, off, n);
          a := Got(dst);
        case WriteCall(i, off, src) =>
          var tot := Writei(i, off, src);
          a := Count(tot);
          FilesDefined(g, others, blk, inodes, owner);
          if tot != -1 {
            FilesAfter(old(blk), old(inodes), blk, inodes, i, File(blk, inodes[i]));
          }
        case TruncCall(i) =>
          Itrunc(i);
          a := Count(0);
          FilesDefined(g, others, blk, inodes, owner);
          FilesAfter(old(blk), old(inodes), blk, inodes, i, []) by {
            EmptyFile(blk, inodes[i]);
          }
      }
    }

    /** Any sequence of calls on any files, traced from image to image. The block map stays right
        throughout, so no bfree meets a free block, and the answers are those of plain byte sequences. */
    method Run(calls: seq<Call>) returns (answers: seq<Answer>, ghost trace: seq<Image>)
      requires Ok() && forall k :: 0 <= k < |calls| ==> InRange(calls[k], |inodes|)
      modifies this`blk, this`inodes, this`owner, this`dirtied
      ensures Ok() && Serves(g, others, trace, calls, answers) && trace[0] == old(Now()) && trace[|calls|] == Now()
    {
      hide FsOk, Served;
      answers, trace := [], [Now()];
      var k := 0;
      while k < |calls|
        invariant 0 <= k <= |calls| && Ok() && |inodes| == |old(inodes)|
        invariant Serves(g, others, trace, calls[..k], answers) && trace[0] == old(Now()) && trace[k] == Now()
      {
        var a := Do(calls[k]);
        ServesOn(g, others, trace, calls[..k], answers, calls[k], a, Now());
        assert calls[..k] + [calls[k]] == calls[..k + 1];
        answers, trace := answers + [a], trace + [Now()];
        k := k + 1;
      }
      assert calls[..k] == calls;
    }
  }
}
