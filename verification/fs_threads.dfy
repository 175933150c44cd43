/** Several threads inside bmap, writei, readi and itrunc at once, each with its own inode locked. A step
    is what one thread does while it holds one buffer, or to its in-memory inode; the others may act
    between any two steps. */
module FsThreads {
  import opened FsFormat
  import opened FsModel

  /** Where a thread is in itrunc. */
  datatype Part =
    | Whole                                                // not in itrunc
    | Slots(k: int)                                        // before direct slot k
    | Freed(k: int)                                        // the block in slot k is freed, its address not yet cleared
    | Table(j: int, was: map<int, Slot>, gone: set<int>)   // before entry j of the indirect block
    | TableFreed                                           // the indirect block is freed, its address not yet cleared
    | Emptied                                              // all addresses are cleared

  /** `took` are the blocks this thread has on their way into or out of its inode, `zeroed` those of them
      that are cleared, and `dirty` says that the disk inode is out of date. */
  datatype Thread = Outside | Inside(i: int, took: set<int>, zeroed: set<int>, dirty: bool, part: Part)

  /** What comes after `panicked` only records: who owns each block, the block maps as ownership sees them,
      and all blocks in transit. */
  datatype State = State(g: Super, blk: seq<Block>, inodes: seq<Inode>, threads: seq<Thread>, panicked: bool,
                         owner: map<int, Slot>, view: seq<Inode>, held: set<int>)

  /** A truncated inode claims no bytes, and no block that has been freed or is about to be. */
  function ViewOf(ip: Inode, part: Part): (v: Inode)
    requires |ip.addrs| == NDIRECT + 1 && (part.Freed? ==> 0 <= part.k < NDIRECT)
  {
    match part
    case Whole => ip
    case Slots(_) => ip.(size := 0)
    case Freed(k) => Inode(0, ip.addrs[k := 0])
    case Table(_, _, _) => Inode(0, ip.addrs[NDIRECT := 0])
    case TableFreed => Inode(0, ip.addrs[NDIRECT := 0])
    case Emptied => ip.(size := 0)
  }

  // ----- the steps

  datatype Step =
    | Enter(i: int)                  // ilock
    | Leave                          // iunlock
    | Mark(x: int)                   // balloc: set the bit
    | Clear(x: int)                  // balloc: bzero
    | LinkDirect(k: int, x: int)     // bmap: ip->addrs[k] = x
    | LinkEntry(j: int, x: int)      // bmap: a[j] = x
    | Write(k: int, b: Block)        // writei: copy into a data block
    | Grow(n: int)                   // writei: ip->size = n
    | Update(b: Block)               // iupdate
    | Trunc                          // itrunc begins
    | Skip                           // no block in this direct slot
    | FreeDirect                     // bfree of a direct block
    | ClearDirect                    // and its address
    | Detach                         // the indirect block is read
    | FreeEntry                      // bfree of an entry, if there is one
    | FreeTable                      // bfree of the indirect block
    | ClearTable                     // and its address
    | Finish                         // ip->size = 0

  ghost predicate Busy(s: State, t: int) {
    0 <= t < |s.threads| && s.threads[t].Inside? && 0 <= s.threads[t].i < |s.inodes| == |s.view|
    && |s.inodes[s.threads[t].i].addrs| == NDIRECT + 1 && Layout(s.g) && |s.blk| == s.g.size
    && |s.inodes| == s.g.ninodes
  }

  /** The block `b` says what inode `i` is, and the same as before about its other fifteen inodes. */
  ghost predicate Encodes(g: Super, blk: seq<Block>, i: int, ip: Inode, b: Block)
    requires Layout(g) && |blk| == g.size && 0 <= i < g.ninodes
  {
    forall j {:trigger DiskInode(g, blk, j)} {:trigger DiskInode(g, blk[InodeBlock(g, i) := b], j)} ::
        0 <= j < g.ninodes ==>
      DiskInode(g, blk[InodeBlock(g, i) := b], j) == if j == i then ip else DiskInode(g, blk, j)
  }

  ghost predicate Can(s: State, t: int, a: Step) {
    if a.Enter? then
      && 0 <= t < |s.threads| && s.threads[t].Outside? && 0 <= a.i < |s.inodes| == |s.view|
      && forall u :: 0 <= u < |s.threads| && s.threads[u].Inside? ==> s.threads[u].i != a.i
    else
      && Busy(s, t)
      && var th := s.threads[t];
      && var ip := s.inodes[th.i];
      && (th.part.Whole? ||
          !(a.Leave? || a.Mark? || a.Clear? || a.LinkDirect? || a.LinkEntry?
            || a.Write? || a.Grow? || a.Update? || a.Trunc?))
      && match a
         case Leave => th.took == {} && !th.dirty
         case Mark(x) => 0 <= x < s.g.size && !Marked(s.g, s.blk, x)
         case Clear(x) => x in th.took && 0 <= x < |s.blk|
         case LinkDirect(k, x) => x in th.zeroed && 0 <= k <= NDIRECT && ip.addrs[k] == 0
         case LinkEntry(j, x) => x in th.zeroed && 0 <= x < WORD && 0 <= j < NINDIRECT
             && 0 < ip.addrs[NDIRECT] < |s.blk| && Ref(s.blk, ip, NDIRECT + 1 + j) == 0
         case Write(k, b) => 0 <= k < NSLOT && k != NDIRECT && 0 < Ref(s.blk, ip, k) < |s.blk|
         case Grow(n) => n >= ip.size && NoHoles(s.blk, ip.(size := n))
         case Update(b) => Encodes(s.g, s.blk, th.i, ip, b)
         case Trunc => th.took == {}
         case Skip => th.part.Slots? && 0 <= th.part.k < NDIRECT && ip.addrs[th.part.k] == 0
         case FreeDirect => th.part.Slots? && 0 <= th.part.k < NDIRECT && ip.addrs[th.part.k] != 0
         case ClearDirect => th.part.Freed? && 0 <= th.part.k < NDIRECT
         case Detach => th.part.Slots? && th.part.k == NDIRECT && ip.addrs[NDIRECT] != 0
         case FreeEntry => th.part.Table? && 0 <= th.part.j < NINDIRECT && 0 <= ip.addrs[NDIRECT] < |s.blk|
         case FreeTable => th.part.Table? && th.part.j == NINDIRECT
         case ClearTable => th.part.TableFreed?
         case Finish => (th.part.Slots? && th.part.k == NDIRECT && ip.addrs[NDIRECT] == 0) || th.part.Emptied?
         case _ => true
  }

  /** Thread t goes on as `th`, with its inode now `ip`. */
  ghost function Moved(s: State, t: int, blk: seq<Block>, ip: Inode, th: Thread, owner: map<int, Slot>): (r: State)
    requires Busy(s, t) && th.Inside? && |ip.addrs| == NDIRECT + 1 && (th.part.Freed? ==> 0 <= th.part.k < NDIRECT)
  {
    var i := s.threads[t].i;
    s.(blk := blk, inodes := s.inodes[i := ip], threads := s.threads[t := th], owner := owner,
       view := s.view[i := ViewOf(ip, th.part)], held := s.held - s.threads[t].took + th.took)
  }

  /** bfree panics on a block that is free already. */
  function Bfree(g: Super, blk: seq<Block>, x: int): (r: seq<Block>)
    requires Layout(g) && |blk| == g.size
  {
    if 0 <= x < g.size then AfterFree(g, blk, x) else blk
  }

  predicate Frees(g: Super, blk: seq<Block>, x: int)
    requires Layout(g) && |blk| == g.size
  {
    0 <= x < g.size && Marked(g, blk, x)
  }

  ghost function Next(s: State, t: int, a: Step): (r: State)
    requires Can(s, t, a)
  {
    if a.Enter? then s.(threads := s.threads[t := Inside(a.i, {}, {}, false, Whole)]) else
      var th := s.threads[t];
      var ip := s.inodes[th.i];
      match a
      case Leave => s.(threads := s.threads[t := Outside])
      case Mark(x) =>
        var bb := BitBlock(s.g, x);
        Moved(s, t, s.blk[bb := SetBit(s.blk[bb], x % 8192)], ip, th.(took := th.took + {x}), s.owner)
      case Clear(x) => Moved(s, t, s.blk[x := Zeros()], ip, th.(zeroed := th.zeroed + {x}), s.owner)
      case LinkDirect(k, x) =>
        Moved(s, t, s.blk, ip.(addrs := ip.addrs[k := x]),
              th.(took := th.took - {x}, zeroed := th.zeroed - {x}, dirty := true), s.owner[x := Slot(th.i, k)])
      case LinkEntry(j, x) =>
        var d := ip.addrs[NDIRECT];
        Moved(s, t, s.blk[d := PutWord(s.blk[d], j, x)], ip, th.(took := th.took - {x}, zeroed := th.zeroed - {x}),
              s.owner[x := Slot(th.i, NDIRECT + 1 + j)])
      case Write(k, b) => Moved(s, t, s.blk[Ref(s.blk, ip, k) := b], ip, th, s.owner)
      case Grow(n) => Moved(s, t, s.blk, ip.(size := n), th.(dirty := true), s.owner)
      case Update(b) => Moved(s, t, s.blk[InodeBlock(s.g, th.i) := b], ip, th.(dirty := false), s.owner)
      case Trunc => Moved(s, t, s.blk, ip, th.(dirty := true, part := Slots(0)), s.owner)
      case Skip => Moved(s, t, s.blk, ip, th.(part := Slots(th.part.k + 1)), s.owner)
      case FreeDirect =>
        var x := ip.addrs[th.part.k];
        Moved(s, t, Bfree(s.g, s.blk, x), ip, th.(part := Freed(th.part.k)), s.owner - {x}).(panicked := s.panicked
              || !Frees(s.g, s.blk, x))
      case ClearDirect => Moved(s, t, s.blk, ip.(addrs := ip.addrs[th.part.k := 0]), th.(part := Slots(th.part.k + 1)),
                                s.owner)
      case Detach =>
        var gone := IndirectBlocks(s.owner, th.i);
        Moved(s, t, s.blk, ip, th.(took := gone, part := Table(0, s.owner, gone)), s.owner - gone)
      case FreeEntry =>
        var x := Word(s.blk[ip.addrs[NDIRECT]], th.part.j);
        var on := th.part.(j := th.part.j + 1);
        if x == 0 then Moved(s, t, s.blk, ip, th.(part := on), s.owner)
        else Moved(s, t, Bfree(s.g, s.blk, x), ip, th.(took := th.took - {x}, part := on),
                   s.owner).(panicked := s.panicked || !Frees(s.g, s.blk, x))
      case FreeTable =>
        var x := ip.addrs[NDIRECT];
        Moved(s, t, Bfree(s.g, s.blk, x), ip, th.(took := {}, part := TableFreed), s.owner).(panicked := s.panicked
              || !Frees(s.g, s.blk, x))
      case ClearTable => Moved(s, t, s.blk, ip.(addrs := ip.addrs[NDIRECT := 0]), th.(part := Emptied), s.owner)
      case Finish => Moved(s, t, s.blk, ip.(size := 0), th.(part := Whole), s.owner)
  }
}
