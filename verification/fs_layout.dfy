/** Where things lie on the disk, byte by byte, as kernel/fs.h lays them out. */
module FsLayout {
  import opened FsFormat
  import opened FsModel

  /** Byte o of a file, in its first twelve blocks: they are those that the inode's addresses name, in order. */
  lemma DirectByte(g: Super, blk: seq<Block>, inodes: seq<Inode>, owner: map<int, Slot>, held: set<int>, i: int, o: int)
    requires FsOk(g, blk, inodes, owner, held) && 0 <= i < |inodes| && 0 <= o < inodes[i].size && o < 12 * 1024
    ensures |inodes[i].addrs| == 13 && inodes[i].size <= 268 * 1024
    ensures var x := inodes[i].addrs[o / 1024]; 0 < x < |blk| && File(blk, inodes[i])[o] == blk[x][o % 1024]
  {
    FilesDefined(g, held, blk, inodes, owner);
    assert NoHoles(blk, inodes[i]);
    assert Ref(blk, inodes[i], SlotOf(o / 1024)) != 0;
  }

  /** Byte o of a file, from its thirteenth block on: the block that the inode's last address names has four bytes
      for each of these blocks, lowest byte first. */
  lemma IndirectByte(g: Super, blk: seq<Block>, inodes: seq<Inode>, owner: map<int, Slot>, held: set<int>, i: int,
                     o: int)
    requires FsOk(g, blk, inodes, owner, held) && 0 <= i < |inodes| && 12 * 1024 <= o < inodes[i].size
    ensures |inodes[i].addrs| == 13 && inodes[i].size <= 268 * 1024 && 0 < inodes[i].addrs[12] < |blk|
    ensures var t, k := blk[inodes[i].addrs[12]], 4 * (o / 1024 - 12);
            var b0: int, b1: int, b2: int, b3: int := t[k], t[k + 1], t[k + 2], t[k + 3];
            var x := b0 + 256 * b1 + 65536 * b2 + 16777216 * b3;
            0 < x < |blk| && File(blk, inodes[i])[o] == blk[x][o % 1024]
  {
    FilesDefined(g, held, blk, inodes, owner);
    assert NoHoles(blk, inodes[i]);
    assert Ref(blk, inodes[i], SlotOf(o / 1024)) != 0;
    assert SlotOf(o / 1024) - 13 == o / 1024 - 12;
  }

  /** Inode i takes 64 bytes of block inodestart + i / 16. Its size comes after eight bytes. */
  lemma SizeOnDisk(g: Super, blk: seq<Block>, i: int)
    requires Layout(g) && |blk| == g.size && 0 <= i < g.ninodes
    ensures var b, at := blk[g.inodestart + i / 16], i % 16 * 64 + 8;
            var b0: int, b1: int, b2: int, b3: int := b[at], b[at + 1], b[at + 2], b[at + 3];
            DiskInode(g, blk, i).size == b0 + 256 * b1 + 65536 * b2 + 16777216 * b3
  {
  }

  /** And its thirteen addresses fill the rest. */
  lemma AddressOnDisk(g: Super, blk: seq<Block>, i: int, k: int)
    requires Layout(g) && |blk| == g.size && 0 <= i < g.ninodes && 0 <= k < 13
    ensures |DiskInode(g, blk, i).addrs| == 13
    ensures var b, at := blk[g.inodestart + i / 16], i % 16 * 64 + 12 + 4 * k;
            var b0: int, b1: int, b2: int, b3: int := b[at], b[at + 1], b[at + 2], b[at + 3];
            DiskInode(g, blk, i).addrs[k] == b0 + 256 * b1 + 65536 * b2 + 16777216 * b3
  {
    var w := i % 16 * 16;
    assert DiskInode(g, blk, i).addrs[k] == Word(blk[g.inodestart + i / 16], w + 3 + k);
    assert 4 * (w + 3 + k) == i % 16 * 64 + 12 + 4 * k;
  }

  predicate IsBit(x: int) {
    x == 0 || x == 1
  }

  lemma BitDown(v: nat, b: int, rest: nat)
    requires IsBit(b) && v == b + 2 * rest
    ensures v / 2 == rest && (BitOf(v, 0) <==> b == 1) && forall m: nat ::
              m > 0 ==> (BitOf(v, m) <==> BitOf(rest, m - 1))
  {
  }

  /** The eight bits of a byte, lowest first. */
  lemma BitsOfByte(v: nat, b0: int, b1: int, b2: int, b3: int, b4: int, b5: int, b6: int, b7: int)
    requires IsBit(b0) && IsBit(b1) && IsBit(b2) && IsBit(b3) && IsBit(b4) && IsBit(b5) && IsBit(b6) && IsBit(b7)
    requires v == b0 + 2 * b1 + 4 * b2 + 8 * b3 + 16 * b4 + 32 * b5 + 64 * b6 + 128 * b7
    ensures (BitOf(v, 0) <==> b0 == 1) && (BitOf(v, 1) <==> b1 == 1)
    ensures (BitOf(v, 2) <==> b2 == 1) && (BitOf(v, 3) <==> b3 == 1)
    ensures (BitOf(v, 4) <==> b4 == 1) && (BitOf(v, 5) <==> b5 == 1)
    ensures (BitOf(v, 6) <==> b6 == 1) && (BitOf(v, 7) <==> b7 == 1)
  {
    hide BitOf;
    var v6 := b6 + 2 * b7;
    var v5 := b5 + 2 * v6;
    var v4 := b4 + 2 * v5;
    var v3 := b3 + 2 * v4;
    var v2 := b2 + 2 * v3;
    var v1 := b1 + 2 * v2;
    BitDown(v, b0, v1);
    BitDown(v1, b1, v2);
    BitDown(v2, b2, v3);
    BitDown(v3, b3, v4);
    BitDown(v4, b4, v5);
    BitDown(v5, b5, v6);
    BitDown(v6, b6, b7);
    BitDown(b7, b7, 0);
  }

  lemma MarkIsBit(g: Super, blk: seq<Block>, x: int)
    requires Layout(g) && |blk| == g.size && 0 <= x < g.size
    ensures Marked(g, blk, x) <==> BitOf(blk[g.bmapstart + x / 8192][x % 8192 / 8], x % 8)
  {
    assert x % 8192 % 8 == x % 8;
  }

  /** Block x has bit x % 8 of byte x % 8192 / 8 of block bmapstart + x / 8192. */
  lemma MarkOnDisk(g: Super, blk: seq<Block>, x: int, b0: int, b1: int, b2: int, b3: int, b4: int, b5: int, b6: int,
                   b7: int)
    requires Layout(g) && |blk| == g.size && 0 <= x < g.size
    requires IsBit(b0) && IsBit(b1) && IsBit(b2) && IsBit(b3) && IsBit(b4) && IsBit(b5) && IsBit(b6) && IsBit(b7)
    requires var v: int := blk[g.bmapstart + x / 8192][x % 8192 / 8];
             v == b0 + 2 * b1 + 4 * b2 + 8 * b3 + 16 * b4 + 32 * b5 + 64 * b6 + 128 * b7
    ensures Marked(g, blk, x) <==> [b0, b1, b2, b3, b4, b5, b6, b7][x % 8] == 1
  {
    hide BitOf, Marked;
    BitsOfByte(blk[g.bmapstart + x / 8192][x % 8192 / 8], b0, b1, b2, b3, b4, b5, b6, b7);
    MarkIsBit(g, blk, x);
  }

  /** What a write makes of a file, byte by byte. */
  lemma PatchAt(f: seq<Byte>, off: int, bytes: seq<Byte>, o: int)
    requires 0 <= off <= |f|
    ensures |Patch(f, off, bytes)| == if off + |bytes| > |f| then off + |bytes| else |f|
    ensures 0 <= o < |Patch(f, off, bytes)| ==>
              Patch(f, off, bytes)[o] == if off <= o < off + |bytes| then bytes[o - off] else f[o]
  {
  }
}
