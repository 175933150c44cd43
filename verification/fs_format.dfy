/** The on-disk encodings of kernel/fs.h and kernel/fs.c: bitmap bits and little-endian words in
    blocks of bytes. */
module FsFormat {
  const BSIZE: int := 1024      // bytes in a block
  const NDIRECT: int := 12
  const NINDIRECT: int := 256   // words in a block
  const MAXFILE: int := 268     // NDIRECT + NINDIRECT
  const BPB: int := 8192        // bits in a block
  const WORD: int := 0x1_0000_0000

  type Byte = x: int | 0 <= x < 256
  type Block = b: seq<Byte> | |b| == BSIZE witness seq(BSIZE, i => 0)

  function Zeros(): (b: Block) {
    seq(BSIZE, i => 0)
  }

  // ----- the bits of a number: bit m is tested by v & (1 << m)

  predicate BitOf(v: nat, m: nat) {
    if m == 0 then v % 2 == 1 else BitOf(v / 2, m - 1)
  }

  /** v | (1 << m) */
  function WithBit(v: nat, m: nat): (r: nat) {
    if m == 0 then v - v % 2 + 1 else 2 * WithBit(v / 2, m - 1) + v % 2
  }

  /** v & ~(1 << m) */
  function WithoutBit(v: nat, m: nat): (r: nat) {
    if m == 0 then v - v % 2 else 2 * WithoutBit(v / 2, m - 1) + v % 2
  }

  lemma {:induction false} WithBitAt(v: nat, m: nat, k: nat)
    ensures BitOf(WithBit(v, m), k) <==> k == m || BitOf(v, k)
  {
    if m > 0 && k > 0 {
      WithBitAt(v / 2, m - 1, k - 1);
      assert (2 * WithBit(v / 2, m - 1) + v % 2) / 2 == WithBit(v / 2, m - 1);
    } else if k > 0 {
      assert (v - v % 2 + 1) / 2 == v / 2;
    }
  }

  lemma {:induction false} WithoutBitAt(v: nat, m: nat, k: nat)
    ensures BitOf(WithoutBit(v, m), k) <==> k != m && BitOf(v, k)
  {
    if m > 0 && k > 0 {
      WithoutBitAt(v / 2, m - 1, k - 1);
      assert (2 * WithoutBit(v / 2, m - 1) + v % 2) / 2 == WithoutBit(v / 2, m - 1);
    } else if k > 0 {
      assert (v - v % 2) / 2 == v / 2;
    }
  }

  function Pow2(n: nat): (r: nat)
    ensures r > 0
  {
    if n == 0 then 1 else 2 * Pow2(n - 1)
  }

  lemma {:induction false} BitChangesFit(v: nat, m: nat, n: nat)
    requires v < Pow2(n) && m < n
    ensures WithBit(v, m) < Pow2(n) && WithoutBit(v, m) < Pow2(n)
  {
    if m > 0 {
      BitChangesFit(v / 2, m - 1, n - 1);
    }
  }

  // ----- a bitmap block

  predicate Bit(b: Block, k: int)
    requires 0 <= k < BPB
  {
    BitOf(b[k / 8], k % 8)
  }

  lemma ByteFits(v: Byte, m: nat)
    requires m < 8
    ensures 0 <= WithBit(v, m) < 256 && 0 <= WithoutBit(v, m) < 256
  {
    assert Pow2(8) == 256 by {
      assert Pow2(4) == 16;
    }
    BitChangesFit(v, m, 8);
  }

  function SetBit(b: Block, k: int): (r: Block)
    requires 0 <= k < BPB
    ensures forall j {:trigger Bit(r, j)} :: 0 <= j < BPB ==> (Bit(r, j) <==> j == k || Bit(b, j))
  {
    ByteFits(b[k / 8], k % 8);
    var r := b[k / 8 := WithBit(b[k / 8], k % 8)];
    assert forall j {:trigger Bit(r, j)} :: 0 <= j < BPB ==> (Bit(r, j) <==> j == k || Bit(b, j)) by {
      forall j | 0 <= j < BPB ensures Bit(r, j) <==> j == k || Bit(b, j) {
        WithBitAt(b[k / 8], k % 8, j % 8);
      }
    }
    r
  }

  function ClearBit(b: Block, k: int): (r: Block)
    requires 0 <= k < BPB
    ensures forall j {:trigger Bit(r, j)} :: 0 <= j < BPB ==> (Bit(r, j) <==> j != k && Bit(b, j))
  {
    ByteFits(b[k / 8], k % 8);
    var r := b[k / 8 := WithoutBit(b[k / 8], k % 8)];
    assert forall j {:trigger Bit(r, j)} :: 0 <= j < BPB ==> (Bit(r, j) <==> j != k && Bit(b, j)) by {
      forall j | 0 <= j < BPB ensures Bit(r, j) <==> j != k && Bit(b, j) {
        WithoutBitAt(b[k / 8], k % 8, j % 8);
      }
    }
    r
  }

  // ----- 32-bit little-endian words

  function Word(b: Block, i: int): (w: int)
    requires 0 <= i < NINDIRECT
    ensures 0 <= w < WORD
  {
    var b0: int, b1: int, b2: int, b3: int := b[4 * i], b[4 * i + 1], b[4 * i + 2], b[4 * i + 3];
    b0 + 0x100 * b1 + 0x1_0000 * b2 + 0x100_0000 * b3
  }

  lemma SplitWord(w: int)
    requires 0 <= w < WORD
    ensures 0 <= w / 0x100_0000 < 256
    ensures w % 0x100 + 0x100 * (w / 0x100 % 0x100) + 0x1_0000 * (w / 0x1_0000 % 0x100) + 0x100_0000 * (w / 0x100_0000)
            == w
  {
    assert w == 0x100 * (w / 0x100) + w % 0x100;
    assert w / 0x100 == 0x100 * (w / 0x1_0000) + w / 0x100 % 0x100;
    assert w / 0x1_0000 == 0x100 * (w / 0x100_0000) + w / 0x1_0000 % 0x100;
  }

  lemma WordsApart(b: Block, r: Block, i: int, j: int)
    requires 0 <= i < NINDIRECT && 0 <= j < NINDIRECT && j != i
    requires forall k :: 0 <= k < BSIZE && !(4 * i <= k < 4 * i + 4) ==> r[k] == b[k]
    ensures Word(r, j) == Word(b, j)
  {
  }

  function PutWord(b: Block, i: int, w: int): (r: Block)
    requires 0 <= i < NINDIRECT && 0 <= w < WORD
    ensures Word(r, i) == w
    ensures forall j {:trigger Word(r, j)} :: 0 <= j < NINDIRECT && j != i ==> Word(r, j) == Word(b, j)
  {
    SplitWord(w);
    var r := b[4 * i := w % 0x100][4 * i + 1 := w / 0x100 % 0x100][4 * i + 2 := w / 0x1_0000 % 0x100][4 * i + 3 :=
          w / 0x100_0000];
    assert forall j {:trigger Word(r, j)} :: 0 <= j < NINDIRECT && j != i ==> Word(r, j) == Word(b, j) by {
      forall j | 0 <= j < NINDIRECT && j != i ensures Word(r, j) == Word(b, j) {
        WordsApart(b, r, i, j);
      }
    }
    r
  }

  lemma ZeroWord(i: int)
    requires 0 <= i < NINDIRECT
    ensures Word(Zeros(), i) == 0
  {
  }
}
