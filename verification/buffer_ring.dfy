/** kernel/bio.c: NBUF buffers on a circular doubly linked list, most recently released first.
    Links are buffer numbers; HEAD is the list head that is not a buffer. */
module BufferRing {
  import opened Param

  const HEAD: nat := NBUF

  ghost predicate Distinct(l: seq<nat>) {
    && (forall i :: 0 <= i < |l| ==> l[i] < NBUF)
    && (forall i, j :: 0 <= i < j < |l| ==> l[i] != l[j])
  }

  /** The node at a position of the list; the head lies at both ends. */
  function At(l: seq<nat>, i: int): (b: nat) {
    if 0 <= i < |l| then l[i] else HEAD
  }

  /** `next` and `prev` run once, in opposite directions, through the head and all of `l`. */
  ghost predicate Linked(l: seq<nat>, next: seq<nat>, prev: seq<nat>) {
    && |next| == |prev| == NBUF + 1
    && Distinct(l)
    && next[HEAD] == At(l, 0) && prev[HEAD] == At(l, |l| - 1)
    && (forall i {:trigger next[l[i]]} :: 0 <= i < |l| ==> next[l[i]] == At(l, i + 1))
    && (forall i {:trigger prev[l[i]]} :: 0 <= i < |l| ==> prev[l[i]] == At(l, i - 1))
  }

  function Without(l: seq<nat>, k: nat): (r: seq<nat>)
    requires k < |l|
  {
    l[..k] + l[k + 1..]
  }

  lemma WithoutAt(l: seq<nat>, k: nat)
    requires Distinct(l) && k < |l|
    ensures Distinct(Without(l, k)) && l[k] !in Without(l, k)
    ensures forall i {:trigger Without(l, k)[i]} ::
              0 <= i < |l| - 1 ==> Without(l, k)[i] == l[if i < k then i else i + 1]
    ensures forall x :: x in l && x != l[k] ==> x in Without(l, k)
  {
    var r := Without(l, k);
    forall x | x in l && x != l[k] ensures x in r {
      var i :| 0 <= i < |l| && l[i] == x;
      assert r[if i < k then i else i - 1] == x;
    }
  }

  /** b->prev->next = b->next and b->next->prev = b->prev, seen from any other buffer */
  lemma UnlinkAt(l: seq<nat>, next: seq<nat>, prev: seq<nat>, k: nat, i: nat)
    requires Linked(l, next, prev) && k < |l| && i < |l| - 1
    requires next[l[k]] <= NBUF && prev[l[k]] <= NBUF && Without(l, k)[i] < NBUF
    ensures next[prev[l[k]] := next[l[k]]][Without(l, k)[i]] == At(Without(l, k), i + 1)
    ensures prev[next[l[k]] := prev[l[k]]][Without(l, k)[i]] == At(Without(l, k), i - 1)
  {
    WithoutAt(l, k);
    var j := if i < k then i else i + 1;
    assert Without(l, k)[i] == l[j];
  }

  lemma UnlinkKeeps(l: seq<nat>, next: seq<nat>, prev: seq<nat>, k: nat)
    requires Linked(l, next, prev) && k < |l|
    ensures next[l[k]] <= NBUF && prev[l[k]] <= NBUF
    ensures Linked(Without(l, k), next[prev[l[k]] := next[l[k]]], prev[next[l[k]] := prev[l[k]]])
  {
    WithoutAt(l, k);
    forall i: nat | i < |l| - 1
      ensures next[prev[l[k]] := next[l[k]]][Without(l, k)[i]] == At(Without(l, k), i + 1)
      ensures prev[next[l[k]] := prev[l[k]]][Without(l, k)[i]] == At(Without(l, k), i - 1)
    {
      UnlinkAt(l, next, prev, k, i);
    }
  }

  lemma PushAt(l: seq<nat>, next: seq<nat>, prev: seq<nat>, b: nat, i: nat)
    requires Linked(l, next, prev) && b < NBUF && b !in l && i < |l| && next[HEAD] <= NBUF
    ensures next[b := next[HEAD]][HEAD := b][l[i]] == At(l, i + 1)
    ensures prev[b := HEAD][next[HEAD] := b][l[i]] == if i == 0 then b else l[i - 1]
  {
    assert next[l[i]] == At(l, i + 1) && prev[l[i]] == At(l, i - 1);
    assert l[i] != b && l[i] != HEAD;
    assert i > 0 ==> l[i] != l[0];
  }

  lemma PushDistinct(l: seq<nat>, b: nat)
    requires Distinct(l) && b < NBUF && b !in l
    ensures Distinct([b] + l)
  {
  }

  lemma PushLink(l: seq<nat>, next: seq<nat>, prev: seq<nat>, b: nat, i: nat)
    requires Linked(l, next, prev) && b < NBUF && b !in l && i <= |l|
    ensures next[HEAD] <= NBUF && ([b] + l)[i] < NBUF
    ensures next[b := next[HEAD]][HEAD := b][([b] + l)[i]] == At([b] + l, i + 1)
    ensures prev[b := HEAD][next[HEAD] := b][([b] + l)[i]] == At([b] + l, i - 1)
  {
    if i > 0 {
      PushAt(l, next, prev, b, i - 1);
      assert ([b] + l)[i] == l[i - 1] && (i > 1 ==> ([b] + l)[i - 1] == l[i - 2]);
    } else {
      assert l != [] ==> ([b] + l)[1] == l[0] != b;
    }
  }

  lemma PushHead(l: seq<nat>, next: seq<nat>, prev: seq<nat>, b: nat)
    requires Linked(l, next, prev) && b < NBUF && b !in l
    ensures next[HEAD] <= NBUF
    ensures next[b := next[HEAD]][HEAD := b][HEAD] == b && prev[b := HEAD][next[HEAD] := b][HEAD] == At([b] + l, |l|)
  {
    if l != [] {
      assert ([b] + l)[|l|] == l[|l| - 1];
    }
  }

  /** Insert `b` right after the head. */
  lemma PushKeeps(l: seq<nat>, next: seq<nat>, prev: seq<nat>, b: nat)
    requires Linked(l, next, prev) && b < NBUF && b !in l
    ensures next[HEAD] <= NBUF
    ensures Linked([b] + l, next[b := next[HEAD]][HEAD := b], prev[b := HEAD][next[HEAD] := b])
  {
    hide Distinct;
    PushDistinct(l, b);
    PushHead(l, next, prev, b);
    var r := [b] + l;
    var next', prev' := next[b := next[HEAD]][HEAD := b], prev[b := HEAD][next[HEAD] := b];
    forall i | 0 <= i < |r| ensures r[i] < NBUF && next'[r[i]] == At(r, i + 1) && prev'[r[i]] == At(r, i - 1) {
      PushLink(l, next, prev, b, i);
    }
  }

  /** brelse's six assignments turn the list `l` into its buffer `k` followed by the others. */
  lemma RelinkKeeps(l: seq<nat>, next: seq<nat>, prev: seq<nat>, k: nat)
    requires Linked(l, next, prev) && k < |l|
    ensures next[l[k]] <= NBUF && prev[l[k]] <= NBUF && next[l[k]] != l[k]
    ensures var b := l[k];
            var next1, prev1 := next[prev[b] := next[b]], prev[next[b] := prev[b]];
            && next1[HEAD] <= NBUF
            && Linked([b] + Without(l, k), next1[b := next1[HEAD]][HEAD := b], prev1[b := HEAD][next1[HEAD] := b])
    ensures forall x :: x in l ==> x in [l[k]] + Without(l, k)
  {
    UnlinkKeeps(l, next, prev, k);
    WithoutAt(l, k);
    assert next[l[k]] == At(l, k + 1);
    PushKeeps(Without(l, k), next[prev[l[k]] := next[l[k]]], prev[next[l[k]] := prev[l[k]]], l[k]);
  }

  /** Later releases come first. */
  ghost predicate Sorted(l: seq<nat>, released: seq<int>) {
    && Distinct(l) && |released| == NBUF
    && forall i, j :: 0 <= i < j < |l| ==> released[l[i]] > released[l[j]]
  }

  /** A buffer released to zero, moved to the front with a new greatest stamp, keeps the list sorted. */
  lemma FrontStaysSorted(l: seq<nat>, released: seq<int>, k: nat, now: int)
    requires Sorted(l, released) && k < |l| && forall b :: 0 <= b < NBUF ==> released[b] < now
    ensures Sorted([l[k]] + Without(l, k), released[l[k] := now])
  {
    WithoutAt(l, k);
  }

  /** The unreferenced buffer nearest the end is the least recently released one. */
  lemma LastUnreferenced(l: seq<nat>, released: seq<int>, refcnt: seq<nat>, i: nat)
    requires Sorted(l, released) && |l| == |refcnt| == NBUF && (forall b :: 0 <= b < NBUF ==> b in l)
    requires i < NBUF && forall j :: i < j < NBUF ==> refcnt[l[j]] > 0
    ensures forall x :: 0 <= x < NBUF && refcnt[x] == 0 ==> released[l[i]] <= released[x]
  {
    forall x | 0 <= x < NBUF && refcnt[x] == 0 ensures released[l[i]] <= released[x] {
      assert x in l;
      var j :| 0 <= j < |l| && l[j] == x;
    }
  }

  /** The list links all buffers, sorted by their release stamps, which all lie before `clock`. */
  ghost predicate Ring(order: seq<nat>, next: seq<nat>, prev: seq<nat>, released: seq<int>, clock: int) {
    && Linked(order, next, prev)
    && |order| == NBUF && (forall b :: 0 <= b < NBUF ==> b in order)
    && Sorted(order, released) && (forall b :: 0 <= b < NBUF ==> released[b] < clock)
  }

  lemma FrontKeepsRing(order: seq<nat>, next: seq<nat>, prev: seq<nat>, released: seq<int>, clock: int, k: nat)
    requires Ring(order, next, prev, released, clock) && k < NBUF
    ensures next[order[k]] <= NBUF && prev[order[k]] <= NBUF && next[order[k]] != order[k]
    ensures var b := order[k];
            var next1, prev1 := next[prev[b] := next[b]], prev[next[b] := prev[b]];
            && next1[HEAD] <= NBUF
            && Ring([b] + Without(order, k), next1[b := next1[HEAD]][HEAD := b], prev1[b := HEAD][next1[HEAD] := b],
                    released[b := clock], clock + 1)
  {
    RelinkKeeps(order, next, prev, k);
    FrontStaysSorted(order, released, k, clock);
  }

  /** Where a buffer is in the list. */
  ghost function Place(order: seq<nat>, next: seq<nat>, prev: seq<nat>, released: seq<int>, clock: int,
                       b: nat): (k: nat)
    requires Ring(order, next, prev, released, clock) && b < NBUF
    ensures k < |order| == NBUF && order[k] == b && |next| == |prev| == NBUF + 1 && |released| == NBUF
  {
    assert b in order;
    var k :| 0 <= k < |order| && order[k] == b;
    k
  }

  lemma LinkedSizes(l: seq<nat>, next: seq<nat>, prev: seq<nat>)
    requires Linked(l, next, prev)
    ensures |next| == |prev| == NBUF + 1
  {
  }

  lemma EmptyRing(next: seq<nat>, prev: seq<nat>)
    requires |next| == |prev| == NBUF + 1 && next[HEAD] == prev[HEAD] == HEAD
    ensures Linked([], next, prev)
  {
  }

  /** The list as binit leaves it. */
  lemma FirstRing(order: seq<nat>, next: seq<nat>, prev: seq<nat>, released: seq<int>)
    requires Linked(order, next, prev) && |order| == NBUF && |released| == NBUF
    requires (forall i :: 0 <= i < NBUF ==> order[i] == NBUF - 1 - i) && forall b :: 0 <= b < NBUF ==> released[b] == b
    ensures Ring(order, next, prev, released, NBUF)
  {
    forall b: nat | b < NBUF ensures b in order {
      assert order[NBUF - 1 - b] == b;
    }
  }

  /** No block of a real device has two buffers. */
  ghost predicate Unique(dev: seq<nat>, blockno: seq<nat>) {
    && |dev| == |blockno| == NBUF
    && forall i, j :: 0 <= i < j < NBUF && dev[i] != 0 && dev[i] == dev[j] ==> blockno[i] != blockno[j]
  }

  class Bcache {
    var next: seq<nat>
    var prev: seq<nat>
    var dev: seq<nat>
    var blockno: seq<nat>
    var valid: seq<bool>
    var refcnt: seq<nat>
    ghost var order: seq<nat>      // the buffers from head.next to head.prev
    ghost var released: seq<int>   // when each buffer's count last fell to zero in brelse
    ghost var clock: int

    ghost predicate Valid()
      reads this
    {
      && Ring(order, next, prev, released, clock)
      && Unique(dev, blockno) && |valid| == |refcnt| == NBUF
    }

    /** binit: each buffer in turn is inserted after the head. */
    constructor ()
      ensures Valid() && order == seq(NBUF, i requires 0 <= i < NBUF => NBUF - 1 - i)
      ensures forall b :: 0 <= b < NBUF ==> dev[b] == 0 && blockno[b] == 0 && refcnt[b] == 0 && !valid[b]
    {
      hide Linked, Ring;
      dev, blockno := seq(NBUF, i => 0), seq(NBUF, i => 0);
      valid, refcnt := seq(NBUF, i => false), seq(NBUF, i => 0);
      released, clock := seq(NBUF, i => i), NBUF;
      next, prev, order := seq(NBUF + 1, i => HEAD), seq(NBUF + 1, i => HEAD), [];
      new;
      EmptyRing(next, prev);
      for b := 0 to NBUF
        invariant Linked(order, next, prev) && |order| == b
        invariant forall i :: 0 <= i < b ==> order[i] == b - 1 - i
        invariant |dev| == |blockno| == |valid| == |refcnt| == NBUF
        invariant forall i :: 0 <= i < NBUF ==> dev[i] == 0 && blockno[i] == 0 && refcnt[i] == 0 && !valid[i]
        invariant released == seq(NBUF, i => i) && clock == NBUF
      {
        LinkedSizes(order, next, prev);
        PushKeeps(order, next, prev, b);
        next, prev := next[b := next[HEAD]], prev[b := HEAD];
        prev := prev[next[HEAD] := b];
        next := next[HEAD := b];
        order := [b] + order;
      }
      FirstRing(order, next, prev, released);
    }

    /** bget's first loop: the buffer of a cached block, or HEAD. */
    method Find(d: nat, n: nat) returns (b: nat)
      requires Valid()
      ensures b <= NBUF && (b < NBUF ==> dev[b] == d && blockno[b] == n)
      ensures b == NBUF ==> forall x :: 0 <= x < NBUF ==> !(dev[x] == d && blockno[x] == n)
    {
      ghost var i := 0;
      b := next[HEAD];
      while b != HEAD
        invariant 0 <= i <= NBUF && b == At(order, i)
        invariant forall j :: 0 <= j < i ==> !(dev[order[j]] == d && blockno[order[j]] == n)
        decreases NBUF - i
      {
        assert b == order[i] && next[order[i]] == At(order, i + 1);
        if dev[b] == d && blockno[b] == n {
          return;
        }
        b := next[b];
        i := i + 1;
      }
      forall x | 0 <= x < NBUF ensures !(dev[x] == d && blockno[x] == n) {
        assert x in order;
      }
    }

    /** bget's second loop: the least recently released buffer that nobody references, or HEAD. */
    method LeastRecent() returns (b: nat)
      requires Valid()
      ensures b <= NBUF && (b < NBUF ==> refcnt[b] == 0)
      ensures b < NBUF ==> forall x :: 0 <= x < NBUF && refcnt[x] == 0 ==> released[b] <= released[x]
      ensures b == NBUF ==> forall x :: 0 <= x < NBUF ==> refcnt[x] > 0
    {
      ghost var i := NBUF - 1;
      b := prev[HEAD];
      while b != HEAD
        invariant -1 <= i < NBUF && b == At(order, i)
        invariant forall j :: i < j < NBUF ==> refcnt[order[j]] > 0
        decreases i
      {
        assert b == order[i] && prev[order[i]] == At(order, i - 1);
        if refcnt[b] == 0 {
          LastUnreferenced(order, released, refcnt, i);
          return;
        }
        b := prev[b];
        i := i - 1;
      }
      forall x | 0 <= x < NBUF ensures refcnt[x] > 0 {
        assert x in order;
      }
    }

    /** bget. A cached block is found and referenced again; otherwise the least recently released
        buffer that nobody references is recycled; NBUF stands for the panic when there is none. */
    method Bget(d: nat, n: nat) returns (b: nat)
      requires Valid()
      modifies this`dev, this`blockno, this`valid, this`refcnt
      ensures Valid() && b <= NBUF
      ensures b < NBUF ==> dev == old(dev)[b := d] && blockno == old(blockno)[b := n]
      ensures b < NBUF && old(dev[b] == d && blockno[b] == n) ==>
                valid == old(valid) && refcnt == old(refcnt)[b := old(refcnt[b]) + 1]
      ensures b < NBUF && !old(dev[b] == d && blockno[b] == n) ==>
                (forall x :: 0 <= x < NBUF ==> !old(dev[x] == d && blockno[x] == n))
                && old(refcnt[b]) == 0 && valid == old(valid)[b := false] && refcnt == old(refcnt)[b := 1]
                && (forall x :: 0 <= x < NBUF && old(refcnt[x]) == 0 ==> released[b] <= released[x])
      ensures b == NBUF ==> dev == old(dev) && blockno == old(blockno) && valid == old(valid) && refcnt == old(refcnt)
      ensures b == NBUF ==> forall x :: 0 <= x < NBUF ==> refcnt[x] > 0 && !(dev[x] == d && blockno[x] == n)
    {
      b := Find(d, n);
      if b != HEAD {
        refcnt := refcnt[b := refcnt[b] + 1];
        return;
      }
      b := LeastRecent();
      if b != HEAD {
        dev, blockno := dev[b := d], blockno[b := n];
        valid := valid[b := false];
        refcnt := refcnt[b := 1];
      }
    }

    /** The list surgery of brelse. */
    method MoveToFront(b: nat)
      requires Valid() && b < NBUF
      modifies this`next, this`prev, this`order, this`released, this`clock
      ensures Valid() && order[0] == b
      ensures released == old(released)[b := old(clock)]
    {
      hide Ring, Unique;
      ghost var k := Place(order, next, prev, released, clock, b);
      FrontKeepsRing(order, next, prev, released, clock, k);
      var after, before := next[b], prev[b];
      prev := prev[after := before];
      next := next[before := after];
      var first := next[HEAD];
      next, prev := next[b := first], prev[b := HEAD];
      prev := prev[first := b];
      next := next[HEAD := b];
      order := [b] + Without(order, k);
      released, clock := released[b := clock], clock + 1;
    }

    /** brelse: the last reference moves the buffer to the front of the list. */
    method Brelse(b: nat)
      requires Valid() && b < NBUF && refcnt[b] > 0
      modifies this`next, this`prev, this`refcnt, this`order, this`released, this`clock
      ensures Valid() && refcnt == old(refcnt)[b := old(refcnt[b]) - 1]
      ensures refcnt[b] > 0 ==> order == old(order) && released == old(released)
      ensures refcnt[b] == 0 ==>
                order[0] == b && forall x :: 0 <= x < NBUF && x != b ==> released[x] == old(released[x]) < released[b]
    {
      refcnt := refcnt[b := refcnt[b] - 1];
      if refcnt[b] == 0 {
        MoveToFront(b);
      }
    }

    /** bpin */
    method Bpin(b: nat)
      requires Valid() && b < NBUF
      modifies this`refcnt
      ensures Valid() && refcnt == old(refcnt)[b := old(refcnt[b]) + 1]
    {
      refcnt := refcnt[b := refcnt[b] + 1];
    }

    /** bunpin, of a buffer that the caller also holds: the count does not fall to zero here, so the
        list order still tells releases. */
    method Bunpin(b: nat)
      requires Valid() && b < NBUF && refcnt[b] > 1
      modifies this`refcnt
      ensures Valid() && refcnt == old(refcnt)[b := old(refcnt[b]) - 1]
    {
      refcnt := refcnt[b := refcnt[b] - 1];
    }
  }
}
