/** How many descriptors are free, and how far the outstanding requests still have to go. */
module VirtioProgress {
  import opened VirtioDisk
  import opened VirtioState

  // ----- descriptors

  ghost function FreeCount(free: seq<bool>): (n: nat) {
    |set i | 0 <= i < |free| && free[i]|
  }

  ghost function Owned(owner: seq<int>, heads: set<int>): (s: set<int>) {
    set i | 0 <= i < |owner| && owner[i] in heads
  }

  lemma Pick<T>(s: set<T>) returns (x: T)
    requires |s| > 0
    ensures x in s
  {
    x :| x in s;
  }

  lemma OwnedStep(owner: seq<int>, heads: set<int>, h: int, i1: int, i2: int)
    requires h in heads && h != i1 && h != i2 && i1 != i2
    requires 0 <= h < |owner| && 0 <= i1 < |owner| && 0 <= i2 < |owner|
    requires forall i :: 0 <= i < |owner| ==> (owner[i] == h <==> i == h || i == i1 || i == i2)
    ensures |Owned(owner, heads)| == |Owned(owner, heads - {h})| + 3
  {
    var rest, mine := Owned(owner, heads - {h}), {h, i1, i2};
    forall i ensures i in Owned(owner, heads) <==> i in rest + mine {
      assert 0 <= i < |owner| ==> (owner[i] == h <==> i in mine);
    }
    assert Owned(owner, heads) == rest + mine && |mine| == 3;
    Disjoint(rest, mine);
  }

  lemma ChainOwns(s: Snap, h: int)
    requires Chains(s) && h in s.reqs
    ensures |s.owner| == 8
    ensures var r := s.reqs[h];
            && 0 <= h < 8 && 0 <= r.i1 < 8 && 0 <= r.i2 < 8 && h != r.i1 && h != r.i2 && r.i1 != r.i2
            && forall i :: 0 <= i < 8 ==> (s.owner[i] == h <==> i == h || i == r.i1 || i == r.i2)
  {
    assert ChainOk(s.desc, s.info, s.ops, s.owner, s.bufs, h, s.reqs[h]);
  }

  /** Every request has three descriptors of its own. */
  lemma {:induction false} ThreeEach(s: Snap, heads: set<int>)
    requires Chains(s) && heads <= s.reqs.Keys
    ensures |Owned(s.owner, heads)| == 3 * |heads|
    decreases |heads|
  {
    hide ChainsOk, Owned;
    if |heads| > 0 {
      var h := Pick(heads);
      ThreeEach(s, heads - {h});
      ChainOwns(s, h);
      OwnedStep(s.owner, heads, h, s.reqs[h].i1, s.reqs[h].i2);
    } else {
      NoneOwned(s.owner, heads);
    }
  }

  lemma NoneOwned(owner: seq<int>, heads: set<int>)
    requires heads == {}
    ensures Owned(owner, heads) == {}
  {
  }

  lemma FreeOthers(free: seq<bool>, owner: seq<int>, heads: set<int>)
    requires |free| == |owner| == 8 && forall i :: 0 <= i < 8 ==> (free[i] <==> owner[i] !in heads)
    ensures FreeCount(free) == 8 - |Owned(owner, heads)|
  {
    var some := set i | 0 <= i < |free| && free[i];
    assert some + Owned(owner, heads) == Below(8);
    Disjoint(some, Owned(owner, heads));
  }

  /** Between system calls no descriptor is lost: with k requests outstanding, 8 - 3k are free. */
  lemma {:induction false} FreeDescriptors(s: Snap)
    requires Chains(s) && NoneHeld(s.owner)
    ensures FreeCount(s.free) == 8 - 3 * |s.reqs|
  {
    hide ChainsOk, NoneHeld, Owned, FreeCount;
    ThreeEach(s, s.reqs.Keys);
    FreeOrOwned(s);
    FreeOthers(s.free, s.owner, s.reqs.Keys);
  }

  ghost function Below(n: nat): (s: set<int>)
    ensures |s| == n && forall i :: i in s <==> 0 <= i < n
  {
    if n == 0 then {} else Below(n - 1) + {n - 1}
  }

  lemma Disjoint(s: set<int>, t: set<int>)
    requires s !! t
    ensures |s + t| == |s| + |t|
  {
  }

  lemma FreeOrOwned(s: Snap)
    requires Chains(s) && NoneHeld(s.owner)
    ensures |s.free| == |s.owner| == 8 && -1 !in s.reqs
    ensures forall i :: 0 <= i < 8 ==> (s.free[i] <==> s.owner[i] !in s.reqs)
  {
    hide ChainOk;
    HeadsInRange(s.free, s.desc, s.info, s.ops, s.owner, s.bufs, s.reqs);
  }

  /** Three distinct free descriptors, or after some have been taken there is none left. */
  lemma EnoughFree(free: seq<bool>, idx: seq<int>)
    requires Distinct(idx) && |idx| == 3 && forall k :: 0 <= k < 3 ==> 0 <= idx[k] < |free| && free[idx[k]]
    ensures FreeCount(free) >= 3
  {
    FitsRing(idx, set i | 0 <= i < |free| && free[i]);
  }

  lemma {:induction false} AtMost(idx: seq<int>)
    ensures |set i | i in idx| <= |idx|
  {
    if idx != [] {
      var last := idx[|idx| - 1];
      var rest := idx[..|idx| - 1];
      AtMost(rest);
      assert idx == rest + [last];
      assert (set i | i in idx) == (set i | i in rest) + {last};
    } else {
      assert (set i | i in idx) == {};
    }
  }

  lemma TooFewFree(free: seq<bool>, taken: seq<int>)
    requires |taken| < 3 && forall i :: 0 <= i < |free| && free[i] ==> i in taken
    ensures FreeCount(free) < 3
  {
    AtMost(taken);
    var mine := set i | i in taken;
    var some := set i | 0 <= i < |free| && free[i];
    assert some <= mine;
    Smaller(some, mine);
  }

  lemma AllTaken(free: seq<bool>, owner: seq<int>, taken: seq<int>)
    requires |taken| < 3 && |free| == |owner| == NUM && forall i :: 0 <= i < NUM ==> (free[i] <==> owner[i] == FREE)
    requires forall i :: 0 <= i < NUM ==> WithHeld(owner, taken)[i] != FREE
    ensures FreeCount(free) < 3
  {
    forall i | 0 <= i < NUM && free[i] ensures i in taken {
      assert WithHeld(owner, taken)[i] != FREE;
    }
    TooFewFree(free, taken);
  }

  lemma Smaller(s: set<int>, t: set<int>)
    requires s <= t
    ensures |s| <= |t|
  {
    assert t == s + (t - s);
  }

  // ----- the format of a request

  /** What the device finds: a header of 16 bytes that names the direction and the first of two sectors, the
      1024 bytes of the buffer, and one byte for the status. Bit 0 of the flags links to the next descriptor,
      bit 1 lets the device write. */
  lemma {:induction false} RequestFormat(s: Snap, h: int)
    requires SnapOk(s) && h in s.reqs
    ensures |s.desc| == |s.ops| == 8 && 0 <= h < 8
    ensures var r := s.reqs[h];
            && 0 <= r.b < |s.bufs|
            && s.ops[h].kind == (if r.write then 1 else 0) && s.ops[h].sector == 2 * s.bufs[r.b].block
            && s.desc[h].addr == Header(h) && s.desc[h].len == 16 && s.desc[h].flags == 1
            && 0 <= s.desc[h].next < 8
            && var data := s.desc[s.desc[h].next];
            && data.addr == Data(r.b) && data.len == 1024 && data.flags == (if r.write then 1 else 3)
            && 0 <= data.next < 8
            && var last := s.desc[data.next];
            && last.addr == Status(h) && last.len == 1 && last.flags == 2
  {
    hide Rings, BufsOk, BlocksOk, HistOk;
    assert ChainOk(s.desc, s.info, s.ops, s.owner, s.bufs, h, s.reqs[h]);
  }

  // ----- progress

  /** How many steps a request in this stage still needs. */
  function Left(stage: Stage): (n: nat) {
    match stage
    case Made => 8
    case Placed => 7
    case Queued => 6
    case Taken => 5
    case Moved => 4
    case Stored => 3
    case Used => 2
    case Done => 1
  }

  function Work(reqs: map<int, Request>, n: nat): (w: nat) {
    if n == 0 then 0
    else Work(reqs, n - 1) + (if n - 1 in reqs then Left(reqs[n - 1].stage) else 0)
  }

  lemma {:induction false} WorkSame(reqs: map<int, Request>, reqs': map<int, Request>, n: nat)
    requires forall k :: 0 <= k < n ==> (k in reqs <==> k in reqs') && (k in reqs ==> reqs[k].stage == reqs'[k].stage)
    ensures Work(reqs, n) == Work(reqs', n)
  {
    if n > 0 {
      WorkSame(reqs, reqs', n - 1);
    }
  }

  /** One request goes one stage on. */
  lemma {:induction false} WorkDone(reqs: map<int, Request>, h: int, r: Request, n: nat)
    requires h in reqs && 0 <= h < n && Left(r.stage) == Left(reqs[h].stage) - 1
    ensures Work(reqs[h := r], n) == Work(reqs, n) - 1
  {
    if h == n - 1 {
      WorkSame(reqs, reqs[h := r], n - 1);
    } else {
      WorkDone(reqs, h, r, n - 1);
    }
  }

  lemma {:induction false} WorkGone(reqs: map<int, Request>, h: int, n: nat)
    requires h in reqs && 0 <= h < n && reqs[h].stage == Done
    ensures Work(reqs - {h}, n) == Work(reqs, n) - 1
  {
    if h == n - 1 {
      WorkSame(reqs, reqs - {h}, n - 1);
    } else {
      WorkGone(reqs, h, n - 1);
    }
  }

  /** While a request is outstanding and not done, the driver, the device or the handler has a step to make. */
  lemma {:induction false} SomeStep(s: Snap, h: int)
    requires SnapOk(s) && h in s.reqs
    ensures s.reqs[h].stage == Done || s.pending != -1 || s.devIdx != s.availIdx || s.flight != {} || s.moved != {}
            || s.devPending != -1 || s.seenIdx != s.usedIdx
  {
    hide ChainsOk, BufsOk, BlocksOk, HistOk, RingOk, Pendings;
    SnapParts(s);
    var stage := s.reqs[h].stage;
    assert stage == Queued ==> h in s.waiting;
    assert stage == Used ==> h in s.answered;
    assert stage == Taken ==> h in s.flight;
    assert stage == Moved ==> h in s.moved;
    assert stage == Made || stage == Placed ==> h == s.pending;
    assert stage == Stored ==> h == s.devPending;
  }
}
