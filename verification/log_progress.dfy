/** When a thread of the log gets the buffer that it asks for. Logged blocks stay pinned in the cache until
    they are installed, and there are as many buffers as log entries: a commit needs one buffer more. */
module LogProgress {
  import opened Param
  import opened LogModel
  import opened LogSafety
  import opened LogTheorems

  /** bget finds neither an unused buffer nor one that nobody references. */
  ghost predicate NoBuffer(cache: map<nat, Buf>) {
    |cache| >= NBUF && forall x :: x in cache ==> cache[x].refcnt != 0
  }

  /** Nobody but `c` is between bget and brelse. */
  ghost predicate OnlyMine(cache: map<nat, Buf>, c: Client) {
    forall x :: x in cache ==> cache[x].users <= {c}
  }

  ghost function Elems(l: seq<nat>): (s: set<nat>) {
    set x | x in l
  }

  lemma {:induction false} ElemsBound(l: seq<nat>)
    ensures |Elems(l)| <= |l| && (Distinct(l) ==> |Elems(l)| == |l|)
  {
    if l != [] {
      var k := |l| - 1;
      ElemsBound(l[..k]);
      assert Elems(l) == Elems(l[..k]) + {l[k]};
    }
  }

  lemma SubsetBound(a: set<nat>, b: set<nat>)
    requires a <= b
    ensures |a| <= |b|
  {
    assert b == a + (b - a);
  }

  /** A referenced buffer is one that `c` has, or it is pinned. */
  lemma ReferencedWhy(s: State, c: Client, held: set<nat>, x: nat)
    requires Counted(s) && OnlyMine(s.cache, c) && x in s.cache && s.cache[x].refcnt != 0
    requires forall y :: y in s.cache && c in s.cache[y].users ==> y in held
    ensures x in held || Pinned(s.phase, s.list, x)
  {
    assert BufCounted(s.phase, s.list, x, s.cache[x]);
    if c !in s.cache[x].users {
      assert s.cache[x].users == {};
    }
  }

  /** With fewer blocks in the log than there are buffers left, there is a buffer to be had. */
  lemma SpareBuffer(s: State, c: Client, held: set<nat>)
    requires Inv(s) && OnlyMine(s.cache, c)
    requires forall y :: y in s.cache && c in s.cache[y].users ==> y in held
    requires (if InRecovery(s.phase) then 0 else |s.list|) + |held| < NBUF
    ensures !NoBuffer(s.cache)
  {
    hide Stored, Tracked, Atomic, BufCounted;
    if forall x :: x in s.cache ==> s.cache[x].refcnt != 0 {
      var pins := if InRecovery(s.phase) then {} else Elems(s.list);
      forall x | x in s.cache.Keys ensures x in held + pins {
        ReferencedWhy(s, c, held, x);
      }
      ElemsBound(s.list);
      SubsetBound(s.cache.Keys, held + pins);
    }
  }

  /** While write_log runs over a log as large as the cache, the cache is the log: no buffer is left for a
      log block. */
  lemma FullHasNone(s: State, b: nat)
    requires Inv(s) && s.phase.WritingLog? && |s.list| == NBUF && |s.cache| <= NBUF && !Home(s.g, b)
    ensures NoBuffer(s.cache) && b !in s.cache
  {
    var pins := Elems(s.list);
    ElemsBound(s.list);
    forall x | x in pins ensures x in s.cache.Keys {
      var i :| 0 <= i < |s.list| && s.list[i] == x;
      assert Pinned(s.phase, s.list, s.list[i]);
    }
    SameSize(pins, s.cache.Keys);
    forall x | x in s.cache ensures x in s.list && s.cache[x].refcnt != 0 && x != b {
      assert x in s.cache.Keys;
      assert BufCounted(s.phase, s.list, x, s.cache[x]);
    }
  }

  lemma SameSize(a: set<nat>, b: set<nat>)
    requires a <= b && |b| <= |a|
    ensures a == b
  {
    assert b == a + (b - a);
  }

  lemma OneMore(cache: map<nat, Buf>, b: nat, f: Buf)
    requires |cache| < NBUF
    ensures |cache[b := f]| <= NBUF
  {
    assert cache[b := f].Keys == cache.Keys + {b};
  }

  lemma OneForAnother(cache: map<nat, Buf>, victim: nat, b: nat, f: Buf)
    requires |cache| <= NBUF && victim in cache
    ensures |(cache - {victim})[b := f]| <= NBUF
  {
    var kept := cache - {victim};
    assert cache.Keys == kept.Keys + {victim} && victim !in kept.Keys;
    assert kept[b := f].Keys == kept.Keys + {b};
  }

  lemma GetFits(s: State, c: Client, b: nat, recycle: bool, victim: nat)
    requires |s.cache| <= NBUF && CanGet(s, c, b, recycle, victim)
    ensures |DoGet(s, c, b, recycle, victim).cache| <= NBUF
  {
    var t := DoGet(s, c, b, recycle, victim);
    if b in s.cache {
      assert t.cache.Keys == s.cache.Keys;
    } else if recycle {
      OneForAnother(s.cache, victim, b, t.cache[b]);
    } else {
      OneMore(s.cache, b, t.cache[b]);
    }
  }

  /** Every other step leaves each block in its buffer. */
  lemma SameBlocks(s: State, a: Action)
    requires Enabled(s, a) && !a.Get? && !a.Crash?
    ensures Next(s, a).cache.Keys == s.cache.Keys
  {
    hide View, EncodeHeader, Drop, FindOp, CanGet, DoGet;
  }

  /** The cache never has more than its NBUF buffers. */
  lemma StepFits(s: State, a: Action)
    requires |s.cache| <= NBUF && Enabled(s, a)
    ensures |Next(s, a).cache| <= NBUF
  {
    hide View, EncodeHeader, Drop, FindOp, CanGet, DoGet;
    if a.Get? {
      GetFits(s, a.c, a.b, a.recycle, a.victim);
    } else if !a.Crash? {
      SameBlocks(s, a);
    }
  }

  lemma {:induction false} CacheFits(s: State, acts: seq<Action>, t: State)
    requires |s.cache| <= NBUF && Leads(s, acts, t)
    ensures |t.cache| <= NBUF
    decreases |acts|
  {
    hide Enabled, Next;
    if acts != [] {
      StepFits(s, acts[0]);
      CacheFits(Next(s, acts[0]), acts[1..], t);
    }
  }
}
