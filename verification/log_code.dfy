/** kernel/log.c as it is written: a thread running its loops over the in-memory header, the
    buffer cache and the disk, while others use the same buffers. Each assignment that another thread
    or a crash could observe is recorded as a step of LogModel, so what LogTheorems proves of runs
    holds of this code wherever it is interrupted. */
module LogCode {
  import opened Param
  import opened LogModel
  import opened LogSafety
  import opened LogTheorems
  import opened LogProgress

  /** `model` is where the steps recorded so far have brought a machine booted from `boot`. */
  ghost predicate Reached(boot: State, acts: seq<Action>, model: State) {
    Init(boot) && Leads(boot, acts, model)
  }

  lemma {:induction false} LeadsOn(s: State, acts: seq<Action>, t: State, a: Action)
    requires Leads(s, acts, t) && Enabled(t, a)
    ensures Leads(s, acts + [a], Next(t, a))
    decreases |acts|
  {
    if acts == [] {
      assert ([] + [a])[1..] == [];
    } else {
      assert (acts + [a])[1..] == acts[1..] + [a];
      LeadsOn(Next(s, acts[0]), acts[1..], t, a);
    }
  }

  lemma UnreferencedIsUnused(boot: State, acts: seq<Action>, model: State)
    requires Reached(boot, acts, model)
    ensures forall x :: x in model.cache && model.cache[x].refcnt == 0 ==> model.cache[x].users == {}
  {
    RunKeeps(boot, acts, model);
    forall x | x in model.cache && model.cache[x].refcnt == 0 ensures model.cache[x].users == {} {
      assert BufCounted(model.phase, model.list, x, model.cache[x]);
    }
  }

  /** While a commit or a recovery runs, no operation executes. */
  lemma NobodyElse(boot: State, acts: seq<Action>, model: State)
    requires Reached(boot, acts, model) && !model.phase.Running?
    ensures model.dirty == {} && model.ops == [] && model.outstanding == 0
    ensures |model.list| <= LOGBLOCKS && forall i :: 0 <= i < |model.list| ==> Home(model.g, model.list[i])
  {
    RunKeeps(boot, acts, model);
  }

  lemma HeadCounts(boot: State, acts: seq<Action>, model: State)
    requires Reached(boot, acts, model) && model.phase.Boot? && HoldsHead(model)
    ensures HeaderFits(model.cache[model.g.start].data)
  {
    RunKeeps(boot, acts, model);
  }

  /** With the log on the disk erased, every home block holds its committed contents. */
  lemma HomesAreBase(boot: State, acts: seq<Action>, model: State)
    requires Reached(boot, acts, model) && (model.phase.Running? || model.phase.Cleared? || model.phase.WritingLog?)
    ensures |model.disk| == |model.base| == model.g.size
    ensures forall b: nat :: Home(model.g, b) ==> model.disk[b] == model.base[b]
  {
    RunKeeps(boot, acts, model);
  }

  /** An empty log means that the open transaction changed nothing. */
  lemma NothingLogged(boot: State, acts: seq<Action>, model: State)
    requires Reached(boot, acts, model) && !model.phase.Running? && model.list == []
    ensures model.cur == [] && View(model) == model.base
  {
    RunKeeps(boot, acts, model);
  }

  lemma RunningIsNotCommitting(boot: State, acts: seq<Action>, model: State)
    requires Reached(boot, acts, model) && model.phase.Running?
    ensures !model.committing
  {
    RunKeeps(boot, acts, model);
  }

  lemma SomeoneOutstanding(boot: State, acts: seq<Action>, model: State, c: Client)
    requires Reached(boot, acts, model) && Active(model.ops, c)
    ensures model.outstanding >= 1
  {
    RunKeeps(boot, acts, model);
  }

  /** A buffer that `c` uses has a reference; a changed block is locked by an executing operation. */
  lemma UsedIsReferenced(boot: State, acts: seq<Action>, model: State)
    requires Reached(boot, acts, model)
    ensures forall x :: x in model.cache && model.cache[x].refcnt == 0 ==> model.cache[x].users == {}
    ensures forall x ::
              x in model.cache && model.cache[x].lock.HeldBy? ==> model.cache[x].lock.holder in model.cache[x].users
    ensures forall x ::
              x in model.dirty ==>
                  x in model.cache && model.cache[x].lock.HeldBy? && model.cache[x].lock.holder.Operation?
                      && model.outstanding > 0
  {
    RunKeeps(boot, acts, model);
    UnreferencedIsUnused(boot, acts, model);
    forall x | x in model.cache && model.cache[x].lock.HeldBy?
      ensures model.cache[x].lock.holder in model.cache[x].users {
      assert BufCounted(model.phase, model.list, x, model.cache[x]);
    }
  }

  /** While a commit or a recovery runs, other threads can do nothing but use buffers. */
  lemma OthersOnlyUseBuffers(boot: State, acts: seq<Action>, model: State, a: Action)
    requires Reached(boot, acts, model) && !model.phase.Running? && Enabled(model, a) && !a.Crash?
    requires a.Get? || a.Lock? || a.Fill? || a.Release? || a.Begin? || a.Modify? || a.LogWrite? || a.End?
    ensures Next(model, a) == model.(cache := Next(model, a).cache)
  {
    RunKeeps(boot, acts, model);
  }

  /** What `c` has of the cache stays as it is. */
  ghost predicate Undisturbed(c: Client, cache: map<nat, Buf>, cache': map<nat, Buf>) {
    && (forall b :: b in cache && c in cache[b].users ==> b in cache' && c in cache'[b].users)
    && (forall b :: b in cache' && c in cache'[b].users ==> b in cache && c in cache[b].users)
    && (forall b ::
        Holds(cache, c, b) && c in cache[b].users ==> Holds(cache', c, b) && cache'[b].data == cache[b].data)
    && (forall b ::
        b in cache && cache[b].lock == HeldBy(c) ==>
            b in cache' && cache'[b].lock == HeldBy(c) && cache'[b].valid == cache[b].valid)
    && (forall b :: b in cache' && cache'[b].lock == HeldBy(c) ==> b in cache && cache[b].lock == HeldBy(c))
  }

  lemma UndisturbedOn(c: Client, cache: map<nat, Buf>, cache1: map<nat, Buf>, cache2: map<nat, Buf>)
    requires Undisturbed(c, cache, cache1) && Undisturbed(c, cache1, cache2)
    ensures Undisturbed(c, cache, cache2)
  {
  }

  lemma UndisturbedSame(c: Client, cache: map<nat, Buf>)
    ensures Undisturbed(c, cache, cache)
  {
  }

  /** One thread's buffers: exactly those of the blocks in `held`, locked and filled. */
  ghost predicate HoldsJust(cache: map<nat, Buf>, c: Client, held: set<nat>) {
    && (forall b :: b in held ==> Holds(cache, c, b) && c in cache[b].users)
    && (forall b :: b in cache && b !in held ==> c !in cache[b].users)
  }

  /** `c` holds a buffer whose contents may be looked at, and others put into it. */
  lemma HoldsThis(cache: map<nat, Buf>, c: Client, held: set<nat>, b: nat)
    requires HoldsJust(cache, c, held) && b in held
    ensures Holds(cache, c, b)
  {
  }

  lemma HoldsChanged(cache: map<nat, Buf>, c: Client, held: set<nat>, b: nat, f: Buf)
    requires HoldsJust(cache, c, held) && b in held && b in cache && f.users == cache[b].users
             && f.lock == cache[b].lock && f.valid == cache[b].valid
    ensures HoldsJust(cache[b := f], c, held)
  {
  }

  lemma UndisturbedHolding(c: Client, cache: map<nat, Buf>, cache': map<nat, Buf>, held: set<nat>)
    requires HoldsJust(cache, c, held) && Undisturbed(c, cache, cache')
    ensures HoldsJust(cache', c, held)
  {
  }

  lemma StillUsed(c: Client, cache: map<nat, Buf>, cache': map<nat, Buf>, b: nat)
    requires Undisturbed(c, cache, cache') && b in cache && c in cache[b].users
    ensures b in cache' && c in cache'[b].users
  {
  }

  lemma NotUsing(cache: map<nat, Buf>, c: Client, held: set<nat>, b: nat)
    requires HoldsJust(cache, c, held) && b !in held
    ensures b in cache ==> c !in cache[b].users
  {
  }

  /** `c` has one more buffer, which it has not locked yet. */
  ghost predicate HoldsAnd(cache: map<nat, Buf>, c: Client, held: set<nat>, b: nat) {
    && (forall x :: x in held ==> Holds(cache, c, x) && c in cache[x].users)
    && (forall x :: x in cache && x !in held && x != b ==> c !in cache[x].users)
    && b in cache && c in cache[b].users && b !in held && cache[b].lock != HeldBy(c)
  }

  lemma GotMore(cache: map<nat, Buf>, cache': map<nat, Buf>, c: Client, held: set<nat>, b: nat)
    requires HoldsJust(cache, c, held) && b !in held && b in cache' && c in cache'[b].users
             && cache'[b].lock != HeldBy(c)
    requires forall x :: x in cache' && x != b ==> x in cache && cache'[x] == cache[x]
    requires forall x :: x in cache && x != b && c in cache[x].users ==> x in cache'
    ensures HoldsAnd(cache', c, held, b)
  {
  }

  /** `c` has locked the buffer, and it may have been filled. */
  lemma LockedMore(cache: map<nat, Buf>, cache1: map<nat, Buf>, cache2: map<nat, Buf>, c: Client, held: set<nat>,
                   b: nat)
    requires HoldsAnd(cache, c, held, b) && b in cache1 && c in cache1[b].users && cache1[b].lock == HeldBy(c)
    requires Undisturbed(c, cache, cache1[b := cache1[b].(lock := Free)])
    requires b in cache2 && cache2[b].valid && cache2 == cache1[b := cache1[b].(valid := true, data := cache2[b].data)]
    ensures HoldsJust(cache2, c, held + {b})
  {
    var unlocked := cache1[b := cache1[b].(lock := Free)];
    forall x | x in held ensures Holds(cache2, c, x) && c in cache2[x].users {
      assert Holds(unlocked, c, x) && c in unlocked[x].users;
    }
    forall x | x in cache2 && x !in held + {b} ensures c !in cache2[x].users {
      assert x in unlocked && unlocked[x] == cache2[x];
    }
  }

  // ----- getting a buffer, and having it alone

  lemma NotLocked(c: Client, cache: map<nat, Buf>, cache': map<nat, Buf>, b: nat)
    requires Undisturbed(c, cache, cache') && b in cache && cache[b].lock != HeldBy(c)
    ensures b in cache' ==> cache'[b].lock != HeldBy(c)
  {
  }

  /** A buffer that nobody uses is unlocked. */
  lemma UnusedIsFree(boot: State, acts: seq<Action>, model: State, c: Client, held: set<nat>, b: nat)
    requires Reached(boot, acts, model) && OnlyMine(model.cache, c) && HoldsJust(model.cache, c, held) && b !in held
    ensures b in model.cache ==> model.cache[b].users == {} && model.cache[b].lock == Free
  {
    UsedIsReferenced(boot, acts, model);
    if b in model.cache {
      assert c !in model.cache[b].users;
      assert model.cache[b].users == {};
    }
  }

  lemma GotMine(cache: map<nat, Buf>, cache': map<nat, Buf>, c: Client, b: nat)
    requires OnlyMine(cache, c) && b in cache'
    requires forall x :: x in cache' && x != b ==> x in cache && cache'[x] == cache[x]
    requires cache'[b].users == (if b in cache then cache[b].users else {}) + {c}
    ensures OnlyMine(cache', c)
  {
  }

  lemma LockedMine(cache: map<nat, Buf>, cache1: map<nat, Buf>, cache2: map<nat, Buf>, c: Client, b: nat)
    requires OnlyMine(cache, c) && b in cache && cache1 == cache[b := cache[b].(lock := HeldBy(c))]
    requires b in cache2 && cache2 == cache1[b := cache1[b].(valid := true, data := cache2[b].data)]
    ensures OnlyMine(cache2, c)
  {
  }

  /** While the committing thread has at most `held`, there is a buffer for it. */
  lemma CommitterHasBuffer(boot: State, acts: seq<Action>, model: State, held: set<nat>)
    requires Reached(boot, acts, model) && OnlyMine(model.cache, Committer) && HoldsJust(model.cache, Committer, held)
    requires (if InRecovery(model.phase) then 0 else |model.list|) + |held| < NBUF
    ensures !NoBuffer(model.cache)
  {
    RunKeeps(boot, acts, model);
    SpareBuffer(model, Committer, held);
  }

  lemma CommitterHasNone(boot: State, acts: seq<Action>, model: State, b: nat)
    requires Reached(boot, acts, model) && model.phase.WritingLog? && |model.list| == NBUF && !Home(model.g, b)
    ensures NoBuffer(model.cache) && b !in model.cache
  {
    RunKeeps(boot, acts, model);
    CacheFits(boot, acts, model);
    FullHasNone(model, b);
  }

  /** The block of the next entry to be written or installed is in the cache. */
  lemma EntryIsCached(boot: State, acts: seq<Action>, model: State, i: nat)
    requires Reached(boot, acts, model) && i < |model.list| && Pinned(model.phase, model.list, model.list[i])
    ensures model.list[i] in model.cache
  {
    RunKeeps(boot, acts, model);
  }

  lemma FirstBuffer(boot: State, acts: seq<Action>, model: State, i: nat)
    requires Reached(boot, acts, model) && OnlyMine(model.cache, Committer) && HoldsJust(model.cache, Committer, {})
    requires i < |model.list| <= LOGBLOCKS
    ensures EntryFits(model, i) ==> !NoBuffer(model.cache)
    ensures model.phase.WritingLog? && |model.list| == NBUF ==>
              NoBuffer(model.cache) && model.g.start + 1 + i !in model.cache
  {
    if EntryFits(model, i) {
      CommitterHasBuffer(boot, acts, model, {});
    }
    if model.phase.WritingLog? && |model.list| == NBUF {
      CommitterHasNone(boot, acts, model, model.g.start + 1 + i);
    }
  }

  lemma SecondBuffer(boot: State, acts: seq<Action>, model: State, i: nat)
    requires Reached(boot, acts, model) && OnlyMine(model.cache, Committer)
    requires i < |model.list| && HoldsJust(model.cache, Committer, {model.g.start + 1 + i})
    ensures EntryFits(model, i) ==> model.list[i] in model.cache || !NoBuffer(model.cache)
  {
    if EntryFits(model, i) {
      if InRecovery(model.phase) {
        CommitterHasBuffer(boot, acts, model, {model.g.start + 1 + i});
      } else {
        EntryIsCached(boot, acts, model, i);
      }
    }
  }

  lemma HoldsBoth(cache: map<nat, Buf>, a: nat, b: nat)
    ensures {a} + {b} == {a, b}
    ensures HoldsJust(cache, Committer, {a} + {b}) ==> Holds(cache, Committer, a) && Holds(cache, Committer, b)
  {
    assert a in {a} + {b} && b in {a} + {b};
  }

  // ----- another thread's steps leave `c` undisturbed

  lemma OtherGot(c: Client, d: Client, cache: map<nat, Buf>, cache': map<nat, Buf>, b: nat)
    requires d != c && b in cache' && forall x :: x in cache && cache[x].refcnt == 0 ==> cache[x].users == {}
    requires b in cache ==>
               cache' == cache[b := cache[b].(refcnt := cache[b].refcnt + 1, users := cache[b].users + {d})]
    requires b !in cache ==> cache'[b].users == {d} && cache'[b].lock == Free
    requires forall x :: x in cache && cache[x].lock.HeldBy? ==> cache[x].lock.holder in cache[x].users
    requires forall x :: x in cache' && x != b ==> x in cache && cache'[x] == cache[x]
    requires forall x :: x in cache && x != b && x !in cache' ==> cache[x].refcnt == 0
    ensures Undisturbed(c, cache, cache')
  {
  }

  lemma OtherLocked(c: Client, d: Client, cache: map<nat, Buf>, b: nat)
    requires d != c && b in cache && cache[b].lock == Free
    ensures Undisturbed(c, cache, cache[b := cache[b].(lock := HeldBy(d))])
  {
  }

  lemma OtherFilled(c: Client, d: Client, cache: map<nat, Buf>, b: nat, data: Block)
    requires d != c && b in cache && cache[b].lock == HeldBy(d)
    ensures Undisturbed(c, cache, cache[b := cache[b].(valid := true, data := data)])
  {
  }

  lemma OtherPut(c: Client, d: Client, cache: map<nat, Buf>, b: nat)
    requires d != c && b in cache && cache[b].lock == HeldBy(d)
    ensures var f := cache[b];
            Undisturbed(c, cache, cache[b := f.(refcnt := f.refcnt - 1, users := f.users - {d}, lock := Free)])
  {
  }

  /** There are buffers for both blocks of entry `i`, which the committing thread is about to copy. */
  ghost predicate EntryFits(s: State, i: nat) {
    i < |s.list| && (InRecovery(s.phase) || (|s.list| < NBUF && Pinned(s.phase, s.list, s.list[i])))
  }

  /** There is a buffer for the header. */
  ghost predicate HeadFits(s: State) {
    InRecovery(s.phase) || |s.list| < NBUF
  }

  /** `c` has a reference to the buffer, and another client has its lock. */
  ghost predicate WaitsFor(cache: map<nat, Buf>, c: Client, b: nat) {
    b in cache && c in cache[b].users && cache[b].lock.HeldBy? && cache[b].lock.holder != c
  }

  class Log {
    const g: Geometry
    var disk: seq<Block>
    var cache: map<nat, Buf>
    var n: nat                // log.lh.n
    const block: array<nat>   // log.lh.block
    var outstanding: int
    var committing: bool
    var sched: seq<Action>    // what other threads are going to attempt

    ghost const boot: State
    ghost var acts: seq<Action>
    ghost var model: State

    ghost predicate Synced()
      reads this
    {
      && |disk| == g.size && g.start + LOGBLOCKS < g.size
      && model.g == g && model.disk == disk && model.cache == cache
      && model.outstanding == outstanding && model.committing == committing && !model.panicked
      && Reached(boot, acts, model)
    }

    ghost predicate Valid()
      reads this, block
    {
      Synced() && block.Length == LOGBLOCKS && n <= LOGBLOCKS && model.list == block[..n]
    }

    /** The running thread `c` holds the buffers of exactly the blocks in `held`; others may hold other
        buffers, and wait for these. */
    ghost predicate Holding(c: Client, held: set<nat>)
      reads this
    {
      HoldsJust(cache, c, held)
    }

    /** No other thread uses a buffer, or is going to. */
    ghost predicate Alone(c: Client)
      reads this
    {
      sched == [] && OnlyMine(cache, c)
    }

    /** Why bread fails: no buffer is left, or another client keeps the lock that `c` waits for. */
    ghost predicate Stuck(c: Client)
      reads this
    {
      NoBuffer(cache) || (sched == [] && exists b :: WaitsFor(cache, c, b))
    }

    /** A machine switched on with the given disk, which replays to `base`. */
    constructor (g: Geometry, disk: seq<Block>, ghost base: seq<Block>, others: seq<Action>)
      requires DiskOk(g, disk) && |base| == g.size && RecoversTo(g, disk, base)
      ensures this.g == g && this.disk == disk && fresh(block) && block.Length == LOGBLOCKS
      ensures cache == map[] && sched == others
      ensures Synced() && Holding(Committer, {}) && model.phase.Boot? && model.base == base && model.txns == []
    {
      this.g, this.disk, sched := g, disk, others;
      cache, n, outstanding, committing := map[], 0, 0, false;
      block := new nat[LOGBLOCKS];
      var s := State(g, disk, map[], [], 0, false, Boot, false, [], {}, [], [], base, {}, {});
      boot, acts, model := s, [], s;
    }

    /** Power loss at any point: what was in memory is gone. */
    method Crash()
      requires |disk| == g.size && g.start + LOGBLOCKS < g.size
      requires Reached(boot, acts, model) && model.g == g && model.disk == disk
      modifies this`cache, this`n, this`outstanding, this`committing, this`acts, this`model
      ensures Synced() && Holding(Committer, {}) && model.phase.Boot? && n == 0
      ensures model.base == old(model.base) && model.txns == old(model.txns) && cache == map[]
    {
      cache, n, outstanding, committing := map[], 0, 0, false;
      Take(Action.Crash);
    }

    ghost method Take(a: Action)
      requires Reached(boot, acts, model) && Enabled(model, a)
      modifies this`acts, this`model
      ensures Reached(boot, acts, model)
      ensures model == Next(old(model), a) && acts == old(acts) + [a]
    {
      LeadsOn(boot, acts, model, a);
      acts := acts + [a];
      model := Next(model, a);
    }

    /** bget up to its sleep lock: a hit, else an unused buffer, else one that nobody references. */
    method Bget(c: Client, b: nat) returns (ok: bool)
      requires Synced() && b < g.size && (c != Committer ==> Home(g, b))
      requires b in cache ==> c !in cache[b].users
      modifies this`cache, this`acts, this`model
      ensures Synced() && model == old(model).(cache := cache)
      ensures ok ==> b in cache
      ensures ok && b in old(cache) ==>
                cache == old(cache)[b := old(cache)[b].(refcnt := old(cache)[b].refcnt + 1, users := old(cache)[b].users
                                                        + {c})]
      ensures ok && b !in old(cache) ==> cache[b].users == {c} && cache[b].lock == Free
      ensures ok <==> b in old(cache) || !NoBuffer(old(cache))
      ensures !ok ==> cache == old(cache)
      ensures forall x :: x in cache && x != b ==> x in old(cache) && cache[x] == old(cache)[x]
      ensures forall x :: x in old(cache) && x != b && x !in cache ==> old(cache)[x].refcnt == 0
    {
      if b in cache {
        var f := cache[b];
        cache := cache[b := f.(refcnt := f.refcnt + 1, users := f.users + {c})];
        Take(Get(c, b, false, 0));
        ok := true;
      } else if |cache| < NBUF {
        cache := cache[b := Buf(seq(BLOCKWORDS, i => 0), false, 1, {c}, Free)];
        Take(Get(c, b, false, 0));
        ok := true;
      } else {
        ok := Recycle(c, b);
      }
    }

    /** bget's second loop, over the buffers that nobody references. */
    method Recycle(c: Client, b: nat) returns (ok: bool)
      requires Synced() && b < g.size && (c != Committer ==> Home(g, b)) && b !in cache
      modifies this`cache, this`acts, this`model
      ensures Synced() && model == old(model).(cache := cache)
      ensures ok ==> b in cache && cache[b].users == {c} && cache[b].lock == Free
      ensures ok <==> exists x :: x in old(cache) && old(cache)[x].refcnt == 0
      ensures !ok ==> cache == old(cache)
      ensures forall x :: x in cache && x != b ==> x in old(cache) && cache[x] == old(cache)[x]
      ensures forall x :: x in old(cache) && x !in cache ==> old(cache)[x].refcnt == 0
    {
      if victim :| victim in cache && cache[victim].refcnt == 0 {
        var f := cache[victim];
        cache := (cache - {victim})[b := Buf(f.data, false, 1, {c}, Free)];
        Take(Get(c, b, true, victim));
        return true;
      }
      return false;
    }

    /** bget's acquiresleep, once the lock is free. */
    method LockBuf(c: Client, b: nat)
      requires Synced() && b in cache && c in cache[b].users && cache[b].lock == Free
      modifies this`cache, this`acts, this`model
      ensures Synced() && model == old(model).(cache := cache)
      ensures cache == old(cache)[b := old(cache)[b].(lock := HeldBy(c))]
    {
      hide Reached;
      cache := cache[b := cache[b].(lock := HeldBy(c))];
      Take(Lock(c, b));
    }

    /** bread's read from the disk, if the buffer holds nothing yet. */
    method FillBuf(c: Client, b: nat)
      requires Synced() && b < g.size && b in cache && cache[b].lock == HeldBy(c)
      modifies this`cache, this`acts, this`model
      ensures Synced() && model == old(model).(cache := cache) && b in cache && cache[b].valid
      ensures cache == old(cache)[b := old(cache)[b].(valid := true, data := cache[b].data)]
      ensures old(cache)[b].valid ==> cache == old(cache)
    {
      hide Reached;
      if !cache[b].valid {
        cache := cache[b := cache[b].(data := disk[b], valid := true)];
        Take(Fill(c, b));
      }
    }

    /** brelse; a changed buffer is logged first. */
    method Put(c: Client, b: nat)
      requires Synced() && Holds(cache, c, b) && b !in model.dirty
      modifies this`cache, this`acts, this`model
      ensures Synced() && model == old(model).(cache := cache)
      ensures var f := old(cache)[b];
              cache == old(cache)[b := f.(refcnt := f.refcnt - 1, users := f.users - {c}, lock := Free)]
    {
      hide Reached;
      var f := cache[b];
      cache := cache[b := f.(refcnt := f.refcnt - 1, users := f.users - {c}, lock := Free)];
      Take(Release(c, b));
    }

    /** Another thread gets, locks, fills or releases a buffer, if it can. While operations execute they
        may hold changed buffers, so then only readers release here. */
    method OtherStep(c: Client, a: Action)
      requires Synced()
      modifies this`cache, this`acts, this`model
      ensures Synced() && model == old(model).(cache := cache) && Undisturbed(c, old(cache), cache)
    {
      hide Reached, Undisturbed;
      UsedIsReferenced(boot, acts, model);
      UndisturbedSame(c, cache);
      if a.Get? && a.c != c && a.b < g.size && (a.c != Committer ==> Home(g, a.b))
          && (a.b in cache ==> a.c !in cache[a.b].users) {
        var ok := Bget(a.c, a.b);
        if ok {
          OtherGot(c, a.c, old(cache), cache, a.b);
        }
      } else if a.Lock? && a.c != c && a.b in cache && a.c in cache[a.b].users && cache[a.b].lock == Free {
        LockBuf(a.c, a.b);
        OtherLocked(c, a.c, old(cache), a.b);
      } else if a.Fill? && a.c != c && a.b < g.size && a.b in cache && cache[a.b].lock == HeldBy(a.c) {
        FillBuf(a.c, a.b);
        OtherFilled(c, a.c, old(cache), a.b, cache[a.b].data);
      } else if a.Release? && a.c != c && Holds(cache, a.c, a.b) && (a.c.Reader? || outstanding == 0) {
        Put(a.c, a.b);
        OtherPut(c, a.c, old(cache), a.b);
      }
    }

    /** Any number of steps of other threads. */
    method Others(c: Client)
      requires Synced()
      modifies this`cache, this`acts, this`model, this`sched
      ensures Synced() && model == old(model).(cache := cache) && Undisturbed(c, old(cache), cache)
      ensures old(sched) == [] ==> sched == [] && cache == old(cache)
    {
      hide Reached, Undisturbed;
      var k: nat :| k <= |sched|;
      UndisturbedSame(c, cache);
      for i := 0 to k
        invariant k - i <= |sched| && Synced() && model == old(model).(cache := cache)
                  && Undisturbed(c, old(cache), cache)
        invariant old(sched) == [] ==> sched == [] && cache == old(cache)
      {
        ghost var cache1 := cache;
        OtherStep(c, sched[0]);
        UndisturbedOn(c, old(cache), cache1, cache);
        sched := sched[1..];
      }
    }

    /** acquiresleep: wait until the lock is free. False if it never is. */
    method AcquireSleep(c: Client, b: nat) returns (ok: bool)
      requires Synced() && b in cache && c in cache[b].users && cache[b].lock != HeldBy(c)
      modifies this`cache, this`acts, this`model, this`sched
      ensures Synced() && model == old(model).(cache := cache)
      ensures ok ==> b in cache && c in cache[b].users && cache[b].lock == HeldBy(c)
      ensures ok ==> Undisturbed(c, old(cache), cache[b := cache[b].(lock := Free)])
      ensures !ok ==> sched == [] && WaitsFor(cache, c, b)
      ensures old(sched) == [] ==> sched == [] && (old(cache)[b].lock == Free ==> ok)
      ensures old(sched) == [] ==>
                cache == if ok then old(cache)[b := old(cache)[b].(lock := HeldBy(c))] else old(cache)
    {
      hide Reached, Undisturbed;
      UndisturbedSame(c, cache);
      while b in cache && cache[b].lock != Free
        invariant Synced() && model == old(model).(cache := cache) && Undisturbed(c, old(cache), cache)
        invariant old(sched) == [] ==> sched == [] && cache == old(cache)
        decreases |sched|
      {
        if sched == [] {
          StillUsed(c, old(cache), cache, b);
          NotLocked(c, old(cache), cache, b);
          return false;
        }
        ghost var cache1 := cache;
        OtherStep(c, sched[0]);
        UndisturbedOn(c, old(cache), cache1, cache);
        sched := sched[1..];
      }
      StillUsed(c, old(cache), cache, b);
      ghost var cache1 := cache;
      LockBuf(c, b);
      assert cache[b := cache[b].(lock := Free)] == cache1;
      ok := true;
    }

    /** bget's acquiresleep and bread's read, for a buffer that `c` has got. */
    method LockFilled(c: Client, b: nat, ghost held: set<nat>) returns (ok: bool)
      requires Synced() && b < g.size && HoldsAnd(cache, c, held, b)
      modifies this`cache, this`acts, this`model, this`sched
      ensures Synced() && model == old(model).(cache := cache)
      ensures ok ==> Holding(c, held + {b})
      ensures !ok ==> sched == [] && WaitsFor(cache, c, b)
      ensures old(Alone(c)) && old(cache)[b].lock == Free ==> Alone(c) && ok
    {
      hide Reached, Undisturbed, HoldsJust, OnlyMine;
      ok := AcquireSleep(c, b);
      if ok {
        ghost var cache1 := cache;
        FillBuf(c, b);
        LockedMore(old(cache), cache1, cache, c, held, b);
        if old(Alone(c)) {
          LockedMine(old(cache), cache1, cache, c, b);
        }
      }
    }

    /** bread: get the buffer, lock it, and fill it from the disk, while other threads go on. Fails where the
        source panics for want of a buffer, or waits for ever; a thread that is alone with the cache fails
        exactly if there is no buffer for the block. */
    method Bread(c: Client, b: nat, ghost held: set<nat>) returns (ok: bool)
      requires Synced() && b < g.size && (c != Committer ==> Home(g, b))
      requires Holding(c, held) && b !in held
      modifies this`cache, this`acts, this`model, this`sched
      ensures Synced() && model == old(model).(cache := cache)
      ensures ok ==> Holding(c, held + {b})
      ensures !ok ==> Stuck(c)
      ensures old(Alone(c)) ==> Alone(c) && (ok <==> b in old(cache) || !NoBuffer(old(cache)))
    {
      hide Reached, Undisturbed, HoldsJust, NoBuffer, OnlyMine, HoldsAnd;
      Others(c);
      UndisturbedHolding(c, old(cache), cache, held);
      NotUsing(cache, c, held, b);
      UsedIsReferenced(boot, acts, model);
      ghost var cache1 := cache;
      if old(Alone(c)) {
        UnusedIsFree(boot, acts, model, c, held, b);
      }
      ok := Bget(c, b);
      if ok {
        GotMore(cache1, cache, c, held, b);
        if old(Alone(c)) {
          GotMine(cache1, cache, c, b);
        }
        ok := LockFilled(c, b, held);
      }
    }

    /** brelse, after anything others did meanwhile. */
    method Brelse(c: Client, b: nat, ghost held: set<nat>)
      requires Synced() && Holding(c, held) && b in held && b !in model.dirty
      modifies this`cache, this`acts, this`model, this`sched
      ensures Synced() && model == old(model).(cache := cache) && Holding(c, held - {b})
      ensures old(Alone(c)) ==> Alone(c)
    {
      hide Reached, Undisturbed;
      Others(c);
      UndisturbedHolding(c, old(cache), cache, held);
      Put(c, b);
    }

    /** The two buffers of one log entry, its log block and its home block. */
    method ReadEntry(i: nat) returns (ok: bool)
      requires Valid() && Holding(Committer, {}) && !model.phase.Running? && i < n
      modifies this`cache, this`acts, this`model, this`sched
      ensures Synced() && model == old(model).(cache := cache)
      ensures ok ==> Holding(Committer, {g.start + 1 + i, block[i]}) && HoldsEntry(model, i) && Home(g, block[i])
      ensures !ok ==> Stuck(Committer)
      ensures old(Alone(Committer)) ==> Alone(Committer) && (EntryFits(old(model), i) ==> ok)
      ensures old(Alone(Committer)) && model.phase.WritingLog? && n == NBUF ==> !ok
    {
      hide Reached, View, ApplyUpdates, HoldsJust, NoBuffer, OnlyMine, Pinned;
      NobodyElse(boot, acts, model);
      var from, to := g.start + 1 + i, block[i];
      assert model.list[i] == to;
      if Alone(Committer) {
        FirstBuffer(boot, acts, model, i);
      }
      ok := Bread(Committer, from, {});
      if ok {
        assert {} + {from} == {from};
        if Alone(Committer) {
          SecondBuffer(boot, acts, model, i);
        }
        ok := Bread(Committer, to, {from});
        HoldsBoth(cache, from, to);
      }
    }

    method ReleaseEntry(i: nat)
      requires Valid() && i < n && Home(g, block[i]) && model.dirty == {}
      requires Holding(Committer, {g.start + 1 + i, block[i]})
      modifies this`cache, this`acts, this`model, this`sched
      ensures Synced() && model == old(model).(cache := cache) && Holding(Committer, {})
      ensures old(Alone(Committer)) ==> Alone(Committer)
    {
      hide Reached, View, ApplyUpdates, OnlyMine;
      Brelse(Committer, g.start + 1 + i, {g.start + 1 + i, block[i]});
      Brelse(Committer, block[i], {g.start + 1 + i, block[i]} - {g.start + 1 + i});
      assert {g.start + 1 + i, block[i]} - {g.start + 1 + i} - {block[i]} == {};
    }

    /** write_head: the count and the first n entries of the header block, then one disk write.
        With entries it commits the open transaction; with n set to 0 it erases the log. */
    method WriteHead() returns (ok: bool)
      requires Synced() && Holding(Committer, {}) && block.Length == LOGBLOCKS && n <= LOGBLOCKS
      requires (model.phase == WritingLog(n) && n > 0 && model.list == block[..n])
            || ((model.phase.Installing? || model.phase.Recovering?) && model.phase.tail == |model.list| && n == 0)
      modifies this`cache, this`disk, this`acts, this`model, this`sched
      ensures ok ==> Valid() && Holding(Committer, {})
      ensures ok && n > 0 ==> CommittedFrom(old(model), model)
      ensures ok && n == 0 ==> ErasedFrom(old(model), model)
      ensures Synced() && (!ok ==> Stuck(Committer))
      ensures old(Alone(Committer)) ==> Alone(Committer) && (HeadFits(old(model)) ==> ok)
    {
      hide Reached, ApplyUpdates, HoldsJust, NoBuffer, OnlyMine;
      NobodyElse(boot, acts, model);
      if HeadFits(model) && Alone(Committer) {
        CommitterHasBuffer(boot, acts, model, {});
      }
      ok := Bread(Committer, g.start, {});
      if !ok {
        return;
      }
      PutHead();
      Brelse(Committer, g.start, {g.start});
      assert {g.start} - {g.start} == {};
    }

    /** The copy into the header buffer. */
    method EncodeHead() returns (h: Block)
      requires Synced() && Holds(cache, Committer, g.start) && block.Length == LOGBLOCKS && n <= LOGBLOCKS
      ensures h == EncodeHeader(cache[g.start].data, block[..n])
    {
      hide Reached;
      h := cache[g.start].data;
      h := h[0 := n];
      for i := 0 to n
        invariant h[0] == n && |h| == BLOCKWORDS
        invariant forall j :: 0 <= j < i ==> h[1 + j] == block[j]
        invariant forall j :: i < j < BLOCKWORDS ==> h[j] == cache[g.start].data[j]
      {
        h := h[1 + i := block[i]];
      }
    }

    /** The copy into the header buffer and its bwrite. */
    method PutHead()
      requires Synced() && Holding(Committer, {g.start}) && block.Length == LOGBLOCKS && n <= LOGBLOCKS
      requires (model.phase == WritingLog(n) && n > 0 && model.list == block[..n])
            || ((model.phase.Installing? || model.phase.Recovering?) && model.phase.tail == |model.list| && n == 0)
      modifies this`cache, this`disk, this`acts, this`model
      ensures Valid() && Holding(Committer, {g.start})
      ensures n > 0 ==> CommittedFrom(old(model), model)
      ensures n == 0 ==> ErasedFrom(old(model), model)
      ensures old(Alone(Committer)) ==> Alone(Committer)
    {
      hide Reached, HoldsJust, EncodeHeader, ApplyUpdates;
      HoldsThis(cache, Committer, {g.start}, g.start);
      var h := EncodeHead();
      HoldsChanged(cache, Committer, {g.start}, g.start, cache[g.start].(data := h));
      cache := cache[g.start := cache[g.start].(data := h)];
      disk := disk[g.start := h];
      if n > 0 {
        Take(CommitHead);
      } else {
        assert block[..n] == [];
        Take(ClearHead);
      }
    }

    /** One turn of write_log: copy a logged block from the cache into the log. */
    method WriteLogEntry(tail: nat) returns (ok: bool)
      requires Valid() && Holding(Committer, {}) && tail < n && model.phase == WritingLog(tail)
      modifies this`cache, this`disk, this`acts, this`model, this`sched
      ensures ok ==>
                Valid() && Holding(Committer, {})
                    && model == old(model).(cache := cache, disk := disk, phase := WritingLog(tail + 1))
      ensures Synced() && (!ok ==> Stuck(Committer))
      ensures old(Alone(Committer)) ==> Alone(Committer) && (ok <==> n < NBUF)
    {
      hide Reached, View, ApplyUpdates;
      NobodyElse(boot, acts, model);
      ok := ReadEntry(tail);
      if !ok {
        return;
      }
      CopyCacheToLog(tail);
      ReleaseEntry(tail);
    }

    /** memmove and bwrite of write_log */
    method CopyCacheToLog(tail: nat)
      requires Valid() && tail < n && model.phase == WritingLog(tail)
      requires Holding(Committer, {g.start + 1 + tail, block[tail]}) && HoldsEntry(model, tail)
      modifies this`cache, this`disk, this`acts, this`model, this`sched
      ensures Valid() && Holding(Committer, {g.start + 1 + tail, block[tail]})
      ensures model == old(model).(cache := cache, disk := disk, phase := WritingLog(tail + 1))
      ensures old(Alone(Committer)) ==> Alone(Committer)
    {
      hide Reached, View, ApplyUpdates, HoldsJust;
      var to, from := g.start + 1 + tail, block[tail];
      var data := cache[from].data;
      HoldsChanged(cache, Committer, {to, from}, to, cache[to].(data := data));
      cache := cache[to := cache[to].(data := data)];
      disk := disk[to := data];
      Take(CopyToLog);
    }

    method WriteLog() returns (ok: bool)
      requires Valid() && Holding(Committer, {}) && model.phase == WritingLog(0)
      modifies this`cache, this`disk, this`acts, this`model, this`sched
      ensures ok ==>
                Valid() && Holding(Committer, {})
                    && model == old(model).(cache := cache, disk := disk, phase := WritingLog(n))
      ensures Synced() && (!ok ==> Stuck(Committer))
      ensures old(Alone(Committer)) ==> Alone(Committer) && (ok <==> n < NBUF)
    {
      hide Reached, View, ApplyUpdates;
      ok := true;
      for tail := 0 to n
        invariant Valid() && Holding(Committer, {})
                  && model == old(model).(cache := cache, disk := disk, phase := WritingLog(tail))
        invariant ok && (old(Alone(Committer)) ==> Alone(Committer) && (tail > 0 ==> n < NBUF))
      {
        ok := WriteLogEntry(tail);
        if !ok {
          return;
        }
      }
    }

    /** One turn of install_trans: copy a log block to its home; after a commit, drop its pin. */
    method InstallEntry(tail: nat, recovering: bool) returns (ok: bool)
      requires Valid() && Holding(Committer, {}) && tail < n
      requires model.phase == if recovering then Recovering(tail) else Installing(tail)
      modifies this`cache, this`disk, this`acts, this`model, this`sched
      ensures ok ==> Valid() && Holding(Committer, {})
      ensures ok ==> model == old(model).(cache := cache, disk := disk,
                                          phase := if recovering then Recovering(tail + 1) else Installing(tail + 1))
      ensures Synced() && (!ok ==> Stuck(Committer))
      ensures old(Alone(Committer)) ==> Alone(Committer) && (recovering || n < NBUF ==> ok)
    {
      hide Reached, View, ApplyUpdates;
      NobodyElse(boot, acts, model);
      ok := ReadEntry(tail);
      if !ok {
        return;
      }
      CopyLogHome(tail, recovering);
      ReleaseEntry(tail);
    }

    /** memmove, bwrite and bunpin of install_trans */
    method CopyLogHome(tail: nat, recovering: bool)
      requires Valid() && tail < n
      requires model.phase == if recovering then Recovering(tail) else Installing(tail)
      requires Holding(Committer, {g.start + 1 + tail, block[tail]}) && HoldsEntry(model, tail)
      modifies this`cache, this`disk, this`acts, this`model, this`sched
      ensures Valid() && Holding(Committer, {g.start + 1 + tail, block[tail]})
      ensures model == old(model).(cache := cache, disk := disk,
                                   phase := if recovering then Recovering(tail + 1) else Installing(tail + 1))
      ensures old(Alone(Committer)) ==> Alone(Committer)
    {
      hide Reached, View, ApplyUpdates, HoldsJust;
      var lbuf, dbuf := g.start + 1 + tail, block[tail];
      var f := cache[dbuf].(data := cache[lbuf].data);
      HoldsChanged(cache, Committer, {lbuf, dbuf}, dbuf, if !recovering then f.(refcnt := f.refcnt - 1) else f);
      disk := disk[dbuf := f.data];
      cache := cache[dbuf := if !recovering then f.(refcnt := f.refcnt - 1) else f];
      Take(CopyHome);
    }

    method InstallTrans(recovering: bool) returns (ok: bool)
      requires Valid() && Holding(Committer, {})
      requires model.phase == if recovering then Recovering(0) else Installing(0)
      modifies this`cache, this`disk, this`acts, this`model, this`sched
      ensures ok ==> Valid() && Holding(Committer, {})
      ensures ok ==> model == old(model).(cache := cache, disk := disk,
                                          phase := if recovering then Recovering(n) else Installing(n))
      ensures Synced() && (!ok ==> Stuck(Committer))
      ensures old(Alone(Committer)) ==> Alone(Committer) && (recovering || n < NBUF ==> ok)
    {
      hide Reached, View, ApplyUpdates;
      ok := true;
      for tail := 0 to n
        invariant Valid() && Holding(Committer, {})
        invariant model == old(model).(cache := cache, disk := disk,
                                       phase := if recovering then Recovering(tail) else Installing(tail))
        invariant ok && (old(Alone(Committer)) ==> Alone(Committer))
      {
        ok := InstallEntry(tail, recovering);
        if !ok {
          return;
        }
      }
    }

    /** commit: afterwards the log is empty again and the home blocks hold what the open
        transaction saw. Alone with the cache it fails exactly if the log has as many blocks as the cache. */
    method Commit() returns (ok: bool)
      requires Valid() && Holding(Committer, {}) && model.phase == WritingLog(0)
      modifies this`cache, this`disk, this`n, this`acts, this`model, this`sched
      ensures ok ==> Valid() && Holding(Committer, {}) && n == 0 && CanFinish(model)
      ensures ok ==>
                forall b: nat :: Home(g, b) ==> b < |disk| && b < |View(old(model))| && disk[b] == View(old(model))[b]
      ensures ok ==> model.txns == if old(n) == 0 then old(model.txns) else old(model.txns) + [old(model.cur)]
      ensures ok ==> model.base == View(old(model)) && model.cur == [] && SameControl(old(model), model)
      ensures Synced() && (!ok ==> Stuck(Committer))
      ensures old(Alone(Committer)) ==> Alone(Committer) && (ok <==> old(n) < NBUF)
    {
      hide Reached, ApplyUpdates, HoldsJust;
      NobodyElse(boot, acts, model);
      ok := true;
      if n > 0 {
        ok := WriteLog();
        if !ok {
          return;
        }
        ok := WriteHead();
        if !ok {
          return;
        }
        ok := InstallTrans(false);
        if !ok {
          return;
        }
        n := 0;
        ok := WriteHead();
        if !ok {
          return;
        }
      } else {
        assert block[..n] == [];
        NothingLogged(boot, acts, model);
      }
      HomesAreBase(boot, acts, model);
    }

    /** read_head's loop: the list in memory becomes that of the header. */
    method CopyHead(h: Block)
      requires block.Length == LOGBLOCKS && HeaderFits(h)
      modifies this`n, block
      ensures n <= LOGBLOCKS && block[..n] == HeaderList(h)
    {
      n := h[0];
      for i := 0 to n
        invariant forall j :: 0 <= j < i ==> block[j] == h[1 + j]
        modifies block
      {
        block[i] := h[1 + i];
      }
    }

    /** read_head */
    method ReadHeader() returns (ok: bool)
      requires Synced() && Holding(Committer, {}) && block.Length == LOGBLOCKS && model.phase.Boot?
      modifies this`cache, this`n, this`acts, this`model, block, this`sched
      ensures ok ==> Valid() && Holding(Committer, {})
      ensures ok ==> model == old(model).(cache := cache, list := block[..n], phase := Recovering(0))
      ensures Synced() && (!ok ==> Stuck(Committer))
      ensures old(Alone(Committer)) ==> Alone(Committer) && ok
    {
      hide Reached, View, ApplyUpdates, HoldsJust, NoBuffer, OnlyMine;
      NobodyElse(boot, acts, model);
      if Alone(Committer) {
        CommitterHasBuffer(boot, acts, model, {});
      }
      ok := Bread(Committer, g.start, {});
      if !ok {
        return;
      }
      assert {} + {g.start} == {g.start};
      HoldsThis(cache, Committer, {g.start}, g.start);
      HeadCounts(boot, acts, model);
      CopyHead(cache[g.start].data);
      Take(ReadHead);
      Brelse(Committer, g.start, {g.start});
      assert {g.start} - {g.start} == {};
    }

    /** recover_from_log: whatever the crash left, the home blocks end as the committed contents. */
    method RecoverFromLog() returns (ok: bool)
      requires Synced() && Holding(Committer, {}) && block.Length == LOGBLOCKS && model.phase.Boot?
      modifies this`cache, this`disk, this`n, this`acts, this`model, block, this`sched
      ensures ok ==> Valid() && Holding(Committer, {}) && n == 0 && model.phase.Running?
      ensures ok ==> model.txns == old(model.txns) && model.base == old(model.base)
      ensures ok ==> forall b: nat :: Home(g, b) ==> b < |disk| && b < |model.base| && disk[b] == model.base[b]
      ensures Synced() && (!ok ==> Stuck(Committer))
      ensures old(Alone(Committer)) ==> Alone(Committer) && ok
    {
      hide Reached, View, ApplyUpdates;
      ok := ReadHeader();
      if !ok {
        return;
      }
      ok := InstallTrans(true);
      if !ok {
        return;
      }
      n := 0;
      ok := WriteHead();
      if !ok {
        return;
      }
      HomesAreBase(boot, acts, model);
    }

    /** begin_op, one turn of its loop: false means that the caller sleeps. */
    method BeginOp(c: Client) returns (ok: bool)
      requires Valid() && !InRecovery(model.phase) && c.Operation? && c !in model.began
      modifies this`outstanding, this`acts, this`model
      ensures Valid()
      ensures ok <==> !committing && n + (old(outstanding) + 1) * MAXOPBLOCKS <= LOGBLOCKS
      ensures model == if ok then DoBegin(old(model), c) else old(model)
    {
      if committing {
        return false;
      } else if n + (outstanding + 1) * MAXOPBLOCKS > LOGBLOCKS {
        return false;
      }
      outstanding := outstanding + 1;
      Take(Begin(c));
      return true;
    }

    /** end_op: the last operation out commits. It fails only where a bread of the commit does; alone with
        the cache, exactly if it is the last and the log has as many blocks as the cache. */
    method EndOp(c: Client) returns (ok: bool)
      requires Valid() && Holding(Committer, {}) && model.phase.Running? && CanEnd(model, c)
      modifies this`cache, this`disk, this`n, this`outstanding, this`committing, this`acts, this`model, this`sched
      ensures ok ==> Valid() && Holding(Committer, {}) && model.phase.Running? && outstanding == old(outstanding) - 1
      ensures ok && outstanding > 0 ==> model == DoEnd(old(model), c)
      ensures ok && outstanding == 0 ==> n == 0 && !committing && model.cur == []
      ensures ok && outstanding == 0 ==>
                forall b: nat :: Home(g, b) ==> b < |disk| && b < |View(old(model))| && disk[b] == View(old(model))[b]
      ensures ok && outstanding == 0 ==>
                model.txns == if old(n) == 0 then old(model.txns) else old(model.txns) + [old(model.cur)]
      ensures Synced() && outstanding == old(outstanding) - 1 && (!ok ==> outstanding == 0 && Stuck(Committer))
      ensures old(Alone(Committer)) ==> Alone(Committer) && (ok <==> outstanding > 0 || old(n) < NBUF)
    {
      hide Reached, ApplyUpdates, HoldsJust, Drop, FindOp;
      RunningIsNotCommitting(boot, acts, model);
      SomeoneOutstanding(boot, acts, model, c);
      outstanding := outstanding - 1;
      if outstanding == 0 {
        committing := true;
      }
      Take(End(c));
      ok := true;
      if committing {
        ok := CommitLast();
      }
    }

    /** end_op's second half. */
    method CommitLast() returns (ok: bool)
      requires Valid() && Holding(Committer, {}) && model.phase == WritingLog(0) && committing
      modifies this`cache, this`disk, this`n, this`committing, this`acts, this`model, this`sched
      ensures ok ==>
                Valid() && Holding(Committer, {}) && model.phase.Running? && n == 0 && !committing && model.cur == []
      ensures ok ==>
                forall b: nat :: Home(g, b) ==> b < |disk| && b < |View(old(model))| && disk[b] == View(old(model))[b]
      ensures ok ==> model.txns == if old(n) == 0 then old(model.txns) else old(model.txns) + [old(model.cur)]
      ensures Synced() && (!ok ==> Stuck(Committer))
      ensures old(Alone(Committer)) ==> Alone(Committer) && (ok <==> old(n) < NBUF)
    {
      hide Reached, View, HoldsJust;
      ok := Commit();
      if ok {
        committing := false;
        Take(Finish);
      }
    }

    /** log_write: absorb a block that is already logged, else pin it and append it. False is the
        panic on a full log. */
    method LogWrite(c: Client, b: nat) returns (ok: bool)
      requires Valid() && CanLogWrite(model, c, b)
      modifies this`cache, this`n, this`acts, this`model, block, this`sched
      ensures ok <==> old(n) < LOGBLOCKS
      ensures ok ==> Valid() && model == DoLogWrite(old(model), c, b)
      ensures ok ==> block[..n] == if b in old(block[..n]) then old(block[..n]) else old(block[..n]) + [b]
    {
      hide Reached, View, ApplyUpdates;
      SomeoneOutstanding(boot, acts, model, c);
      if n >= LOGBLOCKS || outstanding < 1 {
        return false;
      }
      ghost var list := block[..n];
      var i := 0;
      while i < n
        invariant 0 <= i <= n
        invariant forall j :: 0 <= j < i ==> block[j] != b
      {
        if block[i] == b {
          break;
        }
        i := i + 1;
      }
      assert i < n ==> list[i] == b;
      assert i == n ==> b !in list;
      block[i] := b;
      if i == n {
        cache := cache[b := cache[b].(refcnt := cache[b].refcnt + 1)];
        n := n + 1;
      }
      assert block[..n] == if b in list then list else list + [b];
      Take(Action.LogWrite(c, b));
      return true;
    }

    /** `t` is `s` after the commit record of its open transaction reached the disk. */
    static ghost predicate CommittedFrom(s: State, t: State) {
      && t.txns == s.txns + [s.cur] && t.base == View(s) && t.cur == []
      && t.phase == Installing(0) && t.list == s.list && SameControl(s, t)
    }

    static ghost predicate ErasedFrom(s: State, t: State) {
      && t.txns == s.txns && t.base == s.base && t.cur == s.cur
      && t.phase == (if s.phase.Installing? then Cleared else Running) && t.list == [] && SameControl(s, t)
    }

    static ghost predicate SameControl(s: State, t: State) {
      t.ops == s.ops && t.dirty == s.dirty && t.began == s.began && t.ended == s.ended
    }
  }
}
