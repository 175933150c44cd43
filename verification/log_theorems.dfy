/** What the log protocol promises over whole runs. */
module LogTheorems {
  import opened Param
  import opened LogModel
  import opened LogSafety

  /** A machine about to boot from a disk whose log is well formed and replays to `base`. */
  ghost predicate Init(s: State) {
    && DiskOk(s.g, s.disk) && |s.base| == s.g.size && RecoversTo(s.g, s.disk, s.base)
    && s.cache == map[] && s.list == [] && s.outstanding == 0 && !s.committing && s.phase == Boot && !s.panicked
    && s.ops == [] && s.dirty == {} && s.cur == [] && s.txns == [] && s.began == {} && s.ended == {}
  }

  /** `acts`, taken one after the other from `s`, end in `t`. */
  ghost predicate Leads(s: State, acts: seq<Action>, t: State)
    decreases |acts|
  {
    if acts == [] then s == t
    else Enabled(s, acts[0]) && Leads(Next(s, acts[0]), acts[1..], t)
  }

  /** How often the first write_head of a commit reached the disk. */
  function Commits(acts: seq<Action>): (n: nat) {
    if acts == [] then 0 else (if acts[0].CommitHead? then 1 else 0) + Commits(acts[1..])
  }

  lemma InitEstablishes(s: State)
    requires Init(s)
    ensures Inv(s)
  {
  }

  /** Only the first write_head of a commit moves the specification, by exactly the open transaction. */
  lemma {:induction false} StepHistory(s: State, a: Action, origin: seq<Block>)
    requires Enabled(s, a) && s.base == Replay(origin, s.txns)
    ensures Next(s, a).g == s.g
    ensures Next(s, a).txns == if a.CommitHead? then s.txns + [s.cur] else s.txns
    ensures Next(s, a).base == Replay(origin, Next(s, a).txns)
  {
    if a.CommitHead? {
      assert (s.txns + [s.cur])[..|s.txns|] == s.txns;
    }
  }

  lemma {:induction false} RunKeepsInv(s: State, acts: seq<Action>, t: State)
    requires Inv(s) && Leads(s, acts, t)
    ensures Inv(t)
    decreases |acts|
  {
    if acts != [] {
      StepKeeps(s, acts[0]);
      RunKeepsInv(Next(s, acts[0]), acts[1..], t);
    }
  }

  lemma {:induction false} RunHistory(s: State, acts: seq<Action>, t: State, origin: seq<Block>)
    requires Leads(s, acts, t) && s.base == Replay(origin, s.txns)
    ensures t.g == s.g
    ensures s.txns <= t.txns && |t.txns| == |s.txns| + Commits(acts)
    ensures t.base == Replay(origin, t.txns)
    decreases |acts|
  {
    if acts != [] {
      StepHistory(s, acts[0], origin);
      RunHistory(Next(s, acts[0]), acts[1..], t, origin);
    }
  }

  lemma {:induction false} RunKeeps(s: State, acts: seq<Action>, t: State)
    requires Init(s) && Leads(s, acts, t)
    ensures Inv(t) && t.g == s.g && |t.txns| == Commits(acts) && t.base == Replay(s.base, t.txns)
  {
    InitEstablishes(s);
    RunKeepsInv(s, acts, t);
    RunHistory(s, acts, t, s.base);
  }

  /** Crash atomicity. Wherever a run stops (a crash is a step too, and may fall between any two disk
      writes of a commit or of an earlier recovery), replaying the log on the disk gives the
      contents after a whole number of transactions: those whose first write_head was done.
      Once recovery has finished, the home blocks themselves hold those contents. */
  lemma {:induction false} CrashAtomicity(s: State, acts: seq<Action>, t: State)
    requires Init(s) && Leads(s, acts, t)
    ensures |t.txns| == Commits(acts)
    ensures DiskOk(s.g, t.disk) && |Replay(s.base, t.txns)| == |t.disk|
    ensures RecoversTo(s.g, t.disk, Replay(s.base, t.txns))
    ensures t.phase.Running? ==> forall b: nat :: Home(s.g, b) ==> t.disk[b] == Replay(s.base, t.txns)[b]
  {
    RunKeeps(s, acts, t);
  }

  /** Replaying a history is replaying its first part and then the rest. */
  lemma {:induction false} ReplaySplits(d: seq<Block>, txns: seq<seq<Update>>, n: nat)
    requires n <= |txns|
    ensures Replay(d, txns) == Replay(Replay(d, txns[..n]), txns[n..])
    decreases |txns|
  {
    if n == |txns| {
      assert txns[..n] == txns && txns[n..] == [];
    } else {
      var k := |txns| - 1;
      ReplaySplits(d, txns[..k], n);
      assert txns[..k][..n] == txns[..n] && txns[..k][n..] == txns[n..][..k - n];
    }
  }

  lemma {:induction false} ApplyAgrees(d: seq<Block>, e: seq<Block>, us: seq<Update>, b: nat)
    requires |d| == |e| && b < |d| && d[b] == e[b]
    ensures ApplyUpdates(d, us)[b] == ApplyUpdates(e, us)[b]
  {
    if us != [] {
      ApplyAgrees(d, e, us[..|us| - 1], b);
    }
  }

  lemma {:induction false} ReplayAgrees(d: seq<Block>, e: seq<Block>, txns: seq<seq<Update>>, b: nat)
    requires |d| == |e| && b < |d| && d[b] == e[b]
    ensures Replay(d, txns)[b] == Replay(e, txns)[b]
  {
    if txns != [] {
      var k := |txns| - 1;
      ReplayAgrees(d, e, txns[..k], b);
      ApplyAgrees(Replay(d, txns[..k]), Replay(e, txns[..k]), txns[k], b);
    }
  }

  /** Two contents that a disk recovers to differ at most inside the log. */
  lemma RecoveryIsUnique(g: Geometry, disk: seq<Block>, v: seq<Block>, w: seq<Block>, b: nat)
    requires DiskOk(g, disk) && |v| == |w| == |disk| && RecoversTo(g, disk, v) && RecoversTo(g, disk, w) && Home(g, b)
    ensures v[b] == w[b]
  {
    var l := HeaderList(disk[g.start]);
    if b in l {
      var i :| 0 <= i < |l| && l[i] == b;
      assert v[l[i]] == disk[g.start + 1 + i] == w[l[i]];
    }
  }

  ghost predicate SameHomes(g: Geometry, v: seq<Block>, w: seq<Block>) {
    |v| == |w| == g.size && forall b: nat :: Home(g, b) ==> v[b] == w[b]
  }

  lemma RecoversAlike(g: Geometry, disk: seq<Block>, v: seq<Block>, w: seq<Block>)
    requires DiskOk(g, disk) && |v| == |disk| && RecoversTo(g, disk, v) && SameHomes(g, v, w)
    ensures RecoversTo(g, disk, w)
  {
  }

  /** What the invariant says about the disk. */
  lemma DiskHolds(s: State)
    requires Inv(s)
    ensures DiskOk(s.g, s.disk) && |s.base| == |s.disk| == s.g.size && RecoversTo(s.g, s.disk, s.base)
    ensures s.phase.Running? ==> SameHomes(s.g, s.disk, s.base)
  {
  }

  lemma LaterAgrees(g: Geometry, disk: seq<Block>, v: seq<Block>, w: seq<Block>, later: seq<seq<Update>>)
    requires DiskOk(g, disk) && |v| == |w| == |disk| && RecoversTo(g, disk, v) && RecoversTo(g, disk, w)
    ensures SameHomes(g, Replay(w, later), Replay(v, later))
  {
    forall b: nat | Home(g, b) ensures Replay(w, later)[b] == Replay(v, later)[b] {
      RecoveryIsUnique(g, disk, v, w, b);
      ReplayAgrees(w, v, later, b);
    }
  }

  /** Durability. Whatever happens after a point of a run, crashes included, the disk recovers to what it
      recovered to at that point followed by the transactions committed since, and the home blocks hold
      that once the log is idle: nothing committed is lost, reordered or done twice. */
  lemma {:induction false} Durability(s: State, acts: seq<Action>, t: State, more: seq<Action>, u: State, v: seq<Block>)
    requires Init(s) && Leads(s, acts, t) && Leads(t, more, u)
    ensures t.txns <= u.txns && |u.txns| == |t.txns| + Commits(more)
    ensures DiskOk(s.g, t.disk) && DiskOk(s.g, u.disk) && |u.disk| == |t.disk|
    ensures |v| == |t.disk| && RecoversTo(s.g, t.disk, v) ==> RecoversTo(s.g, u.disk, Replay(v, u.txns[|t.txns|..]))
    ensures |v| == |t.disk| && RecoversTo(s.g, t.disk, v) && u.phase.Running? ==>
              forall b: nat :: Home(s.g, b) ==> u.disk[b] == Replay(v, u.txns[|t.txns|..])[b]
  {
    hide Inv, Init, Leads, DiskOk, RecoversTo, Home;
    RunKeeps(s, acts, t);
    RunHistory(t, more, u, s.base);
    RunKeepsInv(t, more, u);
    DiskHolds(t);
    DiskHolds(u);
    if |v| == |t.disk| && RecoversTo(s.g, t.disk, v) {
      var later := u.txns[|t.txns|..];
      assert u.txns[..|t.txns|] == t.txns;
      ReplaySplits(s.base, u.txns, |t.txns|);
      LaterAgrees(s.g, t.disk, v, t.base, later);
      RecoversAlike(s.g, u.disk, u.base, Replay(v, later));
    }
  }

  /** A committed transaction holds only operations that had ended, and an operation's updates are
      never divided between two transactions. */
  lemma {:induction false} OperationsAreAtomic(s: State, acts: seq<Action>, t: State)
    requires Init(s) && Leads(s, acts, t)
    ensures forall i, x :: 0 <= i < |t.txns| && 0 <= x < |t.txns[i]| ==>
              t.txns[i][x].op in t.ended && !Active(t.ops, t.txns[i][x].op)
    ensures forall i, j, x, y :: 0 <= i < j < |t.txns| && 0 <= x < |t.txns[i]| && 0 <= y < |t.txns[j]| ==>
              t.txns[i][x].op != t.txns[j][y].op
  {
    RunKeeps(s, acts, t);
    forall i, x | 0 <= i < |t.txns| && 0 <= x < |t.txns[i]|
      ensures t.txns[i][x].op in t.ended && !Active(t.ops, t.txns[i][x].op)
    {
      assert Mentions(t.txns, t.txns[i][x].op);
    }
  }

  /** Outside recovery and installation the home blocks on disk are the committed ones. */
  lemma HomeIsBase(s: State, b: nat)
    requires Inv(s) && Home(s.g, b) && (s.phase.Running? || s.phase.WritingLog? || s.phase.Cleared?)
    ensures b < |s.disk| && s.disk[b] == s.base[b]
  {
  }

  lemma PinnedIsCached(s: State, b: nat)
    requires Inv(s) && Pinned(s.phase, s.list, b)
    ensures b in s.cache && s.cache[b].valid && b < |s.disk| && Home(s.g, b) && s.cache[b].data == View(s)[b]
  {
    var i :| 0 <= i < |s.list| && s.list[i] == b;
    assert Pinned(s.phase, s.list, s.list[i]);
  }

  /** A client that holds a home block sees the committed history overlaid with the open transaction, in
      every phase outside recovery. While nothing is being installed that is the disk overlaid with the
      open transaction. Every logged block is cached with those contents until it is installed, whatever
      was read meanwhile. */
  lemma {:induction false} CachedReadIsOverlay(s: State, acts: seq<Action>, t: State, c: Client, b: nat)
    requires Init(s) && Leads(s, acts, t)
    ensures |Replay(s.base, t.txns)| == |t.disk|
    ensures Holds(t.cache, c, b) && Home(s.g, b) && !InRecovery(t.phase) ==>
              b < |t.disk| && t.cache[b].data == ApplyUpdates(Replay(s.base, t.txns), t.cur)[b]
    ensures Holds(t.cache, c, b) && Home(s.g, b) && !t.phase.Installing? ==>
              b < |t.disk| && t.cache[b].data == ApplyUpdates(t.disk, t.cur)[b]
    ensures Pinned(t.phase, t.list, b) ==>
              b in t.cache && t.cache[b].valid && b < |t.disk|
                  && t.cache[b].data == ApplyUpdates(Replay(s.base, t.txns), t.cur)[b]
  {
    RunKeeps(s, acts, t);
    if Pinned(t.phase, t.list, b) {
      PinnedIsCached(t, b);
    }
    if b < |t.disk| && Home(s.g, b) && !InRecovery(t.phase) && !t.phase.Installing? {
      HomeIsBase(t, b);
      ApplyAgrees(t.base, t.disk, t.cur, b);
    }
  }

  /** The last update of a block decides its contents. */
  lemma {:induction false} LastUpdateDecides(d: seq<Block>, us: seq<Update>, j: nat)
    requires j < |us| && us[j].block < |d| && forall k :: j < k < |us| ==> us[k].block != us[j].block
    ensures ApplyUpdates(d, us)[us[j].block] == us[j].data
    decreases |us|
  {
    if j < |us| - 1 {
      LastUpdateDecides(d, us[..|us| - 1], j);
    }
  }

  lemma LoggedSoFar(s: State)
    requires Inv(s) && s.phase.WritingLog?
    ensures s.g.start + LOGBLOCKS < |s.disk| == |s.base| && s.phase.tail <= |s.list| <= LOGBLOCKS
    ensures forall i :: 0 <= i < |s.list| ==> s.list[i] < |s.disk|
    ensures forall i :: 0 <= i < s.phase.tail ==> s.disk[s.g.start + 1 + i] == ApplyUpdates(s.base, s.cur)[s.list[i]]
    ensures forall j :: 0 <= j < |s.cur| ==> s.cur[j].block in s.list && s.cur[j].block < |s.base|
  {
  }

  /** write_log captures, for each block it has copied, the last update that any operation made to it; and
      whatever the open transaction changed is listed to be copied. */
  lemma {:induction false} WriteLogCapturesLast(s: State, acts: seq<Action>, t: State, j: nat)
    requires Init(s) && Leads(s, acts, t) && t.phase.WritingLog?
    requires j < |t.cur| && forall k :: j < k < |t.cur| ==> t.cur[k].block != t.cur[j].block
    ensures t.cur[j].block in t.list && s.g.start + LOGBLOCKS < |t.disk| && |t.list| <= LOGBLOCKS
    ensures forall i :: 0 <= i < t.phase.tail && i < |t.list| && t.list[i] == t.cur[j].block ==>
              t.disk[s.g.start + 1 + i] == t.cur[j].data
  {
    hide Inv, Init, Leads;
    RunKeeps(s, acts, t);
    LoggedSoFar(t);
    LastUpdateDecides(t.base, t.cur, j);
  }

  lemma {:induction false} NoneUnused(ops: seq<Op>, k: nat)
    requires OpsOk(ops) && Unused(ops) <= 0 && k < |ops|
    ensures ops[k].used == MAXOPBLOCKS
  {
    UnusedDrop(ops, k);
    DropOps(ops, k);
    UnusedBound(Drop(ops, k));
  }

  /** If no operation adds more than MAXOPBLOCKS block numbers, the log never overflows, its entries
      are distinct, and the only panic left is log_write finding it full. That takes every executing
      operation to have used its whole reservation, so the write could only have been absorbed. */
  lemma {:induction false} LogReservation(s: State, acts: seq<Action>, t: State, a: Action)
    requires Init(s) && Leads(s, acts, t) && Enabled(t, a) && !t.panicked
    ensures |t.list| <= LOGBLOCKS && Distinct(t.list)
    ensures Next(t, a).panicked <==> a.LogWrite? && |t.list| == LOGBLOCKS
    ensures Next(t, a).panicked ==> a.b in t.list && forall k :: 0 <= k < |t.ops| ==> t.ops[k].used == MAXOPBLOCKS
  {
    hide Accounted, Coherent, Durable, Progress, EncodeHeader, View;
    RunKeeps(s, acts, t);
    if a.LogWrite? && |t.list| == LOGBLOCKS {
      forall k | 0 <= k < |t.ops| ensures t.ops[k].used == MAXOPBLOCKS {
        NoneUnused(t.ops, k);
      }
    }
  }
}
