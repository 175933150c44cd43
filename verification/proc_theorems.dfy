/** What holds in every state that any interleaving of the CPUs can reach. */
module ProcTheorems {
  import opened ProcModel
  import opened ProcSafety

  /** After userinit: one RUNNABLE process, and every CPU about to scan. */
  predicate Boot(s: State) {
    && |s.lock| == |s.procs| && 0 <= s.init < |s.procs| && s.wait == -1
    && (forall j :: 0 <= j < |s.lock| ==> s.lock[j] == -1)
    && (forall c :: 0 <= c < |s.cpus| ==> s.cpus[c] == Cpu(-1, Scan([], -1)))
    && (forall j ::
        0 <= j < |s.procs| ==>
            s.procs[j].parent == -1 && s.procs[j].pc == Resumed(Run) && s.procs[j].state == if j == s.init then RUNNABLE
                else UNUSED)
  }

  /** A history: each state follows from the one before by a step of some CPU. */
  predicate Follows(s: State, t: State, a: Step) {
    Enabled(s, a) && t == Next(s, a)
  }

  ghost predicate History(h: seq<State>, steps: seq<Step>) {
    && |h| == |steps| + 1 && Boot(h[0])
    && forall i :: 0 <= i < |steps| ==> Follows(h[i], h[i + 1], steps[i])
  }

  lemma BootInv(s: State)
    requires Boot(s)
    ensures Inv(s)
  {
    forall c, j | 0 <= c < |s.cpus| && 0 <= j < |s.lock| ensures s.lock[j] == c <==> Holds(s.procs, s.cpus[c], j) {
    }
    assert Base(Resumed(Run)) == Base(Run);
  }

  lemma {:induction false} HistoryInv(h: seq<State>, steps: seq<Step>, n: nat)
    requires History(h, steps) && n < |h|
    ensures Inv(h[n])
  {
    if n == 0 {
      BootInv(h[0]);
    } else {
      HistoryInv(h, steps, n - 1);
      assert Follows(h[n - 1], h[n], steps[n - 1]);
      StepKeeps(h[n - 1], steps[n - 1]);
    }
  }

  /** A RUNNING process is current on one CPU, no process is current on two, and an unlocked process that
      is not RUNNING is current on none. */
  lemma {:induction false} CurrentOnOneCpu(h: seq<State>, steps: seq<Step>, n: nat, p: int)
    requires History(h, steps) && n < |h| && 0 <= p < |h[n].procs|
    ensures h[n].procs[p].state == RUNNING ==> exists c :: 0 <= c < |h[n].cpus| && h[n].cpus[c].cur == p
    ensures forall c, d ::
              0 <= c < |h[n].cpus| && 0 <= d < |h[n].cpus| && h[n].cpus[c].cur == p && h[n].cpus[d].cur == p ==> c == d
    ensures |h[n].lock| == |h[n].procs|
    ensures h[n].procs[p].state != RUNNING && h[n].lock[p] == -1 ==>
              forall c :: 0 <= c < |h[n].cpus| ==> h[n].cpus[c].cur != p
  {
    HistoryInv(h, steps, n);
    var s := h[n];
    assert CurrentOk(s.procs, s.cpus, p);
    forall c | 0 <= c < |s.cpus| && s.cpus[c].cur == p ensures s.procs[p].on == c {
      assert CpuOk(s.procs, s.cpus[c], c);
    }
    if s.lock[p] == -1 {
      UnlockedIsOff(s, p);
    }
  }

  /** Both ways through swtch the CPU holds the lock of the process concerned, and no other lock; on the
      way out the process is not RUNNING, so none of sched's panics is reached. */
  lemma {:induction false} SwitchHoldsOneLock(h: seq<State>, steps: seq<Step>, n: nat, c: int)
    requires History(h, steps) && n < |h| && 0 <= c < |h[n].cpus| && |h[n].lock| == |h[n].procs|
    ensures CanSwitchIn(h[n], c) ==>
              && h[n].wait != c && forall j :: 0 <= j < |h[n].lock| ==> (h[n].lock[j] == c <==> j == h[n].cpus[c].at.b)
    ensures h[n].cpus[c].at.Away? && CanShared(h[n], c, h[n].cpus[c].at.b, SwitchOut) ==>
              && h[n].wait != c && h[n].procs[h[n].cpus[c].at.b].state != RUNNING
              && forall j :: 0 <= j < |h[n].lock| ==> (h[n].lock[j] == c <==> j == h[n].cpus[c].at.b)
  {
    HistoryInv(h, steps, n);
    var s := h[n];
    OwnsLocks(s, c);
    assert s.wait == c <==> HasWait(s.procs, s.cpus[c]);
  }

  // ----- the scheduler's choice

  /** What a scan records for a slot. */
  function Rank(q: Proc): (r: int) {
    if q.state == RUNNABLE then Priority(q) else -1
  }

  predicate Scanning(cpu: Cpu) {
    cpu.at.Scan? || cpu.at.Look?
  }

  /** Step n - 1 of the history leaves CPU c's record of its scan alone, or starts it, or adds a slot. */
  lemma SeenStep(s: State, t: State, a: Step, c: int)
    requires Follows(s, t, a) && 0 <= c < |s.cpus|
    ensures |t.cpus| == |s.cpus|
    ensures Scanning(t.cpus[c]) ==>
              || t.cpus[c].at.seen == []
              || (Scanning(s.cpus[c]) && t.cpus[c].at.seen == s.cpus[c].at.seen)
              || (s.cpus[c].at.Look? && |s.cpus[c].at.seen| < |s.procs|
                  && t.cpus[c].at.seen == s.cpus[c].at.seen + [Rank(s.procs[|s.cpus[c].at.seen|])])
  {
    if a.Shared? {
      SharedSeen(s, a.c, a.p, a.shared, c);
    }
  }

  lemma SharedSeen(s: State, c: int, p: int, a: SharedStep, d: int)
    requires CanShared(s, c, p, a) && 0 <= d < |s.cpus|
    ensures var t := DoShared(s, c, p, a); |t.cpus| == |s.cpus| && (t.cpus[d] == s.cpus[d] || !Scanning(t.cpus[d]))
  {
  }

  /** At time m the scheduler of CPU c looked at slot j, with this outcome. */
  predicate LookedAt(s: State, c: int, j: int, r: int) {
    0 <= c < |s.cpus| && s.cpus[c].at.Look? && |s.cpus[c].at.seen| == j < |s.procs| && Rank(s.procs[j]) == r
  }

  /** CPU c has been in one scan, and past slot j in it, at all times after m up to n. */
  ghost predicate PastSince(h: seq<State>, c: int, j: int, m: nat, n: nat) {
    forall k :: m < k <= n && k < |h| ==> 0 <= c < |h[k].cpus| && Scanning(h[k].cpus[c]) && j < |h[k].cpus[c].at.seen|
  }

  /** A recorded priority is the one that the slot had when this same scan looked at it. */
  lemma {:induction false} SeenWasThere(h: seq<State>, steps: seq<Step>, n: nat, c: int, j: int) returns (m: nat)
    requires History(h, steps) && n < |h| && 0 <= c < |h[n].cpus| && Scanning(h[n].cpus[c])
             && 0 <= j < |h[n].cpus[c].at.seen|
    ensures m < n && LookedAt(h[m], c, j, h[n].cpus[c].at.seen[j]) && PastSince(h, c, j, m, n)
    decreases n
  {
    assert n > 0;
    assert Follows(h[n - 1], h[n], steps[n - 1]);
    CpusStay(h[n - 1], h[n], steps[n - 1]);
    SeenStep(h[n - 1], h[n], steps[n - 1], c);
    var s := h[n - 1];
    if Scanning(s.cpus[c]) && j < |s.cpus[c].at.seen| {
      m := SeenWasThere(h, steps, n - 1, c, j);
    } else {
      m := n - 1;
    }
  }

  lemma CpusStay(s: State, t: State, a: Step)
    requires Follows(s, t, a)
    ensures |t.cpus| == |s.cpus|
  {
    if a.Shared? && |s.cpus| > 0 {
      SharedSeen(s, a.c, a.p, a.shared, 0);
    }
  }

  lemma BestIsLocked(s: State, c: int)
    requires Inv(s) && 0 <= c < |s.cpus| && Scanning(s.cpus[c]) && s.cpus[c].at.best >= 0
    ensures s.cpus[c].at.best < |s.lock| == |s.procs| && s.lock[s.cpus[c].at.best] == c
  {
    OwnsLocks(s, c);
    assert Holds(s.procs, s.cpus[c], s.cpus[c].at.best);
  }

  /** The best process of a scan is RUNNABLE, locked by the scanning CPU, and on no CPU. */
  lemma BestIsOff(s: State, c: int, p: int, d: int)
    requires Inv(s) && 0 <= c < |s.cpus| && Scanning(s.cpus[c]) && Has(s, d, p)
    ensures s.cpus[c].at.best >= 0 ==> s.cpus[c].at.best < |s.lock| == |s.procs| && s.lock[s.cpus[c].at.best] == c
    ensures s.cpus[c].at.best >= 0 ==> s.procs[s.cpus[c].at.best].state == RUNNABLE && s.cpus[c].at.best != p
  {
    OwnsLocks(s, c);
    OwnsLocks(s, d);
    if s.cpus[c].at.best >= 0 {
      assert Holds(s.procs, s.cpus[c], s.cpus[c].at.best);
    }
  }

  lemma SharedKeepsRank(s: State, c: int, p: int, a: SharedStep, b: int)
    requires CanShared(s, c, p, a) && 0 <= b < |s.procs| && b != p && s.lock[b] != -1 && s.procs[b].state == RUNNABLE
    requires s.procs[p].pc.ForkHold? ==> s.procs[p].pc.child != b
    ensures |DoShared(s, c, p, a).procs| == |s.procs| && Rank(DoShared(s, c, p, a).procs[b]) == Rank(s.procs[b])
  {
  }

  lemma SchedKeepsRank(s: State, d: int, a: SchedStep, b: int)
    requires Inv(s) && CanSched(s, d, a) && 0 <= b < |s.procs| && s.lock[b] != d
    ensures |DoSched(s, d, a).procs| == |s.procs| && DoSched(s, d, a).procs[b] == s.procs[b]
  {
    OwnsLocks(s, d);
  }

  /** A child that is being made is not RUNNABLE yet. */
  lemma MadeIsUsed(s: State, c: int, p: int)
    requires Inv(s) && Has(s, c, p) && s.procs[p].pc.ForkHold?
    ensures 0 <= s.procs[p].pc.child < |s.procs| && s.procs[s.procs[p].pc.child].state == USED
  {
    assert CpuOk(s.procs, s.cpus[c], c) && ForkOk(s.procs, p);
  }

  /** The rank of the best process does not change while it is locked: whoever would change it must be
      that process, must be making it, or needs its lock. */
  lemma BestKeepsRank(s: State, a: Step, c: int)
    requires Inv(s) && Enabled(s, a) && 0 <= c < |s.cpus| && Scanning(s.cpus[c])
    ensures var b := s.cpus[c].at.best;
            b >= 0 && (a.Sched? ==> a.c != c) ==>
                b < |s.procs| == |Next(s, a).procs| && Rank(Next(s, a).procs[b]) == Rank(s.procs[b])
  {
    var b := s.cpus[c].at.best;
    if b >= 0 && (a.Sched? ==> a.c != c) {
      BestIsLocked(s, c);
      hide Inv;
      match a
      case Sched(d, x) => SchedKeepsRank(s, d, x, b);
      case Basic(d, p, x) => BestIsOff(s, c, p, d);
      case Exit(d, p, x) => BestIsOff(s, c, p, d);
      case Wait(d, p, x) => BestIsOff(s, c, p, d);
      case Shared(d, p, x) =>
        BestIsOff(s, c, p, d);
        if s.procs[p].pc.ForkHold? {
          MadeIsUsed(s, d, p);
        }
        SharedKeepsRank(s, d, p, x, b);
    }
  }

  /** CPU c has been in one scan, with process b locked as its best and of this rank, at all times from m
      up to n. */
  ghost predicate BestSince(h: seq<State>, c: int, b: int, r: int, m: nat, n: nat) {
    forall k :: m < k <= n && k < |h| ==>
      && 0 <= c < |h[k].cpus| && Scanning(h[k].cpus[c]) && h[k].cpus[c].at.best == b
      && 0 <= b < |h[k].procs| == |h[k].lock| && h[k].lock[b] == c && Rank(h[k].procs[b]) == r
  }

  /** Only its own steps move a scheduler that is scanning. */
  lemma OthersLeaveScan(s: State, a: Step, c: int)
    requires Enabled(s, a) && 0 <= c < |s.cpus| && (a.Sched? ==> a.c != c)
    ensures |Next(s, a).cpus| == |s.cpus| && (Scanning(Next(s, a).cpus[c]) ==> Next(s, a).cpus[c] == s.cpus[c])
  {
    if a.Shared? {
      SharedSeen(s, a.c, a.p, a.shared, c);
    }
  }

  /** Its own steps keep the best process, or make the slot just looked at the best one. */
  lemma OwnScanStep(s: State, c: int, a: SchedStep)
    requires CanSched(s, c, a) && Scanning(DoSched(s, c, a).cpus[c]) && DoSched(s, c, a).cpus[c].at.best >= 0
    ensures var t := DoSched(s, c, a); var b := t.cpus[c].at.best;
            && t.procs == s.procs && Scanning(s.cpus[c])
            && (b == s.cpus[c].at.best ==> s.cpus[c].at.seen <= t.cpus[c].at.seen)
            && (b != s.cpus[c].at.best ==> b < |t.cpus[c].at.seen| && LookedAt(s, c, b, t.cpus[c].at.seen[b]))
  {
  }

  /** The best process of a scan has been its best, locked and of the rank recorded, ever since the scan
      looked at it. */
  lemma {:induction false} BestHeldSince(h: seq<State>, steps: seq<Step>, n: nat, c: int) returns (m: nat)
    requires History(h, steps) && n < |h| && 0 <= c < |h[n].cpus| && Scanning(h[n].cpus[c]) && h[n].cpus[c].at.best >= 0
    ensures var b := h[n].cpus[c].at.best;
            && b < |h[n].cpus[c].at.seen|
            && m < n && LookedAt(h[m], c, b, h[n].cpus[c].at.seen[b])
            && BestSince(h, c, b, h[n].cpus[c].at.seen[b], m, n)
    decreases n
  {
    hide Inv, Enabled, Next;
    assert n > 0 by {
      if n == 0 {
        BootHasNoBest(h[0], c);
      }
    }
    var s, a := h[n - 1], steps[n - 1];
    assert Follows(s, h[n], a);
    HistoryInv(h, steps, n - 1);
    HistoryInv(h, steps, n);
    BestIsLocked(h[n], c);
    CpusStay(s, h[n], a);
    var b := h[n].cpus[c].at.best;
    BestCameFrom(s, h[n], a, c);
    if Scanning(s.cpus[c]) && s.cpus[c].at.best == b {
      m := BestHeldSince(h, steps, n - 1, c);
    } else {
      m := n - 1;
    }
  }

  lemma BootHasNoBest(s: State, c: int)
    requires Boot(s) && 0 <= c < |s.cpus|
    ensures s.cpus[c].at.Scan? && s.cpus[c].at.best < 0
  {
  }

  lemma BestCameFrom(s: State, t: State, a: Step, c: int)
    requires Inv(s) && Inv(t) && Follows(s, t, a) && 0 <= c < |s.cpus| && |t.cpus| == |s.cpus| && Scanning(t.cpus[c])
             && t.cpus[c].at.best >= 0
    ensures var b := t.cpus[c].at.best;
            && b < |t.cpus[c].at.seen| && b < |t.procs| == |s.procs| && Rank(t.procs[b]) == Rank(s.procs[b])
            && if Scanning(s.cpus[c]) && s.cpus[c].at.best == b then b < |s.cpus[c].at.seen|
            && t.cpus[c].at.seen[b] == s.cpus[c].at.seen[b]
               else LookedAt(s, c, b, t.cpus[c].at.seen[b])
  {
    OwnsLocks(s, c);
    OwnsLocks(t, c);
    hide Inv;
    if a.Sched? && a.c == c {
      OwnScanStep(s, c, a.sched);
    } else {
      OthersLeaveScan(s, a, c);
      BestKeepsRank(s, a, c);
    }
  }

  /** The process that a scheduler switches to is, of all slots that it saw RUNNABLE in this scan, the
      first one with the highest priority. It has been locked, RUNNABLE and of that priority ever since the
      scan looked at it. If the scan saw none it chooses none. */
  lemma {:induction false} ChoiceIsFirstBest(h: seq<State>, steps: seq<Step>, n: nat, c: int)
    requires History(h, steps) && n < |h| && 0 <= c < |h[n].cpus| && CanScanDone(h[n], c)
    ensures var at := h[n].cpus[c].at; Choice(at.seen, at.best) && |at.seen| == |h[n].procs|
    ensures forall j :: 0 <= j < |h[n].procs| ==>
              exists m :: 0 <= m < n && LookedAt(h[m], c, j, h[n].cpus[c].at.seen[j]) && PastSince(h, c, j, m, n)
    ensures var at := h[n].cpus[c].at;
            at.best >= 0 ==>
              exists m ::
                  0 <= m < n && LookedAt(h[m], c, at.best, at.seen[at.best])
                      && BestSince(h, c, at.best, at.seen[at.best], m, n)
    ensures var at := h[n].cpus[c].at; at.best >= 0 ==> Rank(h[n].procs[at.best]) == at.seen[at.best]
  {
    HistoryInv(h, steps, n);
    OwnsLocks(h[n], c);
    hide Inv, History;
    forall j | 0 <= j < |h[n].procs|
      ensures exists m :: 0 <= m < n && LookedAt(h[m], c, j, h[n].cpus[c].at.seen[j]) && PastSince(h, c, j, m, n)
    {
      var m := SeenWasThere(h, steps, n, c, j);
    }
    if h[n].cpus[c].at.best >= 0 {
      var m := BestHeldSince(h, steps, n, c);
    }
  }

  // ----- exit and wait

  /** No lost exit event: when wait_lock is free, no process asleep in kwait has a ZOMBIE child, and the
      parent of every process is alive. */
  lemma {:induction false} NoLostExit(h: seq<State>, steps: seq<Step>, n: nat, j: int)
    requires History(h, steps) && n < |h| && h[n].wait == -1 && 0 <= j < |h[n].procs|
    ensures var p := h[n].procs[j].parent;
            p != -1 ==>
              && 0 <= p < |h[n].procs| && Alive(h[n].procs[p].state)
              && !(h[n].procs[j].state == ZOMBIE && h[n].procs[p].state == SLEEPING && h[n].procs[p].chan == OfProc(p))
  {
    HistoryInv(h, steps, n);
    assert KidOk(h[n].procs, j);
  }

  /** kwait frees a child only when no CPU is on its kernel stack. */
  lemma {:induction false} ReapedIsOff(h: seq<State>, steps: seq<Step>, n: nat, c: int, p: int)
    requires History(h, steps) && n < |h| && CanShared(h[n], c, p, Reap)
    ensures forall d :: 0 <= d < |h[n].cpus| ==> h[n].cpus[d].cur != h[n].procs[p].pc.i
  {
    HistoryInv(h, steps, n);
    UnlockedIsOff(h[n], h[n].procs[p].pc.i);
  }

  /** The parent of an exited process is told: the next time that it looks, it finds a zombie. */
  lemma {:induction false} ZombieIsFound(h: seq<State>, steps: seq<Step>, n: nat, p: int, j: int)
    requires History(h, steps) && n < |h| && 0 <= j < |h[n].procs| && 0 <= p < |h[n].procs|
    requires h[n].procs[j].parent == p && h[n].procs[j].state == ZOMBIE && h[n].procs[p].pc.WaitScan?
    ensures h[n].procs[p].pc.i <= j
  {
    HistoryInv(h, steps, n);
    assert KidOk(h[n].procs, j);
  }

  // ----- the scan as one CPU's loop (kernel/proc.c:473-497)

  method Choose(procs: seq<Proc>) returns (best: int)
    ensures Choice(seq(|procs|, j requires 0 <= j < |procs| => Rank(procs[j])), best)
  {
    best := -1;
    var bestPriority := -1;
    ghost var ranks := seq(|procs|, j requires 0 <= j < |procs| => Rank(procs[j]));
    var p := 0;
    while p < |procs|
      invariant 0 <= p <= |procs| && Choice(ranks[..p], best)
      invariant best >= 0 ==> bestPriority == ranks[best]
    {
      if procs[p].state == RUNNABLE {
        var priority := Priority(procs[p]);
        if best == -1 || priority > bestPriority {
          best, bestPriority := p, priority;
        }
      }
      p := p + 1;
    }
    assert ranks[..p] == ranks;
  }
}
