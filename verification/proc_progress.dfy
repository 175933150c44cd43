/** Locks are always taken in one order, wait_lock first and then process locks by slot; so no CPU waits
    for ever in a circle, although a scheduler keeps the best process locked while it locks the next. */
module ProcProgress {
  import opened ProcModel
  import opened ProcSafety
  import opened ProcTheorems

  /** The lock that CPU c needs for its next step: -1 for none, 0 for wait_lock, and 1 + j for the lock of
      process j. */
  function Needs(s: State, c: int): (l: int)
    requires 0 <= c < |s.cpus|
  {
    match s.cpus[c].at
    case Scan(seen, best) => if |seen| < |s.procs| then 1 + |seen| else -1
    case Away(p) => if 0 <= p < |s.procs| then ProcNeeds(s.procs, p) else -1
    case _ => -1
  }

  function ProcNeeds(procs: seq<Proc>, p: int): (l: int)
    requires 0 <= p < |procs|
  {
    match procs[p].pc
    case Waking(_, i, _) => if i == p || i >= |procs| then -1 else 1 + i
    case ForkFree(_) => 0
    case ForkReady(child) => 1 + child
    case ExitWoken => 1 + p
    case WaitEnter => 0
    case WaitScan(i, _) => if i >= |procs| then 1 + p else if i >= 0 && procs[i].parent == p then 1 + i else -1
    case WaitSleep => 1 + p
    case _ => -1
  }

  /** Who holds lock l, -1 if it is free. */
  function Holder(s: State, l: int): (d: int) {
    if l == 0 then s.wait else if 0 < l <= |s.lock| then s.lock[l - 1] else -1
  }

  predicate Blocked(s: State, c: int)
    requires 0 <= c < |s.cpus|
  {
    Holder(s, Needs(s, c)) != -1
  }

  // ----- slot numbers in the code are never negative

  predicate Counting(pc: Pc) {
    match pc
    case Yielding(next) => Counting(next)
    case Leaving(next) => Counting(next)
    case Resumed(next) => Counting(next)
    case Waking(_, i, next) => i >= 0 && Counting(next)
    case ExitReparent(i) => i >= 0
    case WaitScan(i, _) => i >= 0
    case _ => true
  }

  ghost predicate AllCounting(procs: seq<Proc>) {
    forall p :: 0 <= p < |procs| ==> Counting(procs[p].pc)
  }

  lemma CountingStep(s: State, a: Step)
    requires Enabled(s, a) && AllCounting(s.procs)
    ensures AllCounting(Next(s, a).procs)
  {
    if a.Shared? {
      SharedCounting(s, a.c, a.p, a.shared);
    }
  }

  lemma SharedCounting(s: State, c: int, p: int, a: SharedStep)
    requires CanShared(s, c, p, a) && AllCounting(s.procs)
    ensures AllCounting(DoShared(s, c, p, a).procs)
  {
  }

  lemma {:induction false} HistoryCounting(h: seq<State>, steps: seq<Step>, n: nat)
    requires History(h, steps) && n < |h|
    ensures AllCounting(h[n].procs)
  {
    if n > 0 {
      HistoryCounting(h, steps, n - 1);
      assert Follows(h[n - 1], h[n], steps[n - 1]);
      CountingStep(h[n - 1], steps[n - 1]);
    }
  }

  // ----- the order of locks

  /** Whoever needs a lock holds only locks that come before it, so not that one either. */
  lemma LockOrder(s: State, d: int, l: int)
    requires Inv(s) && AllCounting(s.procs) && 0 <= d < |s.cpus| && Holder(s, l) == d
    ensures Needs(s, d) != -1 ==> l < Needs(s, d)
  {
    OwnsLocks(s, d);
    assert s.wait == d <==> HasWait(s.procs, s.cpus[d]);
    if s.cpus[d].at.Away? && l > 0 {
      var p := s.cpus[d].at.b;
      assert Holds(s.procs, s.cpus[d], l - 1);
      if s.procs[p].pc.ForkHold? {
        MadeIsUsed(s, d, p);
      }
    }
  }

  lemma HolderIsCpu(s: State, l: int)
    requires Inv(s)
    ensures Holder(s, l) == -1 || 0 <= Holder(s, l) < |s.cpus|
  {
  }

  lemma NeedsRange(s: State, c: int)
    requires Inv(s) && AllCounting(s.procs) && 0 <= c < |s.cpus|
    ensures -1 <= Needs(s, c) <= |s.procs|
  {
    OwnsLocks(s, c);
    if s.cpus[c].at.Away? {
      var p := s.cpus[c].at.b;
      assert ForkOk(s.procs, p);
    }
  }

  // ----- a CPU that needs no held lock can go on

  /** A step that gets somewhere: not just a timer interrupt. */
  predicate Advances(a: Step) {
    !(a.Basic? && (a.basic.Tick? || a.basic.Preempt?))
  }

  lemma ForkCanStep(s: State, c: int, p: int) returns (a: Step)
    requires Has(s, c, p) && Forking(s.procs[p].pc) && 0 <= s.procs[p].pc.child < |s.procs|
    requires Holder(s, ProcNeeds(s.procs, p)) == -1
    ensures a.c == c && Advances(a) && Enabled(s, a)
  {
    match s.procs[p].pc
    case ForkHold(_) => a := Shared(c, p, ForkFilled);
    case ForkFree(_) => a := Wait(c, p, ForkLock);
    case ForkWait(_) => a := Shared(c, p, ForkParent);
    case ForkReady(_) => a := Shared(c, p, ForkRun);
  }

  lemma ExitCanStep(s: State, c: int, p: int) returns (a: Step)
    requires Has(s, c, p) && Exiting(s.procs[p].pc) && !s.procs[p].pc.Dead? && Counting(s.procs[p].pc)
    requires Holder(s, ProcNeeds(s.procs, p)) == -1
    ensures a.c == c && Advances(a) && Enabled(s, a)
  {
    match s.procs[p].pc
    case ExitReparent(i) =>
      a := if i >= |s.procs| then Exit(c, p, WakeParent)
      else if s.procs[i].parent == p then Shared(c, p, Reparent) else Exit(c, p, PassOver);
    case ExitWoken => a := Exit(c, p, ExitLock);
    case ExitLocked => a := Shared(c, p, BecomeZombie);
    case ExitZombie => a := Exit(c, p, ExitRelease);
  }

  predicate Waiting(pc: Pc) {
    pc.WaitEnter? || pc.WaitScan? || pc.WaitSleep? || pc.WaitLocked? || pc.WaitCommitted?
  }

  lemma WaitCanStep(s: State, c: int, p: int) returns (a: Step)
    requires Has(s, c, p) && Waiting(s.procs[p].pc) && Counting(s.procs[p].pc)
    requires Holder(s, ProcNeeds(s.procs, p)) == -1
    ensures a.c == c && Advances(a) && Enabled(s, a)
  {
    match s.procs[p].pc
    case WaitEnter => a := Wait(c, p, WaitBegin);
    case WaitScan(i, _) =>
      a := if i >= |s.procs| then Wait(c, p, WaitEnd)
      else if s.procs[i].parent != p then Wait(c, p, NotMine)
      else if s.procs[i].state == ZOMBIE then Shared(c, p, Reap) else Wait(c, p, NotYet);
    case WaitSleep => a := Wait(c, p, WaitSleepLock);
    case WaitLocked => a := Wait(c, p, WaitRelease);
    case WaitCommitted => a := Wait(c, p, WaitAsleep);
  }

  lemma OtherCanStep(s: State, c: int, p: int) returns (a: Step)
    requires Has(s, c, p) && Counting(s.procs[p].pc) && Holder(s, ProcNeeds(s.procs, p)) == -1
    requires var pc := s.procs[p].pc; !Forking(pc) && !Exiting(pc) && !Waiting(pc)
    ensures a.c == c && Advances(a) && Enabled(s, a)
  {
    match s.procs[p].pc
    case Run => a := Basic(c, p, Wakeup(0));
    case Yielding(_) => a := Basic(c, p, Yield);
    case Dozing(_) => a := Basic(c, p, Sleep);
    case Leaving(_) => a := Shared(c, p, SwitchOut);
    case Resumed(_) => a := Basic(c, p, Resume);
    case Waking(_, i, _) => a := if i >= |s.procs| then Basic(c, p, WakeDone) else Shared(c, p, WakeOne);
  }

  lemma OnCpuFacts(s: State, c: int, p: int)
    requires Inv(s) && AllCounting(s.procs) && Has(s, c, p)
    ensures Counting(s.procs[p].pc) && !s.procs[p].pc.Dead?
    ensures Forking(s.procs[p].pc) ==> 0 <= s.procs[p].pc.child < |s.procs|
  {
    OwnsLocks(s, c);
    assert ForkOk(s.procs, p);
  }

  lemma ProcCanStep(s: State, c: int, p: int) returns (a: Step)
    requires Inv(s) && AllCounting(s.procs) && Has(s, c, p) && Holder(s, ProcNeeds(s.procs, p)) == -1
    ensures a.c == c && Advances(a) && Enabled(s, a)
  {
    hide Inv, Enabled, AllCounting;
    OnCpuFacts(s, c, p);
    if Forking(s.procs[p].pc) {
      a := ForkCanStep(s, c, p);
    } else if Exiting(s.procs[p].pc) {
      a := ExitCanStep(s, c, p);
    } else if Waiting(s.procs[p].pc) {
      a := WaitCanStep(s, c, p);
    } else {
      a := OtherCanStep(s, c, p);
    }
  }

  lemma CanStep(s: State, c: int) returns (a: Step)
    requires Inv(s) && AllCounting(s.procs) && 0 <= c < |s.cpus| && !Blocked(s, c)
    ensures a.c == c && Advances(a) && Enabled(s, a)
  {
    OwnsLocks(s, c);
    match s.cpus[c].at
    case Scan(seen, best) => a := Sched(c, if |seen| < |s.procs| then ScanLock else ScanDone);
    case Look(_, _) => a := Sched(c, ScanLook);
    case Picked(_) => a := Sched(c, SwitchIn);
    case Away(p) => a := ProcCanStep(s, c, p);
    case Back(_) => a := Sched(c, Unset);
    case Drop(_) => a := Sched(c, DropLock);
  }

  // ----- no deadlock

  /** Each of these CPUs waits for a lock that the next one holds. */
  ghost predicate Chain(s: State, cs: seq<int>) {
    && (forall i :: 0 <= i < |cs| ==> 0 <= cs[i] < |s.cpus|)
    && (forall i :: 0 <= i < |cs| - 1 ==> Holder(s, Needs(s, cs[i])) == cs[i + 1])
  }

  lemma {:induction false} FollowWaits(s: State, c: int) returns (cs: seq<int>, a: Step)
    requires Inv(s) && AllCounting(s.procs) && 0 <= c < |s.cpus|
    ensures cs != [] && cs[0] == c && Chain(s, cs)
    ensures a.c == cs[|cs| - 1] && Advances(a) && Enabled(s, a)
    decreases |s.procs| - Needs(s, c), if Blocked(s, c) then 1 else 0
  {
    hide Inv, Enabled, Needs, AllCounting;
    if Blocked(s, c) {
      var l := Needs(s, c);
      var d := Holder(s, l);
      NeedsRange(s, c);
      HolderIsCpu(s, l);
      LockOrder(s, d, l);
      if Blocked(s, d) {
        NeedsRange(s, d);
        var rest;
        rest, a := FollowWaits(s, d);
        cs := [c] + rest;
      } else {
        a := CanStep(s, d);
        cs := [c, d];
      }
    } else {
      a := CanStep(s, c);
      cs := [c];
    }
  }

  /** No deadlock: in every state that any interleaving reaches, each CPU can take a step that gets it
      somewhere, or waits, perhaps through others, for a CPU that can. */
  lemma {:induction false} NoDeadlock(h: seq<State>, steps: seq<Step>, n: nat, c: int) returns (cs: seq<int>, a: Step)
    requires History(h, steps) && n < |h| && 0 <= c < |h[n].cpus|
    ensures cs != [] && cs[0] == c && Chain(h[n], cs)
    ensures a.c == cs[|cs| - 1] && Advances(a) && Enabled(h[n], a)
  {
    hide Inv, Enabled;
    HistoryInv(h, steps, n);
    HistoryCounting(h, steps, n);
    cs, a := FollowWaits(h[n], c);
  }
}
