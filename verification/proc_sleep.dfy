/** sleep, wakeup and kill over whole histories, the state diagram of a process, and what its energy
    counters count. */
module ProcSleep {
  import opened ProcModel
  import opened ProcSafety
  import opened ProcTheorems

  // ----- the state diagram of one process

  /** wakeup has reached slot j, with a channel on which j sleeps. */
  predicate WakesUp(s: State, a: Step, j: int)
    requires 0 <= j < |s.procs|
  {
    && a.Shared? && a.shared.WakeOne? && a.p != j && 0 <= a.p < |s.procs|
    && s.procs[a.p].pc.Waking? && s.procs[a.p].pc.i == j && s.procs[a.p].pc.chan == s.procs[j].chan
  }

  /** The state of process j after a step, by the state it is in. */
  function Diagram(s: State, a: Step, j: int): (r: RunState)
    requires 0 <= j < |s.procs|
  {
    match s.procs[j].state
    case UNUSED => if a.Shared? && a.shared == ForkAlloc(j) then USED else UNUSED
    case USED =>
      if a.Shared? && Makes(s, a.p, j) && a.shared.ForkRun? then RUNNABLE
      else if a.Shared? && Makes(s, a.p, j) && a.shared.ForkFail? then UNUSED
      else USED
    case RUNNABLE =>
      if a.Sched? && a.sched.ScanDone? && Chooses(s, a.c, j) then RUNNING else RUNNABLE
    case RUNNING =>
      if a.Basic? && a.p == j && a.basic.Yield? then RUNNABLE
      else if (a.Basic? && a.p == j && a.basic.Sleep?) || (a.Wait? && a.p == j && a.wait.WaitAsleep?) then SLEEPING
      else if a.Shared? && a.p == j && a.shared.BecomeZombie? then ZOMBIE
      else RUNNING
    case SLEEPING => if WakesUp(s, a, j) || (a.Shared? && a.shared == Kill(j)) then RUNNABLE else SLEEPING
    case ZOMBIE => if a.Shared? && a.shared.Reap? && Reaps(s, a.p, j) then UNUSED else ZOMBIE
  }

  /** Process p is forking j. */
  predicate Makes(s: State, p: int, j: int)
    requires 0 <= j < |s.procs|
  {
    0 <= p < |s.procs| && Forking(s.procs[p].pc) && s.procs[p].pc.child == j && s.procs[j].maker == p
  }

  /** The scan of CPU c has found j the best. */
  predicate Chooses(s: State, c: int, j: int) {
    0 <= c < |s.cpus| && s.cpus[c].at.Scan? && s.cpus[c].at.best == j
  }

  /** Process p, in kwait, has come to its child j. */
  predicate Reaps(s: State, p: int, j: int)
    requires 0 <= j < |s.procs|
  {
    0 <= p < |s.procs| && s.procs[p].pc.WaitScan? && s.procs[p].pc.i == j && s.procs[j].parent == p
  }

  /** What a step does to process j: its state moves along the diagram, and the counters count ticks, sleeps
      and wakes since the slot was taken. */
  predicate Moves(s: State, a: Step, j: int, t: State) {
    && 0 <= j < |s.procs| == |t.procs|
    && var q, r := s.procs[j], t.procs[j];
    && r.state == Diagram(s, a, j)
    && (q.state == UNUSED && r.state == USED ==> r.ticks == r.sleeps == r.wakes == 0)
    && (!(q.state == UNUSED && r.state == USED) ==>
          && r.ticks == q.ticks + (if a.Basic? && a.p == j && a.basic.Tick? then 1 else 0)
          && r.sleeps == q.sleeps + (if q.state != SLEEPING && r.state == SLEEPING then 1 else 0)
          && r.wakes == q.wakes + (if q.state == SLEEPING && WakesUp(s, a, j) then 1 else 0))
    && (q.state == SLEEPING && r.state == SLEEPING ==> r.chan == q.chan)
    && (q.state != SLEEPING && r.state == SLEEPING ==>
        r.chan == (if q.pc.Dozing? then Other(q.pc.x) else OfProc(j)) && (q.pc.Dozing? || q.pc.WaitCommitted?))
    && (q.pc.Dozing? ==> r.pc == q.pc || (a.Basic? && a.p == j && a.basic.Sleep?))
    && (a.Shared? && a.shared == Kill(j) ==> r.killed)
    && (q.killed && !r.killed ==> r.state == UNUSED)
  }

  lemma SchedMoves(s: State, c: int, a: SchedStep, j: int)
    requires Inv(s) && CanSched(s, c, a) && 0 <= j < |s.procs|
    ensures Moves(s, Sched(c, a), j, DoSched(s, c, a))
  {
    hide LocksOk, WaitOk, ProcsOk, KidsOk, SleepersOk, WakersOk, Priority;
    if a.ScanDone? {
      assert CpuOk(s.procs, s.cpus[c], c);
    }
  }

  lemma BasicMoves(s: State, c: int, p: int, a: BasicStep, j: int)
    requires Inv(s) && CanBasic(s, c, p, a) && 0 <= j < |s.procs|
    ensures Moves(s, Basic(c, p, a), j, Apply(s, p, DoBasic(s, c, p, a)))
  {
    hide LocksOk, WaitOk, CpusOk, ProcsOk, KidsOk, SleepersOk, WakersOk;
    OnCpu(s, c, p);
  }

  lemma ExitMoves(s: State, c: int, p: int, a: ExitStep, j: int)
    requires Inv(s) && CanExit(s, c, p, a) && 0 <= j < |s.procs|
    ensures Moves(s, Exit(c, p, a), j, Apply(s, p, DoExit(s, c, p, a)))
  {
    hide LocksOk, WaitOk, CpusOk, ProcsOk, KidsOk, SleepersOk, WakersOk;
    OnCpu(s, c, p);
  }

  lemma WaitMoves(s: State, c: int, p: int, a: WaitStep, j: int)
    requires Inv(s) && CanWait(s, c, p, a) && 0 <= j < |s.procs|
    ensures Moves(s, Wait(c, p, a), j, Apply(s, p, DoWait(s, c, p, a)))
  {
    hide LocksOk, WaitOk, CpusOk, ProcsOk, KidsOk, SleepersOk, WakersOk;
    OnCpu(s, c, p);
  }

  /** The child that a forking process works on. */
  lemma MakesOne(s: State, c: int, p: int)
    requires Inv(s) && Has(s, c, p) && Forking(s.procs[p].pc)
    ensures var k := s.procs[p].pc.child;
            0 <= k < |s.procs| && k != p && s.procs[k].state == USED && s.procs[k].maker == p
  {
    hide LocksOk, WaitOk, CpusOk, KidsOk, SleepersOk, WakersOk;
    OnCpu(s, c, p);
    assert ForkOk(s.procs, p);
  }

  lemma FitsState(s: State, j: int)
    requires Inv(s) && 0 <= j < |s.procs|
    ensures StateOk(s.procs[j])
  {
  }

  lemma AllocMoves(s: State, c: int, p: int, a: SharedStep, j: int)
    requires Inv(s) && CanShared(s, c, p, a) && 0 <= j < |s.procs| && a.ForkAlloc?
    ensures Moves(s, Shared(c, p, a), j, DoShared(s, c, p, a))
  {
    hide Inv, PcOk;
    OnCpu(s, c, p);
    FitsState(s, j);
  }

  lemma FailMoves(s: State, c: int, p: int, a: SharedStep, j: int)
    requires Inv(s) && CanShared(s, c, p, a) && 0 <= j < |s.procs| && a.ForkFail?
    ensures Moves(s, Shared(c, p, a), j, DoShared(s, c, p, a))
  {
    hide LocksOk, WaitOk, CpusOk, KidsOk, SleepersOk, WakersOk, ProcsOk;
    OnCpu(s, c, p);
    MakesOne(s, c, p);
  }

  lemma FillMoves(s: State, c: int, p: int, a: SharedStep, j: int)
    requires Inv(s) && CanShared(s, c, p, a) && 0 <= j < |s.procs| && (a.ForkFilled? || a.ForkParent?)
    ensures Moves(s, Shared(c, p, a), j, DoShared(s, c, p, a))
  {
    hide LocksOk, WaitOk, CpusOk, KidsOk, SleepersOk, WakersOk, ProcsOk;
    OnCpu(s, c, p);
    MakesOne(s, c, p);
  }

  lemma RunMoves(s: State, c: int, p: int, a: SharedStep, j: int)
    requires Inv(s) && CanShared(s, c, p, a) && 0 <= j < |s.procs| && a.ForkRun?
    ensures Moves(s, Shared(c, p, a), j, DoShared(s, c, p, a))
  {
    hide LocksOk, WaitOk, CpusOk, KidsOk, SleepersOk, WakersOk, ProcsOk;
    OnCpu(s, c, p);
    MakesOne(s, c, p);
  }

  lemma OtherMoves(s: State, c: int, p: int, a: SharedStep, j: int)
    requires Inv(s) && CanShared(s, c, p, a) && 0 <= j < |s.procs|
    requires a.SwitchOut? || a.WakeOne? || a.Kill?
    ensures Moves(s, Shared(c, p, a), j, DoShared(s, c, p, a))
  {
    hide LocksOk, WaitOk, CpusOk, KidsOk, SleepersOk, WakersOk, ProcsOk;
    OnCpu(s, c, p);
  }

  lemma FamilyMoves(s: State, c: int, p: int, a: SharedStep, j: int)
    requires Inv(s) && CanShared(s, c, p, a) && 0 <= j < |s.procs|
    requires a.Reparent? || a.BecomeZombie? || a.Reap?
    ensures Moves(s, Shared(c, p, a), j, DoShared(s, c, p, a))
  {
    hide LocksOk, WaitOk, CpusOk, KidsOk, SleepersOk, WakersOk, ProcsOk;
    OnCpu(s, c, p);
  }

  lemma StepMoves(s: State, a: Step, j: int)
    requires Inv(s) && Enabled(s, a) && 0 <= j < |s.procs|
    ensures Moves(s, a, j, Next(s, a))
  {
    hide Inv, Moves, CanSched, DoSched, CanBasic, DoBasic, CanExit, DoExit, CanWait, DoWait, CanShared, DoShared;
    match a
    case Sched(c, x) => SchedMoves(s, c, x, j);
    case Basic(c, p, x) => BasicMoves(s, c, p, x, j);
    case Exit(c, p, x) => ExitMoves(s, c, p, x, j);
    case Wait(c, p, x) => WaitMoves(s, c, p, x, j);
    case Shared(c, p, x) =>
      if x.SwitchOut? || x.WakeOne? || x.Kill? {
        OtherMoves(s, c, p, x, j);
      } else if x.Reparent? || x.BecomeZombie? || x.Reap? {
        FamilyMoves(s, c, p, x, j);
      } else if x.ForkAlloc? {
        AllocMoves(s, c, p, x, j);
      } else if x.ForkFail? {
        FailMoves(s, c, p, x, j);
      } else if x.ForkRun? {
        RunMoves(s, c, p, x, j);
      } else {
        FillMoves(s, c, p, x, j);
      }
  }

  /** In every history, a process moves along the edges of the diagram and no others, and each edge is taken
      exactly when the diagram says; its counters count what they are named for. */
  lemma {:induction false} StateDiagram(h: seq<State>, steps: seq<Step>, n: nat, j: int)
    requires History(h, steps) && n < |steps| && 0 <= j < |h[n].procs|
    ensures Moves(h[n], steps[n], j, h[n + 1])
  {
    hide Inv, Moves, Enabled, Next;
    HistoryInv(h, steps, n);
    assert Follows(h[n], h[n + 1], steps[n]);
    StepMoves(h[n], steps[n], j);
  }

  lemma {:induction false} SameSlots(h: seq<State>, steps: seq<Step>, m: nat, n: nat)
    requires History(h, steps) && m <= n < |h|
    ensures |h[m].procs| == |h[n].procs|
  {
    hide Moves, Inv, Enabled, Next;
    if m < n {
      SameSlots(h, steps, m, n - 1);
      HistoryInv(h, steps, n - 1);
      HasSlots(h[n - 1]);
      StateDiagram(h, steps, n - 1, 0);
      MovesSize(h[n - 1], steps[n - 1], 0, h[n]);
    }
  }

  lemma HasSlots(s: State)
    requires Inv(s)
    ensures |s.procs| > 0
  {
  }

  lemma MovesSize(s: State, a: Step, j: int, t: State)
    requires Moves(s, a, j, t)
    ensures |s.procs| == |t.procs|
  {
  }

  // ----- wakeup

  /** The code that a process is in or will go on with, below yields and switches. */
  function Code(pc: Pc): (r: Pc) {
    if pc.Yielding? || pc.Leaving? || pc.Resumed? then Code(pc.next) else pc
  }

  /** The process is inside a wakeup of `chan`, before slot i. */
  predicate Wakes(q: Proc, chan: Chan, i: int) {
    Code(q.pc).Waking? && Code(q.pc).chan == chan && Code(q.pc).i == i
  }

  predicate SleepsOn(q: Proc, chan: Chan) {
    q.state == SLEEPING && q.chan == chan
  }

  /** The step is wakeup's turn at slot i. */
  predicate TurnAt(s: State, a: Step, p: int, chan: Chan, i: int) {
    && a.Shared? && a.shared.WakeOne? && a.p == p && CanShared(s, a.c, p, WakeOne)
    && s.procs[p].pc.chan == chan && s.procs[p].pc.i == i
  }

  /** Only a process itself changes where it is, or the one that takes its slot. */
  lemma PcOthers(s: State, c: int, q: int, a: SharedStep, p: int)
    requires CanShared(s, c, q, a) && 0 <= p < |s.procs| && p != q
    ensures var t := DoShared(s, c, q, a); |t.procs| == |s.procs|
    ensures var t := DoShared(s, c, q, a); t.procs[p].pc == (if a == ForkAlloc(p) then Resumed(Run) else s.procs[p].pc)
  {
  }

  lemma PcOwn(s: State, c: int, p: int, a: SharedStep)
    requires CanShared(s, c, p, a)
    ensures var t := DoShared(s, c, p, a); |t.procs| == |s.procs|
    ensures var t, pc := DoShared(s, c, p, a), s.procs[p].pc;
            && (a.SwitchOut? ==> t.procs[p].pc == Resumed(pc.next))
            && (a.WakeOne? ==> t.procs[p].pc == Waking(pc.chan, pc.i + 1, pc.next))
    ensures !a.SwitchOut? && !a.WakeOne? ==> !Code(s.procs[p].pc).Waking?
  {
  }

  lemma CodeShared(s: State, c: int, q: int, a: SharedStep, p: int, chan: Chan, i: int)
    requires Inv(s) && CanShared(s, c, q, a) && 0 <= p < |s.procs| && Wakes(s.procs[p], chan, i)
    ensures var t := DoShared(s, c, q, a); |t.procs| == |s.procs|
    ensures var t := DoShared(s, c, q, a);
            Code(t.procs[p].pc).Waking? ==>
              Wakes(t.procs[p], chan, i) || (TurnAt(s, Shared(c, q, a), p, chan, i) && Wakes(t.procs[p], chan, i + 1))
  {
    hide Inv, DoShared;
    if p == q {
      PcOwn(s, c, q, a);
    } else {
      PcOthers(s, c, q, a, p);
    }
  }

  lemma CodeBasic(s: State, c: int, q: int, a: BasicStep, p: int, chan: Chan, i: int)
    requires Inv(s) && CanBasic(s, c, q, a) && 0 <= p < |s.procs| && Wakes(s.procs[p], chan, i)
    ensures var t := Apply(s, q, DoBasic(s, c, q, a)); |t.procs| == |s.procs|
    ensures var t := Apply(s, q, DoBasic(s, c, q, a)); Code(t.procs[p].pc).Waking? ==> Wakes(t.procs[p], chan, i)
  {
    hide LocksOk, WaitOk, CpusOk, KidsOk, SleepersOk, WakersOk;
    assert StateOk(s.procs[p]);
  }

  lemma CodeRest(s: State, a: Step, p: int, chan: Chan, i: int)
    requires Enabled(s, a) && 0 <= p < |s.procs| && Wakes(s.procs[p], chan, i) && (a.Exit? || a.Wait? || a.Sched?)
    ensures |Next(s, a).procs| == |s.procs|
    ensures Code(Next(s, a).procs[p].pc).Waking? ==> Wakes(Next(s, a).procs[p], chan, i)
  {
    hide Priority;
  }

  /** A wakeup goes from slot to slot, by its turns alone. */
  lemma CodeStep(s: State, a: Step, p: int, chan: Chan, i: int)
    requires Inv(s) && Enabled(s, a) && 0 <= p < |s.procs| && Wakes(s.procs[p], chan, i)
    ensures |Next(s, a).procs| == |s.procs|
    ensures Code(Next(s, a).procs[p].pc).Waking? ==>
              Wakes(Next(s, a).procs[p], chan, i)
                  || (TurnAt(s, a, p, chan, i) && Wakes(Next(s, a).procs[p], chan, i + 1))
  {
    hide Inv, Wakes, TurnAt, Code, CanSched, DoSched, CanBasic, DoBasic, CanExit, DoExit, CanWait, DoWait, CanShared,
        DoShared;
    match a
    case Basic(c, q, x) => CodeBasic(s, c, q, x, p, chan, i);
    case Shared(c, q, x) => CodeShared(s, c, q, x, p, chan, i);
    case _ => CodeRest(s, a, p, chan, i);
  }

  /** At some moment from m to n, process j does not sleep on the channel. */
  ghost predicate AwakeSometime(h: seq<State>, j: int, chan: Chan, m: nat, n: nat) {
    exists k :: m <= k <= n && AwakeAt(h, j, chan, k)
  }

  ghost predicate AwakeAt(h: seq<State>, j: int, chan: Chan, k: nat) {
    k < |h| && 0 <= j < |h[k].procs| && !SleepsOn(h[k].procs[j], chan)
  }

  /** Process p is inside one wakeup of the channel at all times from m to n. */
  ghost predicate WakingSince(h: seq<State>, p: int, chan: Chan, m: nat, n: nat) {
    forall k :: m <= k <= n && k < |h| ==> 0 <= p < |h[k].procs| && Code(h[k].procs[p].pc).Waking?
  }

  /** wakeup's turn leaves nobody asleep on the channel at its slot. */
  lemma TurnWakes(s: State, a: Step, p: int, chan: Chan, j: int)
    requires TurnAt(s, a, p, chan, j) && j != p && Enabled(s, a)
    ensures 0 <= j < |s.procs| == |Next(s, a).procs| && !SleepsOn(Next(s, a).procs[j], chan)
  {
  }

  /** A wakeup that began at m has by n passed every slot below the one it is at, and everyone there has been
      awake since it began. */
  lemma {:induction false} WakeupProgress(h: seq<State>, steps: seq<Step>, m: nat, n: nat, p: int, chan: Chan)
    returns (i: int)
    requires History(h, steps) && m <= n < |h| && WakingSince(h, p, chan, m, n) && 0 <= p < |h[m].procs|
             && Wakes(h[m].procs[p], chan, 0)
    ensures 0 <= p < |h[n].procs| && Wakes(h[n].procs[p], chan, i) && 0 <= i
    ensures forall j :: 0 <= j < i && j != p ==> AwakeSometime(h, j, chan, m, n)
  {
    hide Inv, Enabled, Next, Wakes, TurnAt, Code, AwakeAt;
    if m == n {
      i := 0;
    } else {
      var i0 := WakeupProgress(h, steps, m, n - 1, p, chan);
      var s, a := h[n - 1], steps[n - 1];
      assert Follows(s, h[n], a);
      HistoryInv(h, steps, n - 1);
      CodeStep(s, a, p, chan, i0);
      i := i0;
      if !Wakes(h[n].procs[p], chan, i0) {
        i := i0 + 1;
        if i0 != p {
          TurnWakes(s, a, p, chan, i0);
          assert AwakeAt(h, i0, chan, n) by {
            AwakeNow(h, i0, chan, n);
          }
        }
      }
      forall j | 0 <= j < i && j != p ensures AwakeSometime(h, j, chan, m, n) {
        if j < i0 {
          AwakeLater(h, j, chan, m, n - 1, n);
        }
      }
    }
  }

  lemma AwakeNow(h: seq<State>, j: int, chan: Chan, k: nat)
    requires k < |h| && 0 <= j < |h[k].procs| && !SleepsOn(h[k].procs[j], chan)
    ensures AwakeAt(h, j, chan, k)
  {
  }

  lemma AwakeLater(h: seq<State>, j: int, chan: Chan, m: nat, n: nat, n': nat)
    requires AwakeSometime(h, j, chan, m, n) && n <= n'
    ensures AwakeSometime(h, j, chan, m, n')
  {
    var k :| m <= k <= n && AwakeAt(h, j, chan, k);
    assert m <= k <= n' && AwakeAt(h, j, chan, k);
  }

  /** wakeup wakes everyone: from the moment process p is at the beginning of a wakeup to the moment that wakeup
      is done, no other process sleeps on the channel all the time. */
  lemma {:induction false} WakeupReachesAll(h: seq<State>, steps: seq<Step>, m: nat, n: nat, c: int, p: int, chan: Chan,
                                            j: int)
    requires History(h, steps) && m <= n < |steps| && 0 <= p < |h[m].procs| && Wakes(h[m].procs[p], chan, 0)
    requires WakingSince(h, p, chan, m, n) && steps[n] == Basic(c, p, WakeDone) && 0 <= j < |h[n].procs| && j != p
    ensures AwakeSometime(h, j, chan, m, n)
  {
    hide Inv, AwakeSometime;
    var i := WakeupProgress(h, steps, m, n, p, chan);
    assert Follows(h[n], h[n + 1], steps[n]);
  }

  /** Where a wakeup begins. */
  lemma {:induction false} WakeupBegins(h: seq<State>, steps: seq<Step>, m: nat, c: int, p: int, x: int)
    requires History(h, steps) && m < |steps| && steps[m] == Basic(c, p, Wakeup(x))
    ensures 0 <= p < |h[m + 1].procs| && Wakes(h[m + 1].procs[p], Other(x), 0)
  {
    assert Follows(h[m], h[m + 1], steps[m]);
  }

  // ----- no wakeup is lost

  /** The process has committed to sleep on x: it holds its own lock, and is not asleep yet. */
  predicate Commits(q: Proc, x: int) {
    q.pc == Dozing(x)
  }

  lemma CommitsLocked(s: State, p: int, x: int)
    requires Inv(s) && 0 <= p < |s.procs| && Commits(s.procs[p], x)
    ensures |s.lock| == |s.procs| && s.lock[p] != -1 && s.procs[p].state == RUNNING
  {
    assert StateOk(s.procs[p]) && CurrentOk(s.procs, s.cpus, p);
    var c := s.procs[p].on;
    assert CpuOk(s.procs, s.cpus[c], c);
    assert s.lock[p] == c <==> Holds(s.procs, s.cpus[c], p);
  }

  ghost predicate RunnableAt(h: seq<State>, p: int, k: nat) {
    k < |h| && 0 <= p < |h[k].procs| && h[k].procs[p].state == RUNNABLE
  }

  ghost predicate AsleepAt(h: seq<State>, p: int, chan: Chan, k: nat) {
    k < |h| && 0 <= p < |h[k].procs| && SleepsOn(h[k].procs[p], chan)
  }

  /** After m and up to n, the process slept on the channel and was made RUNNABLE again. */
  ghost predicate WokenBetween(h: seq<State>, p: int, chan: Chan, m: nat, n: nat) {
    exists k, l :: m < k < l <= n && AsleepAt(h, p, chan, k) && RunnableAt(h, p, l)
  }

  lemma WokenLater(h: seq<State>, p: int, chan: Chan, m: nat, n: nat)
    requires WokenBetween(h, p, chan, m, n)
    ensures WokenBetween(h, p, chan, m, n + 1)
  {
    var k, l :| m < k < l <= n && AsleepAt(h, p, chan, k) && RunnableAt(h, p, l);
    assert m < k < l <= n + 1 && AsleepAt(h, p, chan, k) && RunnableAt(h, p, l);
  }

  /** One step of a process that commits to sleep, or sleeps. */
  lemma DozeStep(s: State, a: Step, p: int, x: int, t: State)
    requires Moves(s, a, p, t) && (Commits(s.procs[p], x) ==> s.procs[p].state == RUNNING)
    requires a.Basic? && a.basic.Sleep? && a.p == p ==> s.procs[p].state == RUNNING
    ensures Commits(s.procs[p], x) ==> Commits(t.procs[p], x) || SleepsOn(t.procs[p], Other(x))
    ensures SleepsOn(s.procs[p], Other(x)) ==> SleepsOn(t.procs[p], Other(x)) || t.procs[p].state == RUNNABLE
  {
  }

  lemma SleeperRuns(s: State, a: Step, p: int)
    requires Inv(s) && Enabled(s, a) && a.Basic? && a.basic.Sleep? && a.p == p
    ensures 0 <= p < |s.procs| && s.procs[p].state == RUNNING
  {
    assert StateOk(s.procs[p]);
  }

  /** A process that has committed to sleep on x still commits to it, sleeps on x, or has been woken. */
  lemma {:induction false} DozeProgress(h: seq<State>, steps: seq<Step>, m: nat, n: nat, p: int, x: int)
    requires History(h, steps) && m <= n < |h| && 0 <= p < |h[m].procs| && Commits(h[m].procs[p], x)
    ensures 0 <= p < |h[n].procs|
    ensures Commits(h[n].procs[p], x) || (m < n && SleepsOn(h[n].procs[p], Other(x)))
            || WokenBetween(h, p, Other(x), m, n)
  {
    hide Inv, Enabled, Next, Moves, SleepsOn, Commits, WokenBetween;
    if m < n {
      DozeProgress(h, steps, m, n - 1, p, x);
      var s, a := h[n - 1], steps[n - 1];
      assert Follows(s, h[n], a);
      HistoryInv(h, steps, n - 1);
      StateDiagram(h, steps, n - 1, p);
      MovesSize(s, a, p, h[n]);
      if WokenBetween(h, p, Other(x), m, n - 1) {
        WokenLater(h, p, Other(x), m, n - 1);
      } else {
        if Commits(s.procs[p], x) {
          CommitsLocked(s, p, x);
        }
        if a.Basic? && a.basic.Sleep? && a.p == p {
          SleeperRuns(s, a, p);
        }
        DozeStep(s, a, p, x, h[n]);
        if m < n - 1 && h[n].procs[p].state == RUNNABLE && SleepsOn(s.procs[p], Other(x)) {
          WokenNow(h, p, Other(x), m, n - 1);
        }
      }
    }
  }

  lemma WokenNow(h: seq<State>, p: int, chan: Chan, m: nat, n: nat)
    requires m < n && n + 1 < |h| && 0 <= p < |h[n].procs| && 0 <= p < |h[n + 1].procs|
    requires SleepsOn(h[n].procs[p], chan) && h[n + 1].procs[p].state == RUNNABLE
    ensures WokenBetween(h, p, chan, m, n + 1)
  {
    assert AsleepAt(h, p, chan, n) && RunnableAt(h, p, n + 1);
  }

  /** wakeup's turn at a process that has committed to sleep on its channel comes after that process slept. */
  lemma {:induction false} TurnIsNotLost(h: seq<State>, steps: seq<Step>, m: nat, n: nat, p: int, q: int, x: int)
    requires History(h, steps) && m <= n < |steps| && 0 <= p < |h[m].procs| && Commits(h[m].procs[p], x) && q != p
    requires TurnAt(h[n], steps[n], q, Other(x), p)
    ensures WokenBetween(h, p, Other(x), m, n + 1)
  {
    hide Inv, Enabled, Next, Moves, SleepsOn, Commits, WokenBetween;
    DozeProgress(h, steps, m, n, p, x);
    var s, a := h[n], steps[n];
    assert Follows(s, h[n + 1], a);
    HistoryInv(h, steps, n);
    StateDiagram(h, steps, n, p);
    MovesSize(s, a, p, h[n + 1]);
    if WokenBetween(h, p, Other(x), m, n) {
      WokenLater(h, p, Other(x), m, n);
    } else {
      if Commits(s.procs[p], x) {
        CommitsLocked(s, p, x);
      }
      TurnMakesRunnable(s, a, q, x, p, h[n + 1]);
      WokenNow(h, p, Other(x), m, n);
    }
  }

  lemma TurnMakesRunnable(s: State, a: Step, q: int, x: int, p: int, t: State)
    requires Moves(s, a, p, t) && TurnAt(s, a, q, Other(x), p) && q != p && SleepsOn(s.procs[p], Other(x))
    ensures t.procs[p].state == RUNNABLE
  {
  }

  lemma {:induction false} WakeupWakes(h: seq<State>, steps: seq<Step>, m: nat, k: nat, n: nat, p: int, q: int, x: int)
    returns (i: int)
    requires History(h, steps) && m <= k <= n < |h| && 0 <= p < |h[m].procs| && Commits(h[m].procs[p], x) && q != p
    requires WakingSince(h, q, Other(x), k, n) && 0 <= q < |h[k].procs| && Wakes(h[k].procs[q], Other(x), 0)
    ensures 0 <= q < |h[n].procs| && Wakes(h[n].procs[q], Other(x), i)
    ensures p < i ==> WokenBetween(h, p, Other(x), m, n)
  {
    hide Inv, Enabled, Next, Wakes, TurnAt, Code, Commits, WokenBetween;
    if k == n {
      i := 0;
    } else {
      var i0 := WakeupWakes(h, steps, m, k, n - 1, p, q, x);
      var s, a := h[n - 1], steps[n - 1];
      assert Follows(s, h[n], a);
      HistoryInv(h, steps, n - 1);
      CodeStep(s, a, q, Other(x), i0);
      if p < i0 {
        WokenLater(h, p, Other(x), m, n - 1);
      }
      i := i0;
      if !Wakes(h[n].procs[q], Other(x), i0) {
        i := i0 + 1;
        if i0 == p {
          TurnIsNotLost(h, steps, m, n - 1, p, q, x);
        }
      }
    }
  }

  /** No lost wakeup. If process p has committed to sleep on x, holding its own lock as sleep does before it
      lets go of the condition's lock, and another process begins a wakeup of x then or later, then by the end
      of that wakeup p has slept on x and been made RUNNABLE again. */
  lemma {:induction false} NoLostWakeup(h: seq<State>, steps: seq<Step>, m: nat, k: nat, n: nat, c: int, p: int, q: int,
                                        x: int)
    requires History(h, steps) && m <= k <= n < |steps| && 0 <= p < |h[m].procs| && Commits(h[m].procs[p], x) && q != p
    requires WakingSince(h, q, Other(x), k, n) && 0 <= q < |h[k].procs| && Wakes(h[k].procs[q], Other(x), 0)
    requires steps[n] == Basic(c, q, WakeDone)
    ensures WokenBetween(h, p, Other(x), m, n)
  {
    hide Inv, WokenBetween;
    var i := WakeupWakes(h, steps, m, k, n, p, q, x);
    assert Follows(h[n], h[n + 1], steps[n]);
    SameSlots(h, steps, m, n);
  }

  // ----- kill

  /** A process that is killed is marked and awake at once, and stays marked for as long as it has its slot. */
  lemma {:induction false} KilledStays(h: seq<State>, steps: seq<Step>, m: nat, n: nat, c: int, p: int, i: int)
    requires History(h, steps) && m < n < |h| && steps[m] == Shared(c, p, Kill(i))
    requires forall k :: m < k <= n && 0 <= i < |h[k].procs| ==> h[k].procs[i].state != UNUSED
    ensures 0 <= i < |h[n].procs| && h[n].procs[i].killed
    ensures n == m + 1 ==> h[n].procs[i].state != SLEEPING
  {
    hide Inv, Enabled, Next;
    if n == m + 1 {
      assert Follows(h[m], h[n], steps[m]);
      KillInRange(h[m], c, p, i);
      StateDiagram(h, steps, m, i);
    } else {
      KilledStays(h, steps, m, n - 1, c, p, i);
      StateDiagram(h, steps, n - 1, i);
    }
  }

  lemma KillInRange(s: State, c: int, p: int, i: int)
    requires Enabled(s, Shared(c, p, Kill(i)))
    ensures 0 <= i < |s.procs|
  {
  }
}
