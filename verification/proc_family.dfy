/** Parents and children over whole histories: how a process gets its parent, and when kwait gives up. */
module ProcFamily {
  import opened ProcModel
  import opened ProcSafety
  import opened ProcSleep
  import opened ProcTheorems

  /** Process p, on its way out, has come to its child j. */
  predicate Leaves(s: State, a: Step, j: int)
    requires 0 <= j < |s.procs|
  {
    && a.Shared? && a.shared.Reparent? && 0 <= a.p < |s.procs| && s.procs[j].parent == a.p
    && s.procs[a.p].pc.ExitReparent? && s.procs[a.p].pc.i == j
  }

  /** The parent of process j after a step: who forked it, init after that one exits, and nobody once it is gone. */
  function Lineage(s: State, a: Step, j: int): (r: int)
    requires 0 <= j < |s.procs|
  {
    if a.Shared? && a.shared.ForkParent? && Makes(s, a.p, j) then a.p
    else if Leaves(s, a, j) then s.init
    else if s.procs[j].state != UNUSED && Diagram(s, a, j) == UNUSED then -1
    else s.procs[j].parent
  }

  ghost predicate SameFamily(s: State, a: Step, t: State, j: int) {
    t.init == s.init && |t.procs| == |s.procs| && 0 <= j < |s.procs| && t.procs[j].parent == Lineage(s, a, j)
  }

  lemma OwnFamily(s: State, a: Step, j: int)
    requires Inv(s) && Enabled(s, a) && 0 <= j < |s.procs| && !a.Shared?
    ensures SameFamily(s, a, Next(s, a), j)
  {
    hide Inv, Priority;
  }

  lemma ForkFamily(s: State, c: int, p: int, a: SharedStep, j: int)
    requires Inv(s) && CanShared(s, c, p, a) && 0 <= j < |s.procs|
    requires a.ForkFail? || a.ForkFilled? || a.ForkParent? || a.ForkRun?
    ensures SameFamily(s, Shared(c, p, a), DoShared(s, c, p, a), j)
  {
    hide Inv;
    MakesOne(s, c, p);
  }

  lemma OtherFamily(s: State, c: int, p: int, a: SharedStep, j: int)
    requires Inv(s) && CanShared(s, c, p, a) && 0 <= j < |s.procs|
    requires !a.ForkFail? && !a.ForkFilled? && !a.ForkParent? && !a.ForkRun?
    ensures SameFamily(s, Shared(c, p, a), DoShared(s, c, p, a), j)
  {
    hide Inv;
  }

  lemma StepFamily(s: State, a: Step, j: int)
    requires Inv(s) && Enabled(s, a) && 0 <= j < |s.procs|
    ensures SameFamily(s, a, Next(s, a), j)
  {
    hide Inv, CanShared, DoShared, SameFamily;
    if !a.Shared? {
      OwnFamily(s, a, j);
    } else if a.shared.ForkFail? || a.shared.ForkFilled? || a.shared.ForkParent? || a.shared.ForkRun? {
      ForkFamily(s, a.c, a.p, a.shared, j);
    } else {
      OtherFamily(s, a.c, a.p, a.shared, j);
    }
  }

  /** In every history, parents change by fork, by the exit of the parent, and by being reaped, and in no other
      way. */
  lemma {:induction false} ParentsChange(h: seq<State>, steps: seq<Step>, n: nat, j: int)
    requires History(h, steps) && n < |steps| && 0 <= j < |h[n].procs|
    ensures SameFamily(h[n], steps[n], h[n + 1], j)
  {
    hide Inv, SameFamily, Enabled, Next;
    HistoryInv(h, steps, n);
    assert Follows(h[n], h[n + 1], steps[n]);
    StepFamily(h[n], steps[n], j);
  }

  // ----- everyone has a parent

  predicate Started(r: RunState) {
    Alive(r) || r == ZOMBIE
  }

  ghost predicate Parented(s: State, j: int)
    requires 0 <= j < |s.procs|
  {
    j != s.init && Started(s.procs[j].state) ==> 0 <= s.procs[j].parent < |s.procs|
  }

  lemma ParentedStep(s: State, a: Step, j: int)
    requires Inv(s) && Enabled(s, a) && 0 <= j < |s.procs| && Parented(s, j)
    ensures |Next(s, a).procs| == |s.procs| && Parented(Next(s, a), j)
  {
    hide LocksOk, WaitOk, CpusOk, ProcsOk, KidsOk, SleepersOk, WakersOk, Enabled, Next;
    StepFamily(s, a, j);
    StepMoves(s, a, j);
    if a.Shared? && a.shared.ForkRun? && Makes(s, a.p, j) {
      RunsWithParent(s, a, j);
    }
  }

  lemma RunsWithParent(s: State, a: Step, j: int)
    requires Inv(s) && Enabled(s, a) && a.Shared? && a.shared.ForkRun? && 0 <= j < |s.procs| && Makes(s, a.p, j)
    ensures s.procs[j].parent == a.p
  {
    OnCpu(s, a.c, a.p);
  }

  /** In every state of every history, every process that has run, but the first, has a parent, until it has been
      reaped: nobody is left that no kwait would find. */
  lemma {:induction false} EveryoneHasParent(h: seq<State>, steps: seq<Step>, n: nat, j: int)
    requires History(h, steps) && n < |h| && 0 <= j < |h[n].procs|
    ensures Parented(h[n], j)
  {
    hide Inv, Enabled, Next, Boot;
    if n == 0 {
      BootParented(h[0], j);
    } else {
      HistoryInv(h, steps, n - 1);
      SameSlots(h, steps, n - 1, n);
      EveryoneHasParent(h, steps, n - 1, j);
      ParentedStep(h[n - 1], steps[n - 1], j);
    }
  }

  lemma BootParented(s: State, j: int)
    requires Boot(s) && 0 <= j < |s.procs|
    ensures Parented(s, j)
  {
  }

  // ----- kwait

  ghost predicate HasChild(s: State, p: int, below: int) {
    exists j :: 0 <= j < |s.procs| && j < below && s.procs[j].parent == p
  }

  /** A scan in kwait has noticed the children that it has passed. */
  ghost predicate Noticed(s: State, p: int)
    requires 0 <= p < |s.procs|
  {
    s.procs[p].pc.WaitScan? ==> (s.procs[p].pc.kids <==> HasChild(s, p, s.procs[p].pc.i))
  }

  lemma ScanHasWait(s: State, p: int)
    requires Inv(s) && 0 <= p < |s.procs| && s.procs[p].pc.WaitScan?
    ensures var c := s.procs[p].on; 0 <= c < |s.cpus| && s.cpus[c].at == Away(p) && s.wait == c
  {
    hide LocksOk, KidsOk, SleepersOk, WakersOk;
    assert StateOk(s.procs[p]) && CurrentOk(s.procs, s.cpus, p);
    var c := s.procs[p].on;
    assert CpuOk(s.procs, s.cpus[c], c);
    assert s.wait == c <==> HasWait(s.procs, s.cpus[c]);
  }

  /** While one process scans, no other changes whose child anyone is. */
  lemma NobodyElse(s: State, a: Step, p: int, j: int)
    requires Inv(s) && Enabled(s, a) && 0 <= p < |s.procs| && s.procs[p].pc.WaitScan? && 0 <= j < |s.procs|
    requires a.Sched? || a.p != p
    ensures Lineage(s, a, j) == s.procs[j].parent
  {
    hide LocksOk, WaitOk, CpusOk, ProcsOk, KidsOk, SleepersOk, WakersOk;
    ScanHasWait(s, p);
    if !a.Sched? {
      OnCpu(s, a.c, a.p);
      if a.Shared? && a.shared.ForkFail? {
        MakesOne(s, a.c, a.p);
      }
    }
  }

  lemma OthersScan(s: State, a: Step, p: int)
    requires Inv(s) && Enabled(s, a) && 0 <= p < |s.procs| && (a.Sched? || a.p != p)
    ensures |Next(s, a).procs| == |s.procs|
    ensures Next(s, a).procs[p].pc.WaitScan? ==> Next(s, a).procs[p].pc == s.procs[p].pc
  {
    hide Inv, Priority, DoShared;
    if a.Shared? {
      PcOthers(s, a.c, a.p, a.shared, p);
    }
  }

  lemma NoticedOther(s: State, a: Step, p: int)
    requires Inv(s) && Enabled(s, a) && 0 <= p < |s.procs| && (a.Sched? || a.p != p) && Noticed(s, p)
    ensures |Next(s, a).procs| == |s.procs| && Noticed(Next(s, a), p)
  {
    hide Inv, Enabled, Next, Lineage;
    OthersScan(s, a, p);
    var t := Next(s, a);
    if t.procs[p].pc.WaitScan? {
      forall j | 0 <= j < |s.procs| ensures t.procs[j].parent == s.procs[j].parent {
        NobodyElse(s, a, p, j);
        StepFamily(s, a, j);
      }
    }
  }

  lemma ScanShared(s: State, c: int, p: int, a: SharedStep)
    requires CanShared(s, c, p, a) && StateOk(s.procs[p])
    ensures var t := DoShared(s, c, p, a); |t.procs| == |s.procs| && !t.procs[p].pc.WaitScan?
  {
  }

  lemma ScanBasic(s: State, c: int, p: int, a: BasicStep)
    requires CanBasic(s, c, p, a) && StateOk(s.procs[p])
    ensures !DoBasic(s, c, p, a).me.pc.WaitScan? || a.Tick?
    ensures a.Tick? ==> DoBasic(s, c, p, a).me.pc == s.procs[p].pc && Preemptible(s.procs[p].pc)
  {
  }

  /** A scan begins, or goes on to the next slot; there is no other way into it. */
  lemma OwnScan(s: State, a: Step, p: int)
    requires Enabled(s, a) && 0 <= p < |s.procs| && !a.Sched? && a.p == p && StateOk(s.procs[p])
    ensures |Next(s, a).procs| == |s.procs|
    ensures Next(s, a).procs[p].pc.WaitScan? ==> a.Wait? && (a.wait.WaitBegin? || a.wait.NotMine? || a.wait.NotYet?)
  {
    hide StateOk, DoShared, DoBasic;
    if a.Shared? {
      ScanShared(s, a.c, p, a.shared);
    } else if a.Basic? {
      ScanBasic(s, a.c, p, a.basic);
    }
  }

  lemma NoticedWait(s: State, c: int, p: int, a: WaitStep)
    requires CanWait(s, c, p, a) && Noticed(s, p) && (a.WaitBegin? || a.NotMine? || a.NotYet?)
    ensures Noticed(Apply(s, p, DoWait(s, c, p, a)), p)
  {
    var t := Apply(s, p, DoWait(s, c, p, a));
    assert forall j :: 0 <= j < |s.procs| ==> t.procs[j].parent == s.procs[j].parent;
    if a.NotYet? {
      assert t.procs[s.procs[p].pc.i].parent == p;
    }
    if a.NotMine? {
      assert HasChild(t, p, t.procs[p].pc.i) <==> HasChild(s, p, s.procs[p].pc.i);
    }
  }

  lemma NoticedOwn(s: State, a: Step, p: int)
    requires Inv(s) && Enabled(s, a) && 0 <= p < |s.procs| && !a.Sched? && a.p == p && Noticed(s, p)
    ensures |Next(s, a).procs| == |s.procs| && Noticed(Next(s, a), p)
  {
    hide Inv, StateOk, HasChild;
    FitsState(s, p);
    OwnScan(s, a, p);
    if Next(s, a).procs[p].pc.WaitScan? {
      NoticedWait(s, a.c, p, a.wait);
    }
  }

  lemma {:induction false} ScanNotices(h: seq<State>, steps: seq<Step>, n: nat, p: int)
    requires History(h, steps) && n < |h| && 0 <= p < |h[n].procs|
    ensures Noticed(h[n], p)
  {
    hide Inv, Enabled, Next, Boot, Noticed;
    if n == 0 {
      BootNoticed(h[0], p);
    } else {
      HistoryInv(h, steps, n - 1);
      SameSlots(h, steps, n - 1, n);
      ScanNotices(h, steps, n - 1, p);
      var a := steps[n - 1];
      if a.Sched? || a.p != p {
        NoticedOther(h[n - 1], a, p);
      } else {
        NoticedOwn(h[n - 1], a, p);
      }
    }
  }

  lemma BootNoticed(s: State, p: int)
    requires Boot(s) && 0 <= p < |s.procs|
    ensures Noticed(s, p)
  {
  }

  /** kwait gives up exactly if it has been killed or has no child, although children exit, are forked and are
      handed on to init while it scans; otherwise it goes to sleep. */
  lemma {:induction false} WaitGivesUp(h: seq<State>, steps: seq<Step>, n: nat, c: int, p: int)
    requires History(h, steps) && n < |steps| && steps[n] == Wait(c, p, WaitEnd)
    ensures 0 <= p < |h[n].procs| == |h[n + 1].procs|
    ensures h[n + 1].procs[p].pc == if h[n].procs[p].killed || !HasChild(h[n], p, |h[n].procs|) then Run else WaitSleep
  {
    hide Inv, HasChild;
    assert Follows(h[n], h[n + 1], steps[n]);
    ScanNotices(h, steps, n, p);
    SameChildren(h[n], p, h[n].procs[p].pc.i);
  }

  lemma SameChildren(s: State, p: int, below: int)
    requires below >= |s.procs|
    ensures HasChild(s, p, below) <==> HasChild(s, p, |s.procs|)
  {
    if HasChild(s, p, below) {
      var j :| 0 <= j < |s.procs| && j < below && s.procs[j].parent == p;
    }
  }
}
