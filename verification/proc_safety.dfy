/** What every step of every CPU keeps: who holds which lock, who is current where, and that no exit
    is missed. */
module ProcSafety {
  import opened ProcModel

  predicate Alive(r: RunState) {
    r == RUNNING || r == RUNNABLE || r == SLEEPING
  }

  // ----- locks

  ghost predicate LocksOk(procs: seq<Proc>, lock: seq<int>, cpus: seq<Cpu>) {
    && |lock| == |procs|
    && (forall j :: 0 <= j < |lock| ==> -1 <= lock[j] < |cpus|)
    && (forall c, j {:trigger Holds(procs, cpus[c], j)} {:trigger cpus[c], lock[j]} ::
        0 <= c < |cpus| && 0 <= j < |lock| ==>
          (lock[j] == c <==> Holds(procs, cpus[c], j)))
  }

  ghost predicate WaitOk(procs: seq<Proc>, wait: int, cpus: seq<Cpu>) {
    && -1 <= wait < |cpus|
    && (forall c {:trigger cpus[c]} :: 0 <= c < |cpus| ==> (wait == c <==> HasWait(procs, cpus[c])))
  }

  // ----- who runs where

  /** The first slot with the highest priority, -1 if no slot was RUNNABLE. */
  predicate Choice(seen: seq<int>, best: int) {
    && -1 <= best < |seen|
    && (best < 0 ==> forall j :: 0 <= j < |seen| ==> seen[j] < 0)
    && (best >= 0 ==>
          && seen[best] >= 0
          && (forall j :: 0 <= j < best ==> seen[j] < seen[best])
          && (forall j :: best < j < |seen| ==> seen[j] <= seen[best]))
  }

  predicate BestOk(procs: seq<Proc>, seen: seq<int>, best: int) {
    |seen| <= |procs| && Choice(seen, best) && (best >= 0 ==> procs[best].state == RUNNABLE)
  }

  /** Its state has changed, but it has not switched out yet. */
  predicate Going(pc: Pc) {
    pc.Leaving? || pc.ExitZombie?
  }

  predicate CpuOk(procs: seq<Proc>, cpu: Cpu, c: int) {
    match cpu.at
    case Scan(seen, best) => cpu.cur == -1 && BestOk(procs, seen, best)
    case Look(seen, best) => cpu.cur == -1 && BestOk(procs, seen, best) && |seen| < |procs|
    case Picked(b) => cpu.cur == b && 0 <= b < |procs| && procs[b].on == c && procs[b].state == RUNNING
        && procs[b].pc.Resumed?
    case Away(b) => cpu.cur == b && 0 <= b < |procs| && procs[b].on == c && procs[b].state != UNUSED
        && procs[b].state != USED
                    && (procs[b].state == RUNNING <==> !Going(procs[b].pc)) && procs[b].pc != Dead
    case Back(b) =>
      && cpu.cur == b && 0 <= b < |procs| && procs[b].on == c && procs[b].pc.Resumed?
      && procs[b].state in {RUNNABLE, SLEEPING, ZOMBIE}
    case Drop(b) =>
      && cpu.cur == -1 && 0 <= b < |procs| && procs[b].pc.Resumed?
      && procs[b].state in {RUNNABLE, SLEEPING, ZOMBIE}
  }

  ghost predicate CpusOk(procs: seq<Proc>, cpus: seq<Cpu>) {
    forall c :: 0 <= c < |cpus| ==> CpuOk(procs, cpus[c], c)
  }

  // ----- one process

  /** Where a process that is switched out may go on. */
  predicate Continues(pc: Pc) {
    Preemptible(pc) || pc.Dead?
  }

  predicate PcOk(pc: Pc) {
    && (pc.Yielding? ==> Preemptible(pc.next) && PcOk(pc.next))
    && (pc.Leaving? || pc.Resumed? ==> Continues(pc.next) && PcOk(pc.next))
    && (pc.Waking? ==>
        (pc.next.Run? && pc.chan.Other?) || ((pc.next.ExitReparent? || pc.next.ExitWoken?) && pc.chan.OfProc?))
  }

  /** The state fits the place in the code. */
  predicate StateOk(q: Proc) {
    && PcOk(q.pc)
    && (q.state == RUNNABLE || q.state == SLEEPING ==> (q.pc.Leaving? || q.pc.Resumed?) && !q.pc.next.Dead?)
    && (q.state == ZOMBIE ==> q.pc.ExitZombie? || ((q.pc.Leaving? || q.pc.Resumed?) && q.pc.next.Dead?))
    && (q.state == RUNNING ==> q.pc != Dead && !(q.pc.Resumed? && q.pc.next.Dead?))
    && (q.state == USED ==> q.pc == Resumed(Run))
    && (q.state == UNUSED ==> q.pc.Resumed?)
  }

  ghost predicate CurrentOk(procs: seq<Proc>, cpus: seq<Cpu>, p: int)
    requires 0 <= p < |procs|
  {
    procs[p].state == RUNNING || Going(procs[p].pc) ==> 0 <= procs[p].on < |cpus| && cpus[procs[p].on].cur == p
  }

  /** The code that a process will go on with, below yields, sleeps and wakeups. */
  function Base(pc: Pc): (r: Pc) {
    if pc.Yielding? || pc.Leaving? || pc.Resumed? || pc.Waking? then Base(pc.next) else pc
  }

  predicate Forking(pc: Pc) {
    pc.ForkHold? || pc.ForkFree? || pc.ForkWait? || pc.ForkReady?
  }

  /** The child that a process is making is its alone. */
  ghost predicate ForkOk(procs: seq<Proc>, p: int)
    requires 0 <= p < |procs|
  {
    var b := Base(procs[p].pc);
    Alive(procs[p].state) && Forking(b) ==>
      && 0 <= b.child < |procs| && b.child != p && procs[b.child].state == USED && procs[b.child].maker == p
      && (b.ForkReady? ==> procs[b.child].parent == p) && (b.ForkHold? || b.ForkFree? ==> procs[b.child].parent == -1)
      && (procs[b.child].parent == -1 || procs[b.child].parent == p)
  }

  predicate Exiting(pc: Pc) {
    pc.ExitReparent? || pc.ExitWoken? || pc.ExitLocked? || pc.ExitZombie? || pc.Dead?
  }

  ghost predicate InitOk(procs: seq<Proc>, init: int) {
    && 0 <= init < |procs| && Alive(procs[init].state) && procs[init].parent == -1
    && !Exiting(Base(procs[init].pc))
  }

  ghost predicate ProcsOk(procs: seq<Proc>, cpus: seq<Cpu>) {
    forall p :: 0 <= p < |procs| ==> StateOk(procs[p]) && CurrentOk(procs, cpus, p) && ForkOk(procs, p)
  }

  // ----- parents and children

  /** What a process with a child in slot j may be doing: it is alive, has not passed the child over while
      exiting, and has not overlooked it in kwait. */
  predicate KidFits(parent: Proc, j: int, zombie: bool) {
    var b := Base(parent.pc);
    && Alive(parent.state)
    && !b.ExitWoken? && !b.ExitLocked? && !b.ExitZombie? && !b.Dead?
    && (b.ExitReparent? ==> b.i <= j)
    && (zombie ==> !b.WaitSleep? && !b.WaitLocked? && (b.WaitScan? ==> b.i <= j))
  }

  predicate KidOk(procs: seq<Proc>, j: int)
    requires 0 <= j < |procs|
  {
    var p := procs[j].parent;
    && -1 <= p < |procs|
    && (p >= 0 ==> p != j && procs[j].state != UNUSED && KidFits(procs[p], j, procs[j].state == ZOMBIE))
  }

  ghost predicate KidsOk(procs: seq<Proc>) {
    forall j :: 0 <= j < |procs| ==> KidOk(procs, j)
  }

  // ----- sleeping in kwait

  /** Process q sleeps in kwait, or can do nothing else any more. */
  predicate Committed(procs: seq<Proc>, q: int) {
    0 <= q < |procs| && (procs[q].pc.WaitCommitted? || (procs[q].state == SLEEPING && procs[q].chan == OfProc(q)))
  }

  /** The holder of wait_lock has just reparented, and its wakeup has not reached q yet. */
  predicate Owed(procs: seq<Proc>, wait: int, cpus: seq<Cpu>, q: int) {
    && 0 <= wait < |cpus| && cpus[wait].at.Away? && 0 <= cpus[wait].at.b < |procs|
    && var pc := procs[cpus[wait].at.b].pc;
    && pc.Waking? && pc.chan == OfProc(q) && pc.i <= q && pc.next.ExitReparent?
  }

  ghost predicate SleepersOk(procs: seq<Proc>, wait: int, cpus: seq<Cpu>) {
    forall j :: 0 <= j < |procs| && procs[j].state == ZOMBIE && Committed(procs, procs[j].parent) ==>
        Owed(procs, wait, cpus, procs[j].parent)
  }

  /** A wakeup under wait_lock leaves nobody behind it asleep. */
  predicate WakerOk(procs: seq<Proc>, init: int, x: int)
    requires 0 <= x < |procs|
  {
    var pc := procs[x].pc;
    && (pc.Waking? && !pc.next.Run? ==> pc.chan == OfProc(if pc.next.ExitReparent? then init else procs[x].parent))
    && (pc.Waking? && !pc.next.Run? && Committed(procs, pc.chan.q) ==> pc.i <= pc.chan.q)
    && (pc.ExitWoken? || pc.ExitLocked? ==> !Committed(procs, procs[x].parent))
  }

  ghost predicate WakersOk(procs: seq<Proc>, init: int) {
    forall x :: 0 <= x < |procs| && Alive(procs[x].state) ==> WakerOk(procs, init, x)
  }

  ghost predicate Inv(s: State) {
    && LocksOk(s.procs, s.lock, s.cpus) && WaitOk(s.procs, s.wait, s.cpus)
    && CpusOk(s.procs, s.cpus) && ProcsOk(s.procs, s.cpus) && InitOk(s.procs, s.init)
    && KidsOk(s.procs) && SleepersOk(s.procs, s.wait, s.cpus) && WakersOk(s.procs, s.init)
  }

  // ----- a process changes only itself, and perhaps takes or releases its own lock or wait_lock

  /** The state and the place in the code of a process on a CPU go together. */
  predicate OnCpuOk(q: Proc) {
    q.state != UNUSED && q.state != USED && (q.state == RUNNING <==> !Going(q.pc)) && q.pc != Dead && StateOk(q)
  }

  predicate OwnState(me: Proc, me': Proc) {
    && me'.on == me.on && me'.parent == me.parent && me'.maker == me.maker && OnCpuOk(me')
    && (me.state == RUNNING || (me'.state == me.state && !me.pc.Resumed?))
  }

  /** The lock after the step: taken only if it was free. */
  predicate LockMoves(lock: int, lock': int, c: int, had: bool, has: bool) {
    if had == has then lock' == lock else if has then lock == -1 && lock' == c else lock' == -1
  }

  lemma OnlyOn(procs: seq<Proc>, cpus: seq<Cpu>, c: int, p: int, d: int)
    requires CpusOk(procs, cpus) && 0 <= c < |cpus| && cpus[c].at == Away(p) && 0 <= d < |cpus| && d != c
    ensures cpus[d].cur != p && cpus[d].at != Away(p)
  {
    assert CpuOk(procs, cpus[c], c) && CpuOk(procs, cpus[d], d);
  }

  lemma OwnLocks(procs: seq<Proc>, lock: seq<int>, cpus: seq<Cpu>, c: int, p: int, me': Proc, l: int)
    requires LocksOk(procs, lock, cpus) && CpusOk(procs, cpus) && 0 <= c < |cpus| && cpus[c].at == Away(p)
             && 0 <= p < |procs|
    requires !procs[p].pc.ForkHold? && !me'.pc.ForkHold?
             && LockMoves(lock[p], l, c, HoldsOwn(procs[p].pc), HoldsOwn(me'.pc))
    ensures LocksOk(procs[p := me'], lock[p := l], cpus)
  {
    var procs', lock' := procs[p := me'], lock[p := l];
    forall d, j | 0 <= d < |cpus| && 0 <= j < |lock| ensures lock'[j] == d <==> Holds(procs', cpus[d], j) {
      assert lock[j] == d <==> Holds(procs, cpus[d], j);
      assert lock[p] == c <==> Holds(procs, cpus[c], p);
      if d != c {
        OnlyOn(procs, cpus, c, p, d);
        assert Holds(procs', cpus[d], j) == Holds(procs, cpus[d], j);
      }
    }
  }

  lemma OwnWait(procs: seq<Proc>, wait: int, cpus: seq<Cpu>, c: int, p: int, me': Proc, w: int)
    requires WaitOk(procs, wait, cpus) && CpusOk(procs, cpus) && 0 <= c < |cpus| && cpus[c].at == Away(p)
             && 0 <= p < |procs|
    requires LockMoves(wait, w, c, HoldsWait(procs[p].pc), HoldsWait(me'.pc))
    ensures WaitOk(procs[p := me'], w, cpus)
  {
    forall d | 0 <= d < |cpus| ensures w == d <==> HasWait(procs[p := me'], cpus[d]) {
      assert wait == d <==> HasWait(procs, cpus[d]);
      assert wait == c <==> HasWait(procs, cpus[c]);
      if d != c {
        OnlyOn(procs, cpus, c, p, d);
      }
    }
  }

  /** Another CPU's scheduler is not concerned with a process that is running here. */
  lemma NotElsewhere(procs: seq<Proc>, lock: seq<int>, cpus: seq<Cpu>, c: int, p: int, d: int)
    requires LocksOk(procs, lock, cpus) && CpusOk(procs, cpus) && 0 <= c < |cpus| && cpus[c].at == Away(p)
             && 0 <= d < |cpus| && d != c
    requires procs[p].state == RUNNING || !procs[p].pc.Resumed?
    ensures match cpus[d].at case Scan(_, best) => best != p case Look(_, best) => best != p case Picked(b) => b != p
            case Away(b) => b != p case Back(b) => b != p case Drop(b) => b != p
  {
    assert CpuOk(procs, cpus[c], c) && CpuOk(procs, cpus[d], d);
    assert lock[p] == c <==> Holds(procs, cpus[c], p);
    assert lock[p] == d <==> Holds(procs, cpus[d], p);
  }

  lemma OwnCpus(procs: seq<Proc>, lock: seq<int>, cpus: seq<Cpu>, c: int, p: int, me': Proc)
    requires LocksOk(procs, lock, cpus) && CpusOk(procs, cpus) && 0 <= c < |cpus| && cpus[c].at == Away(p)
             && 0 <= p < |procs|
    requires OwnState(procs[p], me')
    ensures CpusOk(procs[p := me'], cpus)
  {
    forall d | 0 <= d < |cpus| ensures CpuOk(procs[p := me'], cpus[d], d) {
      assert CpuOk(procs, cpus[d], d);
      if d != c {
        NotElsewhere(procs, lock, cpus, c, p, d);
      }
    }
  }

  lemma OwnProcs(procs: seq<Proc>, cpus: seq<Cpu>, c: int, p: int, me': Proc)
    requires CpusOk(procs, cpus) && ProcsOk(procs, cpus) && 0 <= c < |cpus| && cpus[c].at == Away(p) && 0 <= p < |procs|
    requires OwnState(procs[p], me') && ForkOk(procs[p := me'], p)
    ensures ProcsOk(procs[p := me'], cpus)
  {
    assert CpuOk(procs, cpus[c], c);
    var procs' := procs[p := me'];
    forall q | 0 <= q < |procs| ensures StateOk(procs'[q]) && CurrentOk(procs', cpus, q) && ForkOk(procs', q) {
      assert StateOk(procs[q]) && CurrentOk(procs, cpus, q) && ForkOk(procs, q);
    }
  }

  /** Its children are content with what the process does next. */
  ghost predicate KidsFit(procs: seq<Proc>, p: int, me': Proc) {
    forall j :: 0 <= j < |procs| && procs[j].parent == p ==> KidFits(me', j, procs[j].state == ZOMBIE)
  }

  lemma OwnKids(procs: seq<Proc>, p: int, me': Proc)
    requires KidsOk(procs) && 0 <= p < |procs| && KidsFit(procs, p, me') && me'.parent == procs[p].parent
    requires me'.state != UNUSED && (me'.state == ZOMBIE ==> procs[p].state == ZOMBIE)
    ensures KidsOk(procs[p := me'])
  {
    var procs' := procs[p := me'];
    forall j | 0 <= j < |procs| ensures KidOk(procs', j) {
      assert KidOk(procs, j);
    }
  }

  /** Only one process holds wait_lock. */
  lemma OneHolder(procs: seq<Proc>, wait: int, cpus: seq<Cpu>, c: int, p: int, x: int)
    requires WaitOk(procs, wait, cpus) && CpusOk(procs, cpus) && ProcsOk(procs, cpus)
    requires 0 <= c < |cpus| && cpus[c].at == Away(p) && 0 <= p < |procs| && HoldsWait(procs[p].pc)
    requires 0 <= x < |procs| && Alive(procs[x].state) && HoldsWait(procs[x].pc)
    ensures x == p
  {
    assert StateOk(procs[x]) && CurrentOk(procs, cpus, x);
    var d := procs[x].on;
    assert CpuOk(procs, cpus[d], d);
    assert wait == d <==> HasWait(procs, cpus[d]);
    assert wait == c <==> HasWait(procs, cpus[c]);
  }

  predicate CommitsNew(procs: seq<Proc>, p: int, me': Proc)
    requires 0 <= p < |procs|
  {
    Committed(procs[p := me'], p) && !Committed(procs, p)
  }

  /** A wakeup that is owed is still owed, unless it has been delivered. */
  predicate StillOwes(procs: seq<Proc>, me: Proc, me': Proc) {
    me.pc.Waking? && me.pc.next.ExitReparent? && me.pc.chan.OfProc? && Committed(procs, me.pc.chan.q)
        && me.pc.i <= me.pc.chan.q ==>
      me'.pc.Waking? && me'.pc.next.ExitReparent? && me'.pc.chan == me.pc.chan && me'.pc.i <= me.pc.chan.q
  }

  lemma OwnSleepers(procs: seq<Proc>, wait: int, cpus: seq<Cpu>, c: int, p: int, me': Proc, w: int)
    requires SleepersOk(procs, wait, cpus) && WaitOk(procs, wait, cpus) && CpusOk(procs, cpus)
    requires 0 <= c < |cpus| && cpus[c].at == Away(p) && 0 <= p < |procs| && me'.parent == procs[p].parent
    requires LockMoves(wait, w, c, HoldsWait(procs[p].pc), HoldsWait(me'.pc)) && StillOwes(procs, procs[p], me')
    requires me'.state == ZOMBIE ==> procs[p].state == ZOMBIE
    requires CommitsNew(procs, p, me') ==>
               forall j :: 0 <= j < |procs| && procs[j].parent == p ==> procs[j].state != ZOMBIE
    ensures SleepersOk(procs[p := me'], w, cpus)
  {
    var procs' := procs[p := me'];
    forall j | 0 <= j < |procs'| && procs'[j].state == ZOMBIE && Committed(procs', procs'[j].parent)
      ensures Owed(procs', w, cpus, procs'[j].parent) {
      var q := procs[j].parent;
      assert Committed(procs, q);
      assert Owed(procs, wait, cpus, q);
      assert wait == c <==> HasWait(procs, cpus[c]);
      if wait != c {
        OnlyOn(procs, cpus, c, p, wait);
      }
    }
  }

  lemma OwnWakers(procs: seq<Proc>, init: int, wait: int, cpus: seq<Cpu>, c: int, p: int, me': Proc)
    requires WakersOk(procs, init) && WaitOk(procs, wait, cpus) && CpusOk(procs, cpus) && ProcsOk(procs, cpus)
    requires 0 <= c < |cpus| && cpus[c].at == Away(p) && 0 <= p < |procs| && me'.parent == procs[p].parent
    requires CommitsNew(procs, p, me') ==> HoldsWait(procs[p].pc)
    requires Alive(me'.state) ==> WakerOk(procs[p := me'], init, p)
    ensures WakersOk(procs[p := me'], init)
  {
    var procs' := procs[p := me'];
    forall x | 0 <= x < |procs'| && Alive(procs'[x].state) ensures WakerOk(procs', init, x) {
      if x != p {
        assert WakerOk(procs, init, x);
        if HoldsWait(procs[x].pc) && HoldsWait(procs[p].pc) {
          OneHolder(procs, wait, cpus, c, p, x);
        }
        assert PcOk(procs[x].pc) by {
          assert StateOk(procs[x]);
        }
      }
    }
  }

  /** Everything that a step on a process's own record must satisfy. */
  ghost predicate OwnOk(s: State, c: int, p: int, o: Own) {
    && Has(s, c, p) && OwnState(s.procs[p], o.me) && ForkOk(s.procs[p := o.me], p) && !s.procs[p].pc.ForkHold?
    && !o.me.pc.ForkHold?
    && LockMoves(s.lock[p], o.lock, c, HoldsOwn(s.procs[p].pc), HoldsOwn(o.me.pc))
    && LockMoves(s.wait, o.wait, c, HoldsWait(s.procs[p].pc), HoldsWait(o.me.pc))
    && KidsFit(s.procs, p, o.me) && (o.me.state == ZOMBIE ==> s.procs[p].state == ZOMBIE)
    && StillOwes(s.procs, s.procs[p], o.me)
    && (CommitsNew(s.procs, p, o.me) ==>
        HoldsWait(s.procs[p].pc) && forall j ::
            0 <= j < |s.procs| && s.procs[j].parent == p ==> s.procs[j].state != ZOMBIE)
    && (Alive(o.me.state) ==> WakerOk(s.procs[p := o.me], s.init, p))
    && (p == s.init ==> Alive(o.me.state) && !Exiting(Base(o.me.pc)))
  }

  lemma OwnKeeps(s: State, c: int, p: int, o: Own)
    requires Inv(s) && OwnOk(s, c, p, o)
    ensures Inv(Apply(s, p, o))
  {
    hide LocksOk, WaitOk, CpusOk, ProcsOk, KidsOk, SleepersOk, WakersOk, KidsFit, StillOwes, CommitsNew;
    OwnLocks(s.procs, s.lock, s.cpus, c, p, o.me, o.lock);
    OwnWait(s.procs, s.wait, s.cpus, c, p, o.me, o.wait);
    OwnCpus(s.procs, s.lock, s.cpus, c, p, o.me);
    OwnProcs(s.procs, s.cpus, c, p, o.me);
    OwnKids(s.procs, p, o.me);
    OwnSleepers(s.procs, s.wait, s.cpus, c, p, o.me, o.wait);
    OwnWakers(s.procs, s.init, s.wait, s.cpus, c, p, o.me);
  }

  /** What the invariant says about the process on a CPU. */
  lemma OnCpu(s: State, c: int, p: int)
    requires Inv(s) && Has(s, c, p)
    ensures OnCpuOk(s.procs[p]) && s.procs[p].on == c && ForkOk(s.procs, p)
    ensures s.lock[p] == c <==> HoldsOwn(s.procs[p].pc)
    ensures s.wait == c <==> HoldsWait(s.procs[p].pc)
    ensures KidsFit(s.procs, p, s.procs[p])
    ensures Alive(s.procs[p].state) ==> WakerOk(s.procs, s.init, p)
    ensures s.procs[p].pc.WaitCommitted? ==> Committed(s.procs, p)
  {
    assert CpuOk(s.procs, s.cpus[c], c);
    assert StateOk(s.procs[p]) && ForkOk(s.procs, p);
    assert s.lock[p] == c <==> Holds(s.procs, s.cpus[c], p);
    assert s.wait == c <==> HasWait(s.procs, s.cpus[c]);
    forall j | 0 <= j < |s.procs| && s.procs[j].parent == p ensures KidFits(s.procs[p], j, s.procs[j].state == ZOMBIE) {
      assert KidOk(s.procs, j);
    }
  }

  lemma BasicOk(s: State, c: int, p: int, a: BasicStep)
    requires Inv(s) && CanBasic(s, c, p, a)
    ensures OwnOk(s, c, p, DoBasic(s, c, p, a))
  {
    hide OwnOk, Inv, DoBasic;
    if a.Resume? || a.Preempt? || a.Yield? || a.Tick? {
      SwitchStepOk(s, c, p, a);
    } else {
      DozeStepOk(s, c, p, a);
    }
  }

  lemma SwitchStepOk(s: State, c: int, p: int, a: BasicStep)
    requires Inv(s) && CanBasic(s, c, p, a) && (a.Resume? || a.Preempt? || a.Yield? || a.Tick?)
    ensures OwnOk(s, c, p, DoBasic(s, c, p, a))
  {
    hide LocksOk, WaitOk, CpusOk, ProcsOk, KidsOk, SleepersOk, WakersOk;
    OnCpu(s, c, p);
  }

  lemma DozeStepOk(s: State, c: int, p: int, a: BasicStep)
    requires Inv(s) && CanBasic(s, c, p, a) && (a.SleepLock? || a.Sleep? || a.Wakeup? || a.WakeDone?)
    ensures OwnOk(s, c, p, DoBasic(s, c, p, a))
  {
    hide LocksOk, WaitOk, CpusOk, ProcsOk, KidsOk, SleepersOk, WakersOk;
    OnCpu(s, c, p);
  }

  lemma ExitOk(s: State, c: int, p: int, a: ExitStep)
    requires Inv(s) && CanExit(s, c, p, a)
    ensures OwnOk(s, c, p, DoExit(s, c, p, a))
  {
    hide LocksOk, WaitOk, CpusOk, ProcsOk, KidsOk, SleepersOk, WakersOk;
    OnCpu(s, c, p);
    assert Base(Waking(OfProc(s.procs[p].parent), 0, ExitWoken)) == Base(ExitWoken);
  }

  lemma LookStepOk(s: State, c: int, p: int, a: WaitStep)
    requires Inv(s) && CanWait(s, c, p, a) && (a.NotMine? || a.NotYet? || a.CopyFailed?)
    ensures OwnOk(s, c, p, DoWait(s, c, p, a))
  {
    hide LocksOk, WaitOk, CpusOk, ProcsOk, KidsOk, SleepersOk, WakersOk;
    OnCpu(s, c, p);
  }

  lemma ScanStepOk(s: State, c: int, p: int, a: WaitStep)
    requires Inv(s) && CanWait(s, c, p, a) && (a.WaitCall? || a.WaitBegin? || a.ForkLock?)
    ensures OwnOk(s, c, p, DoWait(s, c, p, a))
  {
    hide LocksOk, WaitOk, CpusOk, ProcsOk, KidsOk, SleepersOk, WakersOk;
    OnCpu(s, c, p);
  }

  lemma SleepStepOk(s: State, c: int, p: int, a: WaitStep)
    requires Inv(s) && CanWait(s, c, p, a) && (a.WaitRelease? || a.WaitAsleep?)
    ensures OwnOk(s, c, p, DoWait(s, c, p, a))
  {
    hide LocksOk, WaitOk, CpusOk, ProcsOk, KidsOk, SleepersOk, WakersOk;
    OnCpu(s, c, p);
  }

  lemma EndStepOk(s: State, c: int, p: int, a: WaitStep)
    requires Inv(s) && CanWait(s, c, p, a) && (a.WaitEnd? || a.WaitSleepLock?)
    ensures OwnOk(s, c, p, DoWait(s, c, p, a))
  {
    hide LocksOk, WaitOk, CpusOk, ProcsOk, KidsOk, SleepersOk, WakersOk;
    OnCpu(s, c, p);
  }

  lemma WaitStepKeeps(s: State, c: int, p: int, a: WaitStep)
    requires Inv(s) && CanWait(s, c, p, a)
    ensures Inv(Apply(s, p, DoWait(s, c, p, a)))
  {
    if a.WaitEnd? || a.WaitSleepLock? {
      EndStepOk(s, c, p, a);
    } else if a.WaitRelease? || a.WaitAsleep? {
      SleepStepOk(s, c, p, a);
    } else if a.NotMine? || a.NotYet? || a.CopyFailed? {
      LookStepOk(s, c, p, a);
    } else {
      ScanStepOk(s, c, p, a);
    }
    OwnKeeps(s, c, p, DoWait(s, c, p, a));
  }

  // ----- another process is woken or killed

  predicate Gentle(q: Proc, q': Proc) {
    && q'.pc == q.pc && q'.on == q.on && q'.parent == q.parent && q'.maker == q.maker && q'.chan == q.chan
    && (q'.state == q.state || (q.state == SLEEPING && q'.state == RUNNABLE))
  }

  ghost predicate SamePcs(procs: seq<Proc>, procs': seq<Proc>) {
    |procs'| == |procs| && forall j :: 0 <= j < |procs| ==> procs'[j].pc == procs[j].pc
  }

  lemma SamePcsLocks(procs: seq<Proc>, procs': seq<Proc>, lock: seq<int>, wait: int, cpus: seq<Cpu>)
    requires LocksOk(procs, lock, cpus) && WaitOk(procs, wait, cpus) && SamePcs(procs, procs')
    ensures LocksOk(procs', lock, cpus) && WaitOk(procs', wait, cpus)
  {
    forall c, j | 0 <= c < |cpus| && 0 <= j < |lock| ensures lock[j] == c <==> Holds(procs', cpus[c], j) {
      assert lock[j] == c <==> Holds(procs, cpus[c], j);
    }
    forall c | 0 <= c < |cpus| ensures wait == c <==> HasWait(procs', cpus[c]) {
      assert wait == c <==> HasWait(procs, cpus[c]);
    }
  }

  lemma GentleRuns(procs: seq<Proc>, cpus: seq<Cpu>, i: int, q': Proc)
    requires CpusOk(procs, cpus) && ProcsOk(procs, cpus) && 0 <= i < |procs| && Gentle(procs[i], q')
    ensures CpusOk(procs[i := q'], cpus) && ProcsOk(procs[i := q'], cpus)
  {
    var procs' := procs[i := q'];
    forall c | 0 <= c < |cpus| ensures CpuOk(procs', cpus[c], c) {
      assert CpuOk(procs, cpus[c], c);
    }
    forall p | 0 <= p < |procs'| ensures StateOk(procs'[p]) && CurrentOk(procs', cpus, p) && ForkOk(procs', p) {
      assert StateOk(procs[p]) && CurrentOk(procs, cpus, p) && ForkOk(procs, p);
    }
  }

  lemma GentleFamilies(procs: seq<Proc>, wait: int, cpus: seq<Cpu>, init: int, i: int, q': Proc)
    requires KidsOk(procs) && SleepersOk(procs, wait, cpus) && WakersOk(procs, init) && InitOk(procs, init)
             && 0 <= i < |procs| && Gentle(procs[i], q')
    ensures var procs' := procs[i := q'];
            KidsOk(procs') && SleepersOk(procs', wait, cpus) && WakersOk(procs', init) && InitOk(procs', init)
  {
    var procs' := procs[i := q'];
    assert forall q :: Committed(procs', q) ==> Committed(procs, q);
    forall j | 0 <= j < |procs'| ensures KidOk(procs', j) {
      assert KidOk(procs, j);
    }
    forall x | 0 <= x < |procs'| && Alive(procs'[x].state) ensures WakerOk(procs', init, x) {
      assert WakerOk(procs, init, x);
    }
    forall j | 0 <= j < |procs'| && procs'[j].state == ZOMBIE && Committed(procs', procs'[j].parent)
      ensures Owed(procs', wait, cpus, procs'[j].parent) {
      assert Owed(procs, wait, cpus, procs[j].parent);
    }
  }

  lemma GentleKeeps(s: State, i: int, q': Proc)
    requires Inv(s) && 0 <= i < |s.procs| && Gentle(s.procs[i], q')
    ensures Inv(SetProc(s, i, q'))
  {
    hide LocksOk, WaitOk, CpusOk, ProcsOk, KidsOk, SleepersOk, WakersOk, InitOk;
    SamePcsLocks(s.procs, s.procs[i := q'], s.lock, s.wait, s.cpus);
    GentleRuns(s.procs, s.cpus, i, q');
    GentleFamilies(s.procs, s.wait, s.cpus, s.init, i, q');
  }

  /** A process that is in the middle of something holds its own lock. */
  lemma UnlockedIsOff(s: State, i: int)
    requires Inv(s) && 0 <= i < |s.procs| && s.lock[i] == -1
    ensures !s.procs[i].pc.WaitCommitted? && !Going(s.procs[i].pc)
    ensures forall c ::
              0 <= c < |s.cpus| && s.cpus[c].cur == i ==> s.procs[i].state == RUNNING && s.cpus[c].at == Away(i)
  {
    assert StateOk(s.procs[i]) && CurrentOk(s.procs, s.cpus, i);
    forall d | 0 <= d < |s.cpus| && s.cpus[d].cur == i
      ensures s.procs[i].state == RUNNING && s.cpus[d].at == Away(i) && !HoldsOwn(s.procs[i].pc) {
      assert CpuOk(s.procs, s.cpus[d], d);
      assert s.lock[i] == d <==> Holds(s.procs, s.cpus[d], i);
    }
  }

  /** A slot that wakeup has passed is not asleep on the channel: its lock was free, so it was not about to sleep. */
  lemma WokenIsUp(s: State, i: int, chan: Chan)
    requires Inv(s) && 0 <= i < |s.procs| && s.lock[i] == -1 && chan == OfProc(i)
    ensures !Committed(s.procs[i := Woken(s.procs[i], chan)], i)
  {
    UnlockedIsOff(s, i);
  }

  /** wakeup may go on to the next slot once this one is not asleep on its channel. */
  lemma WakeNextOk(s: State, c: int, p: int)
    requires Inv(s) && Has(s, c, p) && s.procs[p].pc.Waking? && 0 <= s.procs[p].pc.i
    requires s.procs[p].pc.chan == OfProc(s.procs[p].pc.i) ==> !Committed(s.procs, s.procs[p].pc.i)
    ensures var pc := s.procs[p].pc; OwnOk(s, c, p, Goto(s, p, Waking(pc.chan, pc.i + 1, pc.next)))
  {
    hide LocksOk, WaitOk, CpusOk, ProcsOk, KidsOk, SleepersOk, WakersOk;
    OnCpu(s, c, p);
  }

  lemma WakeOneKeeps(s: State, c: int, p: int)
    requires Inv(s) && CanShared(s, c, p, WakeOne)
    ensures Inv(DoShared(s, c, p, WakeOne))
  {
    hide Inv, OwnOk;
    var pc := s.procs[p].pc;
    var i := pc.i;
    var s1 := if i == p then s else SetProc(s, i, Woken(s.procs[i], pc.chan));
    if i != p {
      GentleKeeps(s, i, Woken(s.procs[i], pc.chan));
      if pc.chan == OfProc(i) {
        WokenIsUp(s, i, pc.chan);
      }
    } else {
      NotAsleepHere(s, c, p);
    }
    WakeNextOk(s1, c, p);
    OwnKeeps(s1, c, p, Goto(s1, p, Waking(pc.chan, i + 1, pc.next)));
  }

  lemma NotAsleepHere(s: State, c: int, p: int)
    requires Inv(s) && Has(s, c, p) && s.procs[p].pc.Waking?
    ensures !Committed(s.procs, p)
  {
    OnCpu(s, c, p);
  }

  // ----- a slot that no CPU is concerned with

  lemma IdleCpus(s: State, i: int, q': Proc)
    requires Inv(s) && 0 <= i < |s.procs| && s.lock[i] == -1 && s.procs[i].state != RUNNING
    ensures CpusOk(s.procs[i := q'], s.cpus)
    ensures LocksOk(s.procs[i := q'], s.lock, s.cpus) && WaitOk(s.procs[i := q'], s.wait, s.cpus)
  {
    var procs' := s.procs[i := q'];
    UnlockedIsOff(s, i);
    forall d | 0 <= d < |s.cpus|
      ensures CpuOk(procs', s.cpus[d], d) && s.cpus[d].at != Away(i)
    {
      assert CpuOk(s.procs, s.cpus[d], d);
      assert s.lock[i] == d <==> Holds(s.procs, s.cpus[d], i);
    }
    forall d, j | 0 <= d < |s.cpus| && 0 <= j < |s.lock| ensures s.lock[j] == d <==> Holds(procs', s.cpus[d], j) {
      assert s.lock[j] == d <==> Holds(s.procs, s.cpus[d], j);
    }
    forall d | 0 <= d < |s.cpus| ensures s.wait == d <==> HasWait(procs', s.cpus[d]) {
      assert s.wait == d <==> HasWait(s.procs, s.cpus[d]);
    }
  }

  /** Nobody is making this child. */
  ghost predicate Unmade(procs: seq<Proc>, i: int) {
    forall x :: 0 <= x < |procs| && Alive(procs[x].state) && Forking(Base(procs[x].pc)) ==> Base(procs[x].pc).child != i
  }

  /** An idle slot becomes free, allocated, or ready to run. */
  predicate Turns(q: Proc, q': Proc) {
    && (q.state == ZOMBIE || q.state == USED || q.state == UNUSED) && StateOk(q') && q'.pc.Resumed?
    && (q'.state == UNUSED || q'.state == USED || (q'.state == RUNNABLE && q'.pc == Resumed(Run)))
    && (q'.parent == -1 || (q'.parent == q.parent && q'.state != UNUSED))
  }

  lemma TurnProcs(procs: seq<Proc>, cpus: seq<Cpu>, init: int, i: int, q': Proc)
    requires ProcsOk(procs, cpus) && InitOk(procs, init) && 0 <= i < |procs| && Turns(procs[i], q') && Unmade(procs, i)
    ensures ProcsOk(procs[i := q'], cpus) && InitOk(procs[i := q'], init)
  {
    var procs' := procs[i := q'];
    forall p | 0 <= p < |procs'| ensures StateOk(procs'[p]) && CurrentOk(procs', cpus, p) && ForkOk(procs', p) {
      assert StateOk(procs[p]) && CurrentOk(procs, cpus, p) && ForkOk(procs, p);
      if p == i && Alive(q'.state) {
        assert Base(q'.pc) == Base(q'.pc.next);
      }
    }
  }

  lemma TurnFamilies(procs: seq<Proc>, wait: int, cpus: seq<Cpu>, init: int, i: int, q': Proc)
    requires KidsOk(procs) && SleepersOk(procs, wait, cpus) && WakersOk(procs, init) && 0 <= i < |procs|
             && Turns(procs[i], q')
    requires forall c :: 0 <= c < |cpus| ==> cpus[c].at != Away(i)
    ensures var procs' := procs[i := q']; KidsOk(procs') && SleepersOk(procs', wait, cpus) && WakersOk(procs', init)
  {
    var procs' := procs[i := q'];
    assert forall q :: Committed(procs', q) ==> Committed(procs, q);
    forall j | 0 <= j < |procs'| ensures KidOk(procs', j) {
      assert KidOk(procs, j);
    }
    forall x | 0 <= x < |procs'| && Alive(procs'[x].state) ensures WakerOk(procs', init, x) {
      assert x != i ==> WakerOk(procs, init, x);
    }
    forall j | 0 <= j < |procs'| && procs'[j].state == ZOMBIE && Committed(procs', procs'[j].parent)
      ensures Owed(procs', wait, cpus, procs'[j].parent) {
      assert Owed(procs, wait, cpus, procs[j].parent);
    }
  }

  lemma TurnKeeps(s: State, i: int, q': Proc)
    requires Inv(s) && 0 <= i < |s.procs| && s.lock[i] == -1 && Turns(s.procs[i], q') && Unmade(s.procs, i)
    ensures Inv(SetProc(s, i, q'))
  {
    hide LocksOk, WaitOk, CpusOk, ProcsOk, KidsOk, SleepersOk, WakersOk, Unmade;
    IdleCpus(s, i, q');
    TurnProcs(s.procs, s.cpus, s.init, i, q');
    UnlockedIsOff(s, i);
    forall c | 0 <= c < |s.cpus| ensures s.cpus[c].at != Away(i) {
      NotAway(s, i, c);
    }
    TurnFamilies(s.procs, s.wait, s.cpus, s.init, i, q');
  }

  lemma NotAway(s: State, i: int, c: int)
    requires Inv(s) && 0 <= i < |s.procs| && s.lock[i] == -1 && s.procs[i].state != RUNNING && 0 <= c < |s.cpus|
    ensures s.cpus[c].at != Away(i)
  {
    assert CpuOk(s.procs, s.cpus[c], c);
    UnlockedIsOff(s, i);
  }

  /** A child is made only while it is USED, by its one maker. */
  lemma MadeByOne(s: State, i: int)
    requires Inv(s) && 0 <= i < |s.procs|
    ensures s.procs[i].state != USED ==> Unmade(s.procs, i)
    ensures var m := s.procs[i].maker;
            s.procs[i].state == USED && 0 <= m < |s.procs| && !Forking(Base(s.procs[m].pc)) ==> Unmade(s.procs, i)
  {
    forall x | 0 <= x < |s.procs| && Alive(s.procs[x].state) && Forking(Base(s.procs[x].pc))
        && Base(s.procs[x].pc).child == i
      ensures s.procs[i].state == USED && s.procs[i].maker == x
    {
      assert ForkOk(s.procs, x);
    }
  }

  lemma ReapKeeps(s: State, c: int, p: int)
    requires Inv(s) && CanShared(s, c, p, Reap)
    ensures Inv(DoShared(s, c, p, Reap))
  {
    hide Inv, OwnOk;
    var i := s.procs[p].pc.i;
    ReapReady(s, c, p);
    MadeByOne(s, i);
    TurnKeeps(s, i, Freed(s.procs[i]));
    var s1 := SetProc(s, i, Freed(s.procs[i]));
    ReapedOk(s1, c, p);
    OwnKeeps(s1, c, p, Goto(s1, p, Run).(wait := -1));
  }

  lemma ReapReady(s: State, c: int, p: int)
    requires Inv(s) && CanShared(s, c, p, Reap)
    ensures s.procs[p].pc.i != p && Turns(s.procs[s.procs[p].pc.i], Freed(s.procs[s.procs[p].pc.i]))
  {
    var i := s.procs[p].pc.i;
    UnlockedIsOff(s, i);
    assert KidOk(s.procs, i);
    assert StateOk(s.procs[i]);
  }

  lemma ReapedOk(s: State, c: int, p: int)
    requires Inv(s) && Has(s, c, p) && s.procs[p].pc.WaitScan?
    ensures OwnOk(s, c, p, Goto(s, p, Run).(wait := -1))
  {
    hide LocksOk, WaitOk, CpusOk, ProcsOk, KidsOk, SleepersOk, WakersOk;
    OnCpu(s, c, p);
  }

  lemma ForkRunKeeps(s: State, c: int, p: int)
    requires Inv(s) && CanShared(s, c, p, ForkRun)
    ensures Inv(DoShared(s, c, p, ForkRun))
  {
    hide Inv, OwnOk;
    var i := s.procs[p].pc.child;
    ForkRunOk(s, c, p);
    OwnKeeps(s, c, p, Goto(s, p, Run));
    var s1 := Apply(s, p, Goto(s, p, Run));
    MadeByOne(s1, i);
    TurnKeeps(s1, i, s1.procs[i].(state := RUNNABLE));
  }

  lemma ForkRunOk(s: State, c: int, p: int)
    requires Inv(s) && CanShared(s, c, p, ForkRun)
    ensures OwnOk(s, c, p, Goto(s, p, Run))
    ensures var i := s.procs[p].pc.child;
            i != p && s.procs[i].maker == p && s.procs[i].state == USED && s.procs[i].pc == Resumed(Run)
  {
    hide LocksOk, WaitOk, CpusOk, KidsOk, SleepersOk, WakersOk;
    OnCpu(s, c, p);
    assert StateOk(s.procs[s.procs[p].pc.child]);
  }

  // ----- fork takes and releases the child's lock

  lemma ChildLocks(procs: seq<Proc>, lock: seq<int>, cpus: seq<Cpu>, c: int, p: int, pc: Pc, i: int)
    requires LocksOk(procs, lock, cpus) && CpusOk(procs, cpus) && 0 <= c < |cpus| && cpus[c].at == Away(p)
             && 0 <= p < |procs| && 0 <= i < |procs| && i != p
    requires !HoldsOwn(procs[p].pc) && !HoldsOwn(pc)
    requires if pc.ForkHold? then !procs[p].pc.ForkHold? && pc.child == i && lock[i] == -1
             else procs[p].pc == ForkHold(i)
    ensures LocksOk(procs[p := procs[p].(pc := pc)], lock[i := if pc.ForkHold? then c else -1], cpus)
  {
    var procs', lock' := procs[p := procs[p].(pc := pc)], lock[i := if pc.ForkHold? then c else -1];
    assert lock[i] == c <==> Holds(procs, cpus[c], i);
    forall d, j | 0 <= d < |cpus| && 0 <= j < |lock| ensures lock'[j] == d <==> Holds(procs', cpus[d], j) {
      assert lock[j] == d <==> Holds(procs, cpus[d], j);
      if d != c {
        OnlyOn(procs, cpus, c, p, d);
      }
    }
  }

  /** The same, as far as everything but the child's lock is concerned. */
  ghost predicate ForkMoveOk(s: State, c: int, p: int, me': Proc) {
    && Has(s, c, p) && OwnState(s.procs[p], me') && ForkOk(s.procs[p := me'], p) && me'.state == RUNNING
    && !HoldsWait(s.procs[p].pc) && !HoldsWait(me'.pc) && KidsFit(s.procs, p, me')
    && StillOwes(s.procs, s.procs[p], me')
    && !CommitsNew(s.procs, p, me') && WakerOk(s.procs[p := me'], s.init, p) && !Exiting(Base(me'.pc))
  }

  lemma ForkMoveKeeps(s: State, c: int, p: int, me': Proc)
    requires Inv(s) && ForkMoveOk(s, c, p, me')
    ensures var procs' := s.procs[p := me'];
            && WaitOk(procs', s.wait, s.cpus) && CpusOk(procs', s.cpus) && ProcsOk(procs', s.cpus)
            && InitOk(procs', s.init)
            && KidsOk(procs') && SleepersOk(procs', s.wait, s.cpus) && WakersOk(procs', s.init)
  {
    hide LocksOk, WaitOk, CpusOk, ProcsOk, KidsOk, SleepersOk, WakersOk, KidsFit, StillOwes, CommitsNew;
    OwnWait(s.procs, s.wait, s.cpus, c, p, me', s.wait);
    OwnCpus(s.procs, s.lock, s.cpus, c, p, me');
    OwnProcs(s.procs, s.cpus, c, p, me');
    OwnKids(s.procs, p, me');
    OwnSleepers(s.procs, s.wait, s.cpus, c, p, me', s.wait);
    OwnWakers(s.procs, s.init, s.wait, s.cpus, c, p, me');
  }

  lemma ForkMove(s: State, c: int, p: int, pc: Pc, i: int)
    requires Inv(s) && Has(s, c, p) && 0 <= i < |s.procs| && i != p
    requires s.procs[i].state == USED && s.procs[i].maker == p && s.procs[i].parent == -1
    requires (s.procs[p].pc.Run? && pc == ForkHold(i) && s.lock[i] == -1)
             || (s.procs[p].pc == ForkHold(i) && (pc == ForkFree(i) || pc.Run?))
    ensures Inv(SetPc(s, p, pc).(lock := s.lock[i := if pc.ForkHold? then c else -1]))
  {
    hide LocksOk, WaitOk, CpusOk, ProcsOk, KidsOk, SleepersOk, WakersOk;
    OnCpu(s, c, p);
    ChildLocks(s.procs, s.lock, s.cpus, c, p, pc, i);
    ForkMoveKeeps(s, c, p, s.procs[p].(pc := pc));
  }

  lemma ForkAllocKeeps(s: State, c: int, p: int, i: int)
    requires Inv(s) && CanShared(s, c, p, ForkAlloc(i))
    ensures Inv(DoShared(s, c, p, ForkAlloc(i)))
  {
    hide LocksOk, WaitOk, CpusOk, ProcsOk, SleepersOk, WakersOk;
    OnCpu(s, c, p);
    MadeByOne(s, i);
    assert KidOk(s.procs, i);
    TurnKeeps(s, i, Allocated(s.procs[i], p));
    ForkMove(SetProc(s, i, Allocated(s.procs[i], p)), c, p, ForkHold(i), i);
  }

  lemma ForkHeld(s: State, c: int, p: int)
    requires Inv(s) && Has(s, c, p) && Forking(s.procs[p].pc)
    ensures var i := s.procs[p].pc.child;
            && 0 <= i < |s.procs| && i != p && s.procs[i].state == USED && s.procs[i].maker == p
            && s.procs[i].pc == Resumed(Run)
            && (s.procs[i].parent == -1 || s.procs[i].parent == p)
            && (s.procs[p].pc.ForkHold? ==> s.procs[i].parent == -1)
            && s.procs[p].state == RUNNING && i != s.init
  {
    OnCpu(s, c, p);
    assert StateOk(s.procs[s.procs[p].pc.child]);
  }

  lemma ForkFilledKeeps(s: State, c: int, p: int)
    requires Inv(s) && CanShared(s, c, p, ForkFilled)
    ensures Inv(DoShared(s, c, p, ForkFilled))
  {
    hide Inv;
    ForkHeld(s, c, p);
    ForkMove(s, c, p, ForkFree(s.procs[p].pc.child), s.procs[p].pc.child);
  }

  lemma ForkFailKeeps(s: State, c: int, p: int)
    requires Inv(s) && CanShared(s, c, p, ForkFail)
    ensures Inv(DoShared(s, c, p, ForkFail))
  {
    hide Inv;
    var i := s.procs[p].pc.child;
    ForkHeld(s, c, p);
    ForkMove(s, c, p, Run, i);
    var s1 := SetPc(s, p, Run).(lock := s.lock[i := -1]);
    MadeByOne(s1, i);
    TurnKeeps(s1, i, Freed(s1.procs[i]));
    assert SetProc(s1, i, Freed(s1.procs[i])) == DoShared(s, c, p, ForkFail);
  }

  // ----- a process gets a parent

  ghost predicate MayAdopt(s: State, i: int, q: int) {
    && 0 <= i < |s.procs| && 0 <= q < |s.procs| && i != q && i != s.init && s.procs[i].state != UNUSED
    && KidFits(s.procs[q], i, s.procs[i].state == ZOMBIE)
    && (Alive(s.procs[i].state) ==> !HoldsWait(s.procs[i].pc))
    && (s.procs[i].state == ZOMBIE && Committed(s.procs, q) ==> Owed(s.procs, s.wait, s.cpus, q))
    && (Unmade(s.procs, i) || (s.procs[i].maker == q && s.procs[q].pc.ForkWait?))
  }

  lemma AdoptProcs(s: State, i: int, q: int)
    requires Inv(s) && MayAdopt(s, i, q)
    ensures var procs' := s.procs[i := s.procs[i].(parent := q)];
            CpusOk(procs', s.cpus) && ProcsOk(procs', s.cpus) && InitOk(procs', s.init)
  {
    var procs' := s.procs[i := s.procs[i].(parent := q)];
    forall c | 0 <= c < |s.cpus| ensures CpuOk(procs', s.cpus[c], c) {
      assert CpuOk(s.procs, s.cpus[c], c);
    }
    forall p | 0 <= p < |procs'| ensures StateOk(procs'[p]) && CurrentOk(procs', s.cpus, p) && ForkOk(procs', p) {
      assert StateOk(s.procs[p]) && CurrentOk(s.procs, s.cpus, p) && ForkOk(s.procs, p);
    }
  }

  lemma AdoptFamilies(s: State, i: int, q: int)
    requires Inv(s) && MayAdopt(s, i, q)
    ensures var procs' := s.procs[i := s.procs[i].(parent := q)];
            KidsOk(procs') && SleepersOk(procs', s.wait, s.cpus) && WakersOk(procs', s.init)
  {
    var procs' := s.procs[i := s.procs[i].(parent := q)];
    assert forall x :: Committed(procs', x) <==> Committed(s.procs, x);
    forall j | 0 <= j < |procs'| ensures KidOk(procs', j) {
      assert KidOk(s.procs, j);
    }
    forall x | 0 <= x < |procs'| && Alive(procs'[x].state) ensures WakerOk(procs', s.init, x) {
      assert WakerOk(s.procs, s.init, x);
      assert PcOk(s.procs[x].pc) by {
        assert StateOk(s.procs[x]);
      }
    }
    forall j | 0 <= j < |procs'| && procs'[j].state == ZOMBIE && Committed(procs', procs'[j].parent)
      ensures Owed(procs', s.wait, s.cpus, procs'[j].parent)
    {
      assert Owed(s.procs, s.wait, s.cpus, procs'[j].parent);
    }
  }

  lemma AdoptKeeps(s: State, i: int, q: int)
    requires Inv(s) && MayAdopt(s, i, q)
    ensures Inv(SetProc(s, i, s.procs[i].(parent := q)))
  {
    hide LocksOk, WaitOk, CpusOk, ProcsOk, KidsOk, SleepersOk, WakersOk, InitOk;
    SamePcsLocks(s.procs, s.procs[i := s.procs[i].(parent := q)], s.lock, s.wait, s.cpus);
    AdoptProcs(s, i, q);
    AdoptFamilies(s, i, q);
  }

  lemma ForkParentKeeps(s: State, c: int, p: int)
    requires Inv(s) && CanShared(s, c, p, ForkParent)
    ensures Inv(DoShared(s, c, p, ForkParent))
  {
    hide Inv, OwnOk;
    var i := s.procs[p].pc.child;
    ForkHeld(s, c, p);
    assert MayAdopt(s, i, p);
    AdoptKeeps(s, i, p);
    var s1 := SetProc(s, i, s.procs[i].(parent := p));
    ForkReadyOk(s1, c, p);
    OwnKeeps(s1, c, p, Goto(s1, p, ForkReady(i)).(wait := -1));
    assert s1.lock[p := s1.lock[p]] == s.lock;
  }

  lemma ForkReadyOk(s: State, c: int, p: int)
    requires Inv(s) && Has(s, c, p) && s.procs[p].pc.ForkWait?
    requires 0 <= s.procs[p].pc.child < |s.procs| && s.procs[s.procs[p].pc.child].parent == p
    ensures OwnOk(s, c, p, Goto(s, p, ForkReady(s.procs[p].pc.child)).(wait := -1))
  {
    hide LocksOk, WaitOk, CpusOk, ProcsOk, KidsOk, SleepersOk, WakersOk;
    OnCpu(s, c, p);
  }

  // ----- reparent: the wakeup of init is owed before the child changes parents

  lemma ReparentWakes(s: State, c: int, p: int)
    requires Inv(s) && Has(s, c, p) && s.procs[p].pc.ExitReparent?
    ensures OwnOk(s, c, p, Goto(s, p, Waking(OfProc(s.init), 0, s.procs[p].pc)))
    ensures p != s.init && s.procs[p].state == RUNNING
  {
    hide LocksOk, WaitOk, CpusOk, ProcsOk, KidsOk, SleepersOk, WakersOk;
    OnCpu(s, c, p);
    assert Base(Waking(OfProc(s.init), 0, s.procs[p].pc)) == Base(s.procs[p].pc);
  }

  lemma ReparentAdopts(s: State, c: int, p: int, i: int)
    requires Inv(s) && Has(s, c, p) && s.procs[p].pc == Waking(OfProc(s.init), 0, ExitReparent(i)) && 0 <= i < |s.procs|
             && s.procs[i].parent == p
    ensures MayAdopt(s, i, s.init)
  {
    OnCpu(s, c, p);
    assert KidOk(s.procs, i);
    assert Base(s.procs[p].pc) == Base(ExitReparent(i));
    if HoldsWait(s.procs[s.init].pc) {
      OneHolder(s.procs, s.wait, s.cpus, c, p, s.init);
    }
    if Alive(s.procs[i].state) && HoldsWait(s.procs[i].pc) {
      OneHolder(s.procs, s.wait, s.cpus, c, p, i);
    }
    forall x | 0 <= x < |s.procs| && Alive(s.procs[x].state) && Forking(Base(s.procs[x].pc))
      ensures Base(s.procs[x].pc).child != i {
      assert ForkOk(s.procs, x);
    }
    assert s.wait == c <==> HasWait(s.procs, s.cpus[c]);
    InitFits(s, i);
  }

  lemma InitFits(s: State, i: int)
    requires Inv(s) && !HoldsWait(s.procs[s.init].pc) && 0 <= i < |s.procs|
    ensures KidFits(s.procs[s.init], i, s.procs[i].state == ZOMBIE)
  {
    assert StateOk(s.procs[s.init]);
    BaseOfOk(s.procs[s.init].pc);
  }

  /** What lies below a yield, sleep or wakeup holds no lock. */
  lemma {:induction false} BaseOfOk(pc: Pc)
    requires PcOk(pc) && !HoldsWait(pc)
    ensures !HoldsWait(Base(pc))
  {
    if pc.Yielding? || pc.Leaving? || pc.Resumed? {
      BaseOfOk(pc.next);
    }
  }

  lemma ReparentMoves(s: State, c: int, p: int, i: int)
    requires Inv(s) && Has(s, c, p) && s.procs[p].pc == Waking(OfProc(s.init), 0, ExitReparent(i)) && 0 <= i < |s.procs|
             && s.procs[i].parent != p
    ensures OwnOk(s, c, p, Goto(s, p, Waking(OfProc(s.init), 0, ExitReparent(i + 1))))
  {
    hide LocksOk, WaitOk, CpusOk, ProcsOk, KidsOk, SleepersOk, WakersOk;
    OnCpu(s, c, p);
    assert Base(Waking(OfProc(s.init), 0, ExitReparent(i + 1))) == Base(ExitReparent(i + 1));
    assert Base(s.procs[p].pc) == Base(ExitReparent(i));
  }

  lemma ReparentKeeps(s: State, c: int, p: int)
    requires Inv(s) && CanShared(s, c, p, Reparent)
    ensures Inv(DoShared(s, c, p, Reparent))
  {
    hide Inv, OwnOk, MayAdopt;
    var i := s.procs[p].pc.i;
    ReparentWakes(s, c, p);
    var o1 := Goto(s, p, Waking(OfProc(s.init), 0, s.procs[p].pc));
    OwnKeeps(s, c, p, o1);
    var s1 := Apply(s, p, o1);
    NotOwnKid(s, p, i);
    ReparentAdopts(s1, c, p, i);
    AdoptKeeps(s1, i, s.init);
    var s2 := SetProc(s1, i, s1.procs[i].(parent := s.init));
    ReparentMoves(s2, c, p, i);
    var o3 := Goto(s2, p, Waking(OfProc(s.init), 0, ExitReparent(i + 1)));
    OwnKeeps(s2, c, p, o3);
    assert Apply(s2, p, o3) == DoShared(s, c, p, Reparent);
  }

  lemma NotOwnKid(s: State, p: int, i: int)
    requires Inv(s) && 0 <= i < |s.procs| && s.procs[i].parent == p && 0 <= p
    ensures i != p
  {
    assert KidOk(s.procs, i);
  }

  // ----- becoming a zombie: no child is left, and the parent is awake

  /** Nobody is looking for children while another process holds wait_lock. */
  lemma ParentNotLooking(s: State, c: int, p: int, q: int)
    requires Inv(s) && Has(s, c, p) && HoldsWait(s.procs[p].pc) && 0 <= q < |s.procs| && q != p
             && Alive(s.procs[q].state)
    ensures !HoldsWait(Base(s.procs[q].pc))
  {
    if HoldsWait(s.procs[q].pc) {
      OneHolder(s.procs, s.wait, s.cpus, c, p, q);
    }
    assert StateOk(s.procs[q]);
    BaseOfOk(s.procs[q].pc);
  }

  lemma ZombieFamilies(s: State, c: int, p: int, me': Proc)
    requires Inv(s) && Has(s, c, p) && s.procs[p].pc.ExitLocked?
             && me' == s.procs[p].(state := ZOMBIE, pc := ExitZombie)
    ensures var procs' := s.procs[p := me'];
            KidsOk(procs') && SleepersOk(procs', s.wait, s.cpus) && WakersOk(procs', s.init) && InitOk(procs', s.init)
  {
    var procs' := s.procs[p := me'];
    OnCpu(s, c, p);
    assert forall x :: Committed(procs', x) <==> Committed(s.procs, x);
    forall j | 0 <= j < |procs'| ensures KidOk(procs', j) {
      assert KidOk(s.procs, j);
      if j == p && me'.parent >= 0 {
        ParentNotLooking(s, c, p, me'.parent);
      }
    }
    forall x | 0 <= x < |procs'| && Alive(procs'[x].state) ensures WakerOk(procs', s.init, x) {
      assert WakerOk(s.procs, s.init, x);
    }
    forall j | 0 <= j < |procs'| && procs'[j].state == ZOMBIE ensures !Committed(procs', procs'[j].parent) {
      assert !Owed(s.procs, s.wait, s.cpus, s.procs[j].parent);
    }
  }

  lemma BecomeZombieKeeps(s: State, c: int, p: int)
    requires Inv(s) && CanShared(s, c, p, BecomeZombie)
    ensures Inv(DoShared(s, c, p, BecomeZombie))
  {
    hide LocksOk, WaitOk, CpusOk, ProcsOk, KidsOk, SleepersOk, WakersOk, InitOk;
    OnCpu(s, c, p);
    var me' := s.procs[p].(state := ZOMBIE, pc := ExitZombie);
    ZombieFamilies(s, c, p, me');
    OwnLocks(s.procs, s.lock, s.cpus, c, p, me', s.lock[p]);
    assert s.lock[p := s.lock[p]] == s.lock;
    OwnWait(s.procs, s.wait, s.cpus, c, p, me', s.wait);
    OwnCpus(s.procs, s.lock, s.cpus, c, p, me');
    OwnProcs(s.procs, s.cpus, c, p, me');
  }

  // ----- swtch back to the scheduler

  lemma SwitchOutRuns(s: State, c: int, p: int, me': Proc)
    requires Inv(s) && Has(s, c, p) && s.procs[p].pc.Leaving? && me' == s.procs[p].(pc := Resumed(s.procs[p].pc.next))
    ensures var procs', cpus' := s.procs[p := me'], s.cpus[c := s.cpus[c].(at := Back(p))];
            LocksOk(procs', s.lock, cpus') && WaitOk(procs', s.wait, cpus') && CpusOk(procs', cpus')
  {
    var procs', cpus' := s.procs[p := me'], s.cpus[c := s.cpus[c].(at := Back(p))];
    OnCpu(s, c, p);
    forall d | 0 <= d < |cpus'| ensures CpuOk(procs', cpus'[d], d) {
      assert CpuOk(s.procs, s.cpus[d], d);
      if d != c {
        NotElsewhere(s.procs, s.lock, s.cpus, c, p, d);
      }
    }
    forall d, j | 0 <= d < |cpus'| && 0 <= j < |s.lock| ensures s.lock[j] == d <==> Holds(procs', cpus'[d], j) {
      assert s.lock[j] == d <==> Holds(s.procs, s.cpus[d], j);
      if d != c {
        OnlyOn(s.procs, s.cpus, c, p, d);
      }
    }
    forall d | 0 <= d < |cpus'| ensures s.wait == d <==> HasWait(procs', cpus'[d]) {
      assert s.wait == d <==> HasWait(s.procs, s.cpus[d]);
      if d != c {
        OnlyOn(s.procs, s.cpus, c, p, d);
      }
    }
  }

  lemma SwitchOutProcs(s: State, c: int, p: int, me': Proc)
    requires Inv(s) && Has(s, c, p) && s.procs[p].pc.Leaving? && me' == s.procs[p].(pc := Resumed(s.procs[p].pc.next))
    ensures var procs', cpus' := s.procs[p := me'], s.cpus[c := s.cpus[c].(at := Back(p))];
            ProcsOk(procs', cpus') && InitOk(procs', s.init)
  {
    var procs', cpus' := s.procs[p := me'], s.cpus[c := s.cpus[c].(at := Back(p))];
    OnCpu(s, c, p);
    assert Base(me'.pc) == Base(s.procs[p].pc);
    forall q | 0 <= q < |procs'| ensures StateOk(procs'[q]) && CurrentOk(procs', cpus', q) && ForkOk(procs', q) {
      assert StateOk(s.procs[q]) && CurrentOk(s.procs, s.cpus, q) && ForkOk(s.procs, q);
    }
  }

  lemma SwitchOutFamilies(s: State, c: int, p: int, me': Proc)
    requires Inv(s) && Has(s, c, p) && s.procs[p].pc.Leaving? && me' == s.procs[p].(pc := Resumed(s.procs[p].pc.next))
    ensures var procs', cpus' := s.procs[p := me'], s.cpus[c := s.cpus[c].(at := Back(p))];
            KidsOk(procs') && SleepersOk(procs', s.wait, cpus') && WakersOk(procs', s.init)
  {
    var procs', cpus' := s.procs[p := me'], s.cpus[c := s.cpus[c].(at := Back(p))];
    assert Base(me'.pc) == Base(s.procs[p].pc);
    assert forall x :: Committed(procs', x) <==> Committed(s.procs, x);
    forall j | 0 <= j < |procs'| ensures KidOk(procs', j) {
      assert KidOk(s.procs, j);
    }
    forall x | 0 <= x < |procs'| && Alive(procs'[x].state) ensures WakerOk(procs', s.init, x) {
      assert WakerOk(s.procs, s.init, x);
    }
    forall j | 0 <= j < |procs'| && procs'[j].state == ZOMBIE && Committed(procs', procs'[j].parent)
      ensures Owed(procs', s.wait, cpus', procs'[j].parent)
    {
      assert Owed(s.procs, s.wait, s.cpus, procs'[j].parent);
    }
  }

  lemma SwitchOutKeeps(s: State, c: int, p: int)
    requires Inv(s) && CanShared(s, c, p, SwitchOut)
    ensures Inv(DoShared(s, c, p, SwitchOut))
  {
    hide LocksOk, WaitOk, CpusOk, ProcsOk, KidsOk, SleepersOk, WakersOk, InitOk;
    var me' := s.procs[p].(pc := Resumed(s.procs[p].pc.next));
    SwitchOutRuns(s, c, p, me');
    SwitchOutProcs(s, c, p, me');
    SwitchOutFamilies(s, c, p, me');
  }

  lemma SharedKeeps(s: State, c: int, p: int, a: SharedStep)
    requires Inv(s) && CanShared(s, c, p, a)
    ensures Inv(DoShared(s, c, p, a))
  {
    hide Inv;
    match a
    case SwitchOut => SwitchOutKeeps(s, c, p);
    case WakeOne => WakeOneKeeps(s, c, p);
    case Kill(i) => GentleKeeps(s, i, Killed(s.procs[i]));
    case ForkAlloc(i) => ForkAllocKeeps(s, c, p, i);
    case ForkFail => ForkFailKeeps(s, c, p);
    case ForkFilled => ForkFilledKeeps(s, c, p);
    case ForkParent => ForkParentKeeps(s, c, p);
    case ForkRun => ForkRunKeeps(s, c, p);
    case Reparent => ReparentKeeps(s, c, p);
    case BecomeZombie => BecomeZombieKeeps(s, c, p);
    case Reap => ReapKeeps(s, c, p);
  }

  // ----- the scheduler

  /** A scheduler moves on, changing at most the lock of one slot. */
  lemma SchedFamilies(s: State, c: int, cpu: Cpu)
    requires Inv(s) && 0 <= c < |s.cpus| && !s.cpus[c].at.Away?
    requires CurrentKept(s.procs, s.cpus[c], cpu)
    ensures var cpus' := s.cpus[c := cpu]; ProcsOk(s.procs, cpus') && SleepersOk(s.procs, s.wait, cpus')
  {
    var cpus' := s.cpus[c := cpu];
    forall p | 0 <= p < |s.procs| ensures StateOk(s.procs[p]) && CurrentOk(s.procs, cpus', p) && ForkOk(s.procs, p) {
      assert StateOk(s.procs[p]) && CurrentOk(s.procs, s.cpus, p) && ForkOk(s.procs, p);
    }
    forall j | 0 <= j < |s.procs| && s.procs[j].state == ZOMBIE && Committed(s.procs, s.procs[j].parent)
      ensures Owed(s.procs, s.wait, cpus', s.procs[j].parent) {
      assert Owed(s.procs, s.wait, s.cpus, s.procs[j].parent);
    }
  }

  /** c->proc changes only if the process it named is not running. */
  predicate CurrentKept(procs: seq<Proc>, cpu: Cpu, cpu': Cpu) {
    cpu'.cur == cpu.cur || cpu.cur == -1
        || (0 <= cpu.cur < |procs| && procs[cpu.cur].state != RUNNING && !Going(procs[cpu.cur].pc))
  }

  /** What a scheduler holds, one slot at a time. */
  lemma SchedLocks(s: State, c: int, cpu: Cpu, lock': seq<int>)
    requires Inv(s) && 0 <= c < |s.cpus| && !s.cpus[c].at.Away? && |lock'| == |s.lock|
    requires forall j :: 0 <= j < |lock'| ==> (lock'[j] == c <==> Holds(s.procs, cpu, j)) && -1 <= lock'[j] < |s.cpus|
    requires forall j :: 0 <= j < |lock'| ==> lock'[j] == s.lock[j] || (lock'[j] in {c, -1} && s.lock[j] in {c, -1})
    requires !HasWait(s.procs, cpu)
    ensures LocksOk(s.procs, lock', s.cpus[c := cpu]) && WaitOk(s.procs, s.wait, s.cpus[c := cpu])
  {
    var cpus' := s.cpus[c := cpu];
    forall d, j | 0 <= d < |cpus'| && 0 <= j < |lock'| ensures lock'[j] == d <==> Holds(s.procs, cpus'[d], j) {
      assert s.lock[j] == d <==> Holds(s.procs, s.cpus[d], j);
    }
    forall d | 0 <= d < |cpus'| ensures s.wait == d <==> HasWait(s.procs, cpus'[d]) {
      assert s.wait == d <==> HasWait(s.procs, s.cpus[d]);
    }
  }

  lemma SchedCpus(s: State, c: int, cpu: Cpu)
    requires Inv(s) && 0 <= c < |s.cpus| && CpuOk(s.procs, cpu, c)
    ensures CpusOk(s.procs, s.cpus[c := cpu])
  {
  }

  /** What the invariant says about a scheduler's locks. */
  lemma OwnsLocks(s: State, c: int)
    requires Inv(s) && 0 <= c < |s.cpus|
    ensures forall j :: 0 <= j < |s.lock| ==> (s.lock[j] == c <==> Holds(s.procs, s.cpus[c], j))
    ensures CpuOk(s.procs, s.cpus[c], c)
    ensures forall j :: 0 <= j < |s.lock| ==> -1 <= s.lock[j] < |s.cpus|
  {
    forall j | 0 <= j < |s.lock| ensures s.lock[j] == c <==> Holds(s.procs, s.cpus[c], j) {
    }
  }

  lemma SchedKeeps(s: State, c: int, cpu: Cpu, lock': seq<int>)
    requires Inv(s) && 0 <= c < |s.cpus| && !s.cpus[c].at.Away? && |lock'| == |s.lock|
             && CurrentKept(s.procs, s.cpus[c], cpu)
    requires CpuOk(s.procs, cpu, c) && !HasWait(s.procs, cpu)
    requires forall j :: 0 <= j < |lock'| ==> (lock'[j] == c <==> Holds(s.procs, cpu, j)) && -1 <= lock'[j] < |s.cpus|
    requires forall j :: 0 <= j < |lock'| ==> lock'[j] == s.lock[j] || (lock'[j] in {c, -1} && s.lock[j] in {c, -1})
    ensures Inv(s.(cpus := s.cpus[c := cpu], lock := lock'))
  {
    hide LocksOk, WaitOk, CpusOk, ProcsOk, KidsOk, SleepersOk, WakersOk;
    SchedLocks(s, c, cpu, lock');
    SchedCpus(s, c, cpu);
    SchedFamilies(s, c, cpu);
  }

  lemma ScanLockKeeps(s: State, c: int)
    requires Inv(s) && CanScanLock(s, c)
    ensures Inv(DoScanLock(s, c))
  {
    hide LocksOk, WaitOk, CpusOk, ProcsOk, KidsOk, SleepersOk, WakersOk;
    OwnsLocks(s, c);
    var at := s.cpus[c].at;
    SchedKeeps(s, c, s.cpus[c].(at := Look(at.seen, at.best)), s.lock[|at.seen| := c]);
  }

  lemma ChoiceNext(seen: seq<int>, best: int, pr: int)
    requires Choice(seen, best)
    ensures pr < 0 ==> Choice(seen + [pr], best)
    ensures pr >= 0 ==> Choice(seen + [pr], if best < 0 || pr > seen[best] then |seen| else best)
  {
  }

  lemma ScanLookKeeps(s: State, c: int)
    requires Inv(s) && CanScanLook(s, c)
    ensures Inv(DoScanLook(s, c))
  {
    hide LocksOk, WaitOk, CpusOk, ProcsOk, KidsOk, SleepersOk, WakersOk, Choice, Priority;
    OwnsLocks(s, c);
    var seen, best := s.cpus[c].at.seen, s.cpus[c].at.best;
    var i := |seen|;
    var pr := Priority(s.procs[i]);
    ChoiceNext(seen, best, pr);
    ChoiceNext(seen, best, -1);
    ChoiceRange(seen, best);
    if s.procs[i].state != RUNNABLE {
      SchedKeeps(s, c, s.cpus[c].(at := Scan(seen + [-1], best)), s.lock[i := -1]);
    } else if best < 0 {
      SchedKeeps(s, c, s.cpus[c].(at := Scan(seen + [pr], i)), s.lock);
    } else if pr > seen[best] {
      SchedKeeps(s, c, s.cpus[c].(at := Scan(seen + [pr], i)), s.lock[best := -1]);
    } else {
      SchedKeeps(s, c, s.cpus[c].(at := Scan(seen + [pr], best)), s.lock[i := -1]);
    }
  }

  lemma ChoiceRange(seen: seq<int>, best: int)
    requires Choice(seen, best)
    ensures -1 <= best < |seen|
  {
  }

  lemma ReleaseKeeps(s: State, c: int, a: SchedStep)
    requires Inv(s) && CanSched(s, c, a) && (a.Unset? || a.DropLock? || (a.ScanDone? && s.cpus[c].at.best < 0))
    ensures Inv(DoSched(s, c, a))
  {
    hide LocksOk, WaitOk, CpusOk, ProcsOk, KidsOk, SleepersOk, WakersOk;
    OwnsLocks(s, c);
    match a
    case Unset => SchedKeeps(s, c, Cpu(-1, Drop(s.cpus[c].at.b)), s.lock);
    case DropLock => SchedKeeps(s, c, s.cpus[c].(at := Scan([], -1)), s.lock[s.cpus[c].at.b := -1]);
    case ScanDone => SchedKeeps(s, c, s.cpus[c].(at := Scan([], -1)), s.lock);
  }

  lemma SwitchInKeeps(s: State, c: int)
    requires Inv(s) && CanSwitchIn(s, c)
    ensures Inv(DoSwitchIn(s, c))
  {
    hide LocksOk, WaitOk, CpusOk, KidsOk, SleepersOk, WakersOk;
    OwnsLocks(s, c);
    assert StateOk(s.procs[s.cpus[c].at.b]);
    SchedKeeps(s, c, s.cpus[c].(at := Away(s.cpus[c].at.b)), s.lock);
  }

  /** The chosen process is locked here and current nowhere. */
  lemma ChosenIsFree(s: State, c: int, d: int)
    requires Inv(s) && 0 <= c < |s.cpus| && s.cpus[c].at.Scan? && s.cpus[c].at.best >= 0 && 0 <= d < |s.cpus| && d != c
    ensures var b := s.cpus[c].at.best;
            s.cpus[d].cur != b &&
            match s.cpus[d].at case Scan(_, best) => best != b case Look(_, best) => best != b case Picked(x) => x != b
            case Away(x) => x != b case Back(x) => x != b case Drop(x) => x != b
  {
    var b := s.cpus[c].at.best;
    assert CpuOk(s.procs, s.cpus[c], c) && CpuOk(s.procs, s.cpus[d], d);
    assert s.lock[b] == c <==> Holds(s.procs, s.cpus[c], b);
    assert s.lock[b] == d <==> Holds(s.procs, s.cpus[d], b);
  }

  lemma PickRuns(s: State, c: int, b: int, q': Proc)
    requires Inv(s) && CanScanDone(s, c) && b == s.cpus[c].at.best >= 0 && q' == s.procs[b].(state := RUNNING, on := c)
    ensures var procs', cpus' := s.procs[b := q'], s.cpus[c := Cpu(b, Picked(b))];
            LocksOk(procs', s.lock, cpus') && WaitOk(procs', s.wait, cpus') && CpusOk(procs', cpus')
  {
    hide Inv, LocksOk, WaitOk, CpusOk, CanScanDone;
    PickCpus(s, c, b, q');
    PickLocks(s, c, b, q');
  }

  lemma PickCpus(s: State, c: int, b: int, q': Proc)
    requires Inv(s) && CanScanDone(s, c) && b == s.cpus[c].at.best >= 0 && q' == s.procs[b].(state := RUNNING, on := c)
    ensures CpusOk(s.procs[b := q'], s.cpus[c := Cpu(b, Picked(b))])
  {
    var procs', cpus' := s.procs[b := q'], s.cpus[c := Cpu(b, Picked(b))];
    assert CpuOk(s.procs, s.cpus[c], c);
    assert s.lock[b] == c <==> Holds(s.procs, s.cpus[c], b);
    forall d | 0 <= d < |cpus'| ensures CpuOk(procs', cpus'[d], d) {
      assert CpuOk(s.procs, s.cpus[d], d);
      assert StateOk(s.procs[b]) && CurrentOk(s.procs, s.cpus, b);
      if d != c {
        ChosenIsFree(s, c, d);
      }
    }
  }

  lemma PickLocks(s: State, c: int, b: int, q': Proc)
    requires Inv(s) && CanScanDone(s, c) && b == s.cpus[c].at.best >= 0 && q' == s.procs[b].(state := RUNNING, on := c)
    ensures LocksOk(s.procs[b := q'], s.lock, s.cpus[c := Cpu(b, Picked(b))])
            && WaitOk(s.procs[b := q'], s.wait, s.cpus[c := Cpu(b, Picked(b))])
  {
    var procs', cpus' := s.procs[b := q'], s.cpus[c := Cpu(b, Picked(b))];
    assert CpuOk(s.procs, s.cpus[c], c);
    assert StateOk(s.procs[b]) && CurrentOk(s.procs, s.cpus, b);
    forall d | 0 <= d < |cpus'| && d != c ensures s.cpus[d].cur != b {
      assert CpuOk(s.procs, s.cpus[d], d);
      ChosenIsFree(s, c, d);
    }
    forall d, j | 0 <= d < |cpus'| && 0 <= j < |s.lock| ensures s.lock[j] == d <==> Holds(procs', cpus'[d], j) {
      assert s.lock[j] == d <==> Holds(s.procs, s.cpus[d], j);
    }
    forall d | 0 <= d < |cpus'| ensures s.wait == d <==> HasWait(procs', cpus'[d]) {
      assert s.wait == d <==> HasWait(s.procs, s.cpus[d]);
    }
  }

  lemma PickProcs(s: State, c: int, b: int, q': Proc)
    requires Inv(s) && CanScanDone(s, c) && b == s.cpus[c].at.best >= 0 && q' == s.procs[b].(state := RUNNING, on := c)
    ensures var procs', cpus' := s.procs[b := q'], s.cpus[c := Cpu(b, Picked(b))];
            ProcsOk(procs', cpus') && InitOk(procs', s.init)
  {
    var procs', cpus' := s.procs[b := q'], s.cpus[c := Cpu(b, Picked(b))];
    assert CpuOk(s.procs, s.cpus[c], c);
    forall p | 0 <= p < |procs'| ensures StateOk(procs'[p]) && CurrentOk(procs', cpus', p) && ForkOk(procs', p) {
      assert StateOk(s.procs[p]) && CurrentOk(s.procs, s.cpus, p) && ForkOk(s.procs, p);
    }
  }

  lemma PickFamilies(s: State, c: int, b: int, q': Proc)
    requires Inv(s) && CanScanDone(s, c) && b == s.cpus[c].at.best >= 0 && q' == s.procs[b].(state := RUNNING, on := c)
    ensures var procs', cpus' := s.procs[b := q'], s.cpus[c := Cpu(b, Picked(b))];
            KidsOk(procs') && SleepersOk(procs', s.wait, cpus') && WakersOk(procs', s.init)
  {
    var procs', cpus' := s.procs[b := q'], s.cpus[c := Cpu(b, Picked(b))];
    assert CpuOk(s.procs, s.cpus[c], c);
    assert forall x :: Committed(procs', x) <==> Committed(s.procs, x);
    forall j | 0 <= j < |procs'| ensures KidOk(procs', j) {
      assert KidOk(s.procs, j);
    }
    forall x | 0 <= x < |procs'| && Alive(procs'[x].state) ensures WakerOk(procs', s.init, x) {
      assert WakerOk(s.procs, s.init, x);
    }
    forall j | 0 <= j < |procs'| && procs'[j].state == ZOMBIE && Committed(procs', procs'[j].parent)
      ensures Owed(procs', s.wait, cpus', procs'[j].parent)
    {
      assert Owed(s.procs, s.wait, s.cpus, procs'[j].parent);
    }
  }

  lemma PickKeeps(s: State, c: int)
    requires Inv(s) && CanScanDone(s, c) && s.cpus[c].at.best >= 0
    ensures Inv(DoScanDone(s, c))
  {
    hide LocksOk, WaitOk, CpusOk, ProcsOk, KidsOk, SleepersOk, WakersOk, InitOk;
    var b := s.cpus[c].at.best;
    var q' := s.procs[b].(state := RUNNING, on := c);
    PickRuns(s, c, b, q');
    PickProcs(s, c, b, q');
    PickFamilies(s, c, b, q');
  }

  /** Every step of every CPU keeps the invariant. */
  lemma StepKeeps(s: State, a: Step)
    requires Inv(s) && Enabled(s, a)
    ensures Inv(Next(s, a))
  {
    hide Inv, OwnOk;
    match a
    case Sched(c, x) =>
      match x {
        case ScanLock => ScanLockKeeps(s, c);
        case ScanLook => ScanLookKeeps(s, c);
        case SwitchIn => SwitchInKeeps(s, c);
        case ScanDone =>
          if s.cpus[c].at.best >= 0 {
            PickKeeps(s, c);
          } else {
            ReleaseKeeps(s, c, x);
          }
        case Unset => ReleaseKeeps(s, c, x);
        case DropLock => ReleaseKeeps(s, c, x);
      }
    case Basic(c, p, x) =>
      BasicOk(s, c, p, x);
      OwnKeeps(s, c, p, DoBasic(s, c, p, x));
    case Exit(c, p, x) =>
      ExitOk(s, c, p, x);
      OwnKeeps(s, c, p, DoExit(s, c, p, x));
    case Wait(c, p, x) => WaitStepKeeps(s, c, p, x);
    case Shared(c, p, x) => SharedKeeps(s, c, p, x);
  }
}
