/** kernel/proc.c as steps of several CPUs. Spinlocks exclude each other; a critical section on one
    process that ends where it began is one step, taken only while that process's lock is free.
    `swtch` passes the CPU between its scheduler and a process, with the process's lock still held. */
module ProcModel {

  datatype RunState = UNUSED | USED | SLEEPING | RUNNABLE | RUNNING | ZOMBIE

  /** What a process sleeps on: nothing, a process (kwait), or anything else. */
  datatype Chan = Nothing | OfProc(q: int) | Other(x: int)

  /** Where a process is in the kernel. `next` is where it goes on. */
  datatype Pc =
    | Run                                        // user code, or kernel code that holds no lock
    | Yielding(next: Pc)                         // yield: own lock held
    | Dozing(x: int)                             // sleep: own lock held
    | Leaving(next: Pc)                          // own state changed and own lock held, before swtch
    | Resumed(next: Pc)                          // switched out, or just back: own lock still to be released
    | Waking(chan: Chan, i: int, next: Pc)       // wakeup, before slot i
    | ForkHold(child: int)                       // allocproc returned: child's lock held
    | ForkFree(child: int)                       // child filled in and unlocked
    | ForkWait(child: int)                       // wait_lock held
    | ForkReady(child: int)                      // parent set
    | ExitReparent(i: int)                       // wait_lock held, before slot i
    | ExitWoken                                  // parent woken
    | ExitLocked                                 // and own lock held
    | ExitZombie                                 // and state ZOMBIE
    | Dead                                       // never resumed
    | WaitEnter                                  // kwait, before acquiring wait_lock
    | WaitScan(i: int, kids: bool)               // wait_lock held, before slot i
    | WaitSleep                                  // no child has exited
    | WaitLocked                                 // and own lock held
    | WaitCommitted                              // own lock held, wait_lock released

  /** `on` is the CPU that last chose the process; `maker` is the process that forked it. */
  datatype Proc = Proc(state: RunState, chan: Chan, parent: int, killed: bool, ticks: int, sleeps: int, wakes: int,
                       pc: Pc, on: int, maker: int)

  /** Where a CPU's scheduler is. `seen` has the priority of each slot scanned so far, -1 if it was not RUNNABLE. */
  datatype At =
    | Scan(seen: seq<int>, best: int)
    | Look(seen: seq<int>, best: int)    // the next slot is locked
    | Picked(b: int)                     // c->proc set, before swtch
    | Away(b: int)                       // process b has the CPU
    | Back(b: int)                       // b has switched back
    | Drop(b: int)                       // c->proc cleared, before b's lock is released

  datatype Cpu = Cpu(cur: int, at: At)

  /** Locks hold the number of the CPU that has them, or -1. */
  datatype State = State(procs: seq<Proc>, lock: seq<int>, wait: int, cpus: seq<Cpu>, init: int)

  // ----- the energy priority of kernel/proc.c:686-732

  function Score(p: Proc): (r: int) {
    var activity := p.sleeps + p.wakes;
    if activity > 0 then p.ticks + p.ticks * 100 / (activity + 1) else p.ticks
  }

  function Priority(p: Proc): (r: int)
    ensures r >= 0
  {
    var r := 10000 - Score(p) + (p.sleeps + p.wakes) * 10;
    if r < 0 then 0 else r
  }

  // ----- who holds which lock

  predicate HoldsOwn(pc: Pc) {
    pc.Yielding? || pc.Dozing? || pc.Leaving? || pc.Resumed? || pc.ExitLocked? || pc.ExitZombie? || pc.WaitLocked?
        || pc.WaitCommitted?
  }

  predicate HoldsWait(pc: Pc) {
    || pc.ForkWait? || pc.ExitReparent? || pc.ExitWoken? || pc.ExitLocked? || pc.ExitZombie?
    || pc.WaitScan? || pc.WaitSleep? || pc.WaitLocked?
    || (pc.Waking? && (pc.next.ExitReparent? || pc.next.ExitWoken?))
  }

  /** Holding no lock, with interrupts enabled: a timer interrupt may yield here. */
  predicate Preemptible(pc: Pc) {
    pc.Run? || pc.ForkFree? || pc.ForkReady? || pc.WaitEnter? || (pc.Waking? && pc.next.Run?)
  }

  /** The CPU holds the lock of process j. */
  predicate Holds(procs: seq<Proc>, cpu: Cpu, j: int) {
    match cpu.at
    case Scan(seen, best) => j == best
    case Look(seen, best) => j == best || j == |seen|
    case Picked(b) => j == b
    case Back(b) => j == b
    case Drop(b) => j == b
    case Away(b) =>
      && 0 <= b < |procs|
      && ((j == b && HoldsOwn(procs[b].pc)) || (procs[b].pc.ForkHold? && j == procs[b].pc.child))
  }

  predicate HasWait(procs: seq<Proc>, cpu: Cpu) {
    cpu.at.Away? && 0 <= cpu.at.b < |procs| && HoldsWait(procs[cpu.at.b].pc)
  }

  // ----- steps of a scheduler

  predicate CpuAt(s: State, c: int) {
    0 <= c < |s.cpus| && |s.lock| == |s.procs|
  }

  function SetAt(s: State, c: int, at: At): (r: State)
    requires CpuAt(s, c)
  {
    s.(cpus := s.cpus[c := s.cpus[c].(at := at)])
  }

  predicate CanScanLock(s: State, c: int) {
    CpuAt(s, c) && s.cpus[c].at.Scan? && |s.cpus[c].at.seen| < |s.procs| && s.lock[|s.cpus[c].at.seen|] == -1
  }

  function DoScanLock(s: State, c: int): (r: State)
    requires CanScanLock(s, c)
  {
    var at := s.cpus[c].at;
    SetAt(s, c, Look(at.seen, at.best)).(lock := s.lock[|at.seen| := c])
  }

  predicate CanScanLook(s: State, c: int) {
    CpuAt(s, c) && s.cpus[c].at.Look? && |s.cpus[c].at.seen| < |s.procs| && s.cpus[c].at.best < |s.cpus[c].at.seen|
  }

  /** A RUNNABLE process with a higher priority becomes the best, and stays locked; the other is released. */
  function DoScanLook(s: State, c: int): (r: State)
    requires CanScanLook(s, c)
  {
    var seen, best := s.cpus[c].at.seen, s.cpus[c].at.best;
    var i := |seen|;
    if s.procs[i].state != RUNNABLE then
      SetAt(s, c, Scan(seen + [-1], best)).(lock := s.lock[i := -1])
    else
      var pr := Priority(s.procs[i]);
      if best < 0 then SetAt(s, c, Scan(seen + [pr], i))
      else if pr > seen[best] then SetAt(s, c, Scan(seen + [pr], i)).(lock := s.lock[best := -1])
      else SetAt(s, c, Scan(seen + [pr], best)).(lock := s.lock[i := -1])
  }

  predicate CanScanDone(s: State, c: int) {
    CpuAt(s, c) && s.cpus[c].at.Scan? && |s.cpus[c].at.seen| == |s.procs| && s.cpus[c].at.best < |s.procs|
  }

  function DoScanDone(s: State, c: int): (r: State)
    requires CanScanDone(s, c)
  {
    var b := s.cpus[c].at.best;
    if b < 0 then SetAt(s, c, Scan([], -1))
    else s.(procs := s.procs[b := s.procs[b].(state := RUNNING, on := c)], cpus := s.cpus[c := Cpu(b, Picked(b))])
  }

  predicate CanSwitchIn(s: State, c: int) {
    CpuAt(s, c) && s.cpus[c].at.Picked?
  }

  function DoSwitchIn(s: State, c: int): (r: State)
    requires CanSwitchIn(s, c)
  {
    SetAt(s, c, Away(s.cpus[c].at.b))
  }

  predicate CanUnset(s: State, c: int) {
    CpuAt(s, c) && s.cpus[c].at.Back?
  }

  function DoUnset(s: State, c: int): (r: State)
    requires CanUnset(s, c)
  {
    s.(cpus := s.cpus[c := Cpu(-1, Drop(s.cpus[c].at.b))])
  }

  predicate CanDrop(s: State, c: int) {
    CpuAt(s, c) && s.cpus[c].at.Drop? && 0 <= s.cpus[c].at.b < |s.procs|
  }

  function DoDrop(s: State, c: int): (r: State)
    requires CanDrop(s, c)
  {
    SetAt(s, c, Scan([], -1)).(lock := s.lock[s.cpus[c].at.b := -1])
  }

  /** The steps of a scheduler. */
  datatype SchedStep = ScanLock | ScanLook | ScanDone | SwitchIn | Unset | DropLock

  predicate CanSched(s: State, c: int, a: SchedStep) {
    match a
    case ScanLock => CanScanLock(s, c)
    case ScanLook => CanScanLook(s, c)
    case ScanDone => CanScanDone(s, c)
    case SwitchIn => CanSwitchIn(s, c)
    case Unset => CanUnset(s, c)
    case DropLock => CanDrop(s, c)
  }

  function DoSched(s: State, c: int, a: SchedStep): (r: State)
    requires CanSched(s, c, a)
  {
    match a
    case ScanLock => DoScanLock(s, c)
    case ScanLook => DoScanLook(s, c)
    case ScanDone => DoScanDone(s, c)
    case SwitchIn => DoSwitchIn(s, c)
    case Unset => DoUnset(s, c)
    case DropLock => DoDrop(s, c)
  }

  // ----- steps of the process p that has CPU c

  predicate Has(s: State, c: int, p: int) {
    CpuAt(s, c) && s.cpus[c].at == Away(p) && 0 <= p < |s.procs|
  }

  /** A process changes itself, the holder of its own lock, and that of wait_lock. */
  datatype Own = Own(me: Proc, lock: int, wait: int)

  function Apply(s: State, p: int, o: Own): (r: State)
    requires 0 <= p < |s.procs| == |s.lock|
  {
    s.(procs := s.procs[p := o.me], lock := s.lock[p := o.lock], wait := o.wait)
  }

  /** Go on at another place, with the locks as they are. */
  function Goto(s: State, p: int, pc: Pc): (o: Own)
    requires 0 <= p < |s.procs| == |s.lock|
  {
    Own(s.procs[p].(pc := pc), s.lock[p], s.wait)
  }

  /** yield, sleep, wakeup's ends, and what a timer interrupt does. */
  datatype BasicStep = Resume | Preempt | Yield | SleepLock(x: int) | Sleep | Wakeup(x: int) | WakeDone | Tick

  predicate CanBasic(s: State, c: int, p: int, a: BasicStep) {
    Has(s, c, p) &&
    var pc := s.procs[p].pc;
    match a
    case Resume => pc.Resumed?
    case Preempt => Preemptible(pc) && s.lock[p] == -1
    case Yield => pc.Yielding?
    case SleepLock(x) => pc.Run? && s.lock[p] == -1
    case Sleep => pc.Dozing?
    case Wakeup(x) => pc.Run?
    case WakeDone => pc.Waking? && pc.i >= |s.procs|
    case Tick => Preemptible(pc)
  }

  function DoBasic(s: State, c: int, p: int, a: BasicStep): (o: Own)
    requires CanBasic(s, c, p, a)
  {
    var me := s.procs[p];
    match a
    case Resume => Own(me.(chan := Nothing, pc := me.pc.next), -1, s.wait)
    case Preempt => Goto(s, p, Yielding(me.pc)).(lock := c)
    case Yield => Own(me.(state := RUNNABLE, pc := Leaving(me.pc.next)), s.lock[p], s.wait)
    case SleepLock(x) => Goto(s, p, Dozing(x)).(lock := c)
    case Sleep => Own(me.(state := SLEEPING, chan := Other(me.pc.x), sleeps := me.sleeps + 1, pc := Leaving(Run)),
                      s.lock[p], s.wait)
    case Wakeup(x) => Goto(s, p, Waking(Other(x), 0, Run))
    case WakeDone => Goto(s, p, me.pc.next)
    case Tick => Own(me.(ticks := me.ticks + 1), s.lock[p], s.wait)
  }

  /** kexit, except where it changes another process or becomes a zombie. */
  datatype ExitStep = ExitBegin | PassOver | WakeParent | ExitLock | ExitRelease

  predicate CanExit(s: State, c: int, p: int, a: ExitStep) {
    Has(s, c, p) &&
    var pc := s.procs[p].pc;
    match a
    case ExitBegin => pc.Run? && p != s.init && s.wait == -1
    case PassOver => pc.ExitReparent? && 0 <= pc.i < |s.procs| && s.procs[pc.i].parent != p
    case WakeParent => pc.ExitReparent? && pc.i >= |s.procs|
    case ExitLock => pc.ExitWoken? && s.lock[p] == -1
    case ExitRelease => pc.ExitZombie?
  }

  function DoExit(s: State, c: int, p: int, a: ExitStep): (o: Own)
    requires CanExit(s, c, p, a)
  {
    var me := s.procs[p];
    match a
    case ExitBegin => Goto(s, p, ExitReparent(0)).(wait := c)
    case PassOver => Goto(s, p, ExitReparent(me.pc.i + 1))
    case WakeParent => Goto(s, p, Waking(OfProc(me.parent), 0, ExitWoken))
    case ExitLock => Goto(s, p, ExitLocked).(lock := c)
    case ExitRelease => Goto(s, p, Leaving(Dead)).(wait := -1)
  }

  /** kwait, except where it frees a child; and fork's wait for wait_lock. */
  datatype WaitStep =
    | WaitCall | WaitBegin | NotMine | NotYet | CopyFailed | WaitEnd | WaitSleepLock
    | WaitRelease | WaitAsleep | ForkLock

  predicate CanWait(s: State, c: int, p: int, a: WaitStep) {
    Has(s, c, p) &&
    var pc := s.procs[p].pc;
    match a
    case WaitCall => pc.Run?
    case WaitBegin => pc.WaitEnter? && s.wait == -1
    case NotMine => pc.WaitScan? && 0 <= pc.i < |s.procs| && s.procs[pc.i].parent != p
    case NotYet => pc.WaitScan? && 0 <= pc.i < |s.procs| && s.procs[pc.i].parent == p && s.lock[pc.i] == -1
        && s.procs[pc.i].state != ZOMBIE
    case CopyFailed => pc.WaitScan? && 0 <= pc.i < |s.procs| && s.procs[pc.i].parent == p && s.lock[pc.i] == -1
        && s.procs[pc.i].state == ZOMBIE
    case WaitEnd => pc.WaitScan? && pc.i >= |s.procs| && s.lock[p] == -1
    case WaitSleepLock => pc.WaitSleep? && s.lock[p] == -1
    case WaitRelease => pc.WaitLocked?
    case WaitAsleep => pc.WaitCommitted?
    case ForkLock => pc.ForkFree? && s.wait == -1
  }

  function DoWait(s: State, c: int, p: int, a: WaitStep): (o: Own)
    requires CanWait(s, c, p, a)
  {
    var me := s.procs[p];
    match a
    case WaitCall => Goto(s, p, WaitEnter)
    case WaitBegin => Goto(s, p, WaitScan(0, false)).(wait := c)
    case NotMine => Goto(s, p, WaitScan(me.pc.i + 1, me.pc.kids))
    case NotYet => Goto(s, p, WaitScan(me.pc.i + 1, true))
    case CopyFailed => Goto(s, p, Run).(wait := -1)
    case WaitEnd => if !me.pc.kids || me.killed then Goto(s, p, Run).(wait := -1) else Goto(s, p, WaitSleep)
    case WaitSleepLock => Goto(s, p, WaitLocked).(lock := c)
    case WaitRelease => Goto(s, p, WaitCommitted).(wait := -1)
    case WaitAsleep => Own(me.(state := SLEEPING, chan := OfProc(p), sleeps := me.sleeps + 1, pc := Leaving(WaitEnter)),
                           s.lock[p], s.wait)
    case ForkLock => Goto(s, p, ForkWait(me.pc.child)).(wait := c)
  }

  /** The steps that change another process, or swtch. */
  datatype SharedStep =
    | SwitchOut | WakeOne | Kill(i: int) | ForkAlloc(i: int) | ForkFail | ForkFilled | ForkParent | ForkRun
                      | Reparent | BecomeZombie | Reap

  predicate CanShared(s: State, c: int, p: int, a: SharedStep) {
    Has(s, c, p) &&
    var pc := s.procs[p].pc;
    match a
    case SwitchOut => pc.Leaving?
    case WakeOne => pc.Waking? && 0 <= pc.i < |s.procs| && (pc.i != p ==> s.lock[pc.i] == -1)
    case Kill(i) => pc.Run? && 0 <= i < |s.procs| && s.lock[i] == -1
    case ForkAlloc(i) => pc.Run? && 0 <= i < |s.procs| && s.lock[i] == -1 && s.procs[i].state == UNUSED
    case ForkFail => pc.ForkHold? && 0 <= pc.child < |s.procs|
    case ForkFilled => pc.ForkHold? && 0 <= pc.child < |s.procs|
    case ForkParent => pc.ForkWait? && 0 <= pc.child < |s.procs|
    case ForkRun => pc.ForkReady? && 0 <= pc.child < |s.procs| && s.lock[pc.child] == -1
    case Reparent => pc.ExitReparent? && 0 <= pc.i < |s.procs| && s.procs[pc.i].parent == p
    case BecomeZombie => pc.ExitLocked?
    case Reap =>
      && pc.WaitScan? && 0 <= pc.i < |s.procs| && s.procs[pc.i].parent == p && s.lock[pc.i] == -1
      && s.procs[pc.i].state == ZOMBIE
  }

  /** wakeup at one slot. */
  function Woken(q: Proc, chan: Chan): (r: Proc) {
    if q.state == SLEEPING && q.chan == chan then q.(state := RUNNABLE, wakes := q.wakes + 1) else q
  }

  /** kkill at the slot with the pid. */
  function Killed(q: Proc): (r: Proc) {
    q.(killed := true, state := if q.state == SLEEPING then RUNNABLE else q.state)
  }

  /** allocproc, with the context that first runs forkret, which releases the lock. */
  function Allocated(q: Proc, maker: int): (r: Proc) {
    q.(state := USED, maker := maker, ticks := 0, sleeps := 0, wakes := 0, pc := Resumed(Run))
  }

  /** freeproc */
  function Freed(q: Proc): (r: Proc) {
    q.(state := UNUSED, parent := -1, chan := Nothing, killed := false)
  }

  function SetProc(s: State, i: int, q: Proc): (r: State)
    requires 0 <= i < |s.procs|
  {
    s.(procs := s.procs[i := q])
  }

  function SetPc(s: State, p: int, pc: Pc): (r: State)
    requires 0 <= p < |s.procs|
  {
    SetProc(s, p, s.procs[p].(pc := pc))
  }

  function DoShared(s: State, c: int, p: int, a: SharedStep): (r: State)
    requires CanShared(s, c, p, a)
  {
    var me := s.procs[p];
    match a
    case SwitchOut => SetPc(SetAt(s, c, Back(p)), p, Resumed(me.pc.next))
    case WakeOne =>
      var s' := if me.pc.i == p then s else SetProc(s, me.pc.i, Woken(s.procs[me.pc.i], me.pc.chan));
      Apply(s', p, Goto(s', p, Waking(me.pc.chan, me.pc.i + 1, me.pc.next)))
    case Kill(i) => SetProc(s, i, Killed(s.procs[i]))
    case ForkAlloc(i) => SetPc(SetProc(s, i, Allocated(s.procs[i], p)), p, ForkHold(i)).(lock := s.lock[i := c])
    case ForkFail => SetPc(SetProc(s, me.pc.child, Freed(s.procs[me.pc.child])), p,
                           Run).(lock := s.lock[me.pc.child := -1])
    case ForkFilled => SetPc(s, p, ForkFree(me.pc.child)).(lock := s.lock[me.pc.child := -1])
    case ForkParent =>
      SetPc(SetProc(s, me.pc.child, s.procs[me.pc.child].(parent := p)), p, ForkReady(me.pc.child)).(wait := -1)
    case ForkRun =>
      var s' := Apply(s, p, Goto(s, p, Run));
      SetProc(s', me.pc.child, s'.procs[me.pc.child].(state := RUNNABLE))
    case Reparent =>
      SetPc(SetProc(s, me.pc.i, s.procs[me.pc.i].(parent := s.init)), p,
            Waking(OfProc(s.init), 0, ExitReparent(me.pc.i + 1)))
    case BecomeZombie => SetProc(s, p, me.(state := ZOMBIE, pc := ExitZombie))
    case Reap =>
      var s' := SetProc(s, me.pc.i, Freed(s.procs[me.pc.i]));
      Apply(s', p, Goto(s', p, Run).(wait := -1))
  }

  /** The step of CPU c: its scheduler's, or that of process p that it runs. */
  datatype Step =
    | Sched(c: int, sched: SchedStep)
    | Basic(c: int, p: int, basic: BasicStep)
    | Exit(c: int, p: int, exit: ExitStep)
    | Wait(c: int, p: int, wait: WaitStep)
    | Shared(c: int, p: int, shared: SharedStep)

  predicate Enabled(s: State, a: Step) {
    match a
    case Sched(c, x) => CanSched(s, c, x)
    case Basic(c, p, x) => CanBasic(s, c, p, x)
    case Exit(c, p, x) => CanExit(s, c, p, x)
    case Wait(c, p, x) => CanWait(s, c, p, x)
    case Shared(c, p, x) => CanShared(s, c, p, x)
  }

  function Next(s: State, a: Step): (r: State)
    requires Enabled(s, a)
  {
    match a
    case Sched(c, x) => DoSched(s, c, x)
    case Basic(c, p, x) => Apply(s, p, DoBasic(s, c, p, x))
    case Exit(c, p, x) => Apply(s, p, DoExit(s, c, p, x))
    case Wait(c, p, x) => Apply(s, p, DoWait(s, c, p, x))
    case Shared(c, p, x) => DoShared(s, c, p, x)
  }
}
