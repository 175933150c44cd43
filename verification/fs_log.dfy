/** The file system on top of the log: threads inside calls write blocks through operations of the log,
    and the machine may crash between any two steps. */
module FsLog {
  import Log = LogModel
  import LogSafety
  import LogTheorems
  import opened Param
  import opened FsFormat
  import opened FsModel
  import opened FsThreads
  import opened FsThreadsSafety
  import opened FsThreadsTheorems

  /** A block of bytes as the log sees it. */
  function Words(b: Block): (w: Log.Block) {
    seq(256, k requires 0 <= k < 256 => Word(b, k) as nat)
  }

  lemma {:induction false} WordsInjective(a: Block, b: Block)
    requires Words(a) == Words(b)
    ensures a == b
  {
    forall n | 0 <= n < BSIZE ensures a[n] == b[n] {
      var k := n / 4;
      assert Words(a)[k] == Words(b)[k];
      assert Word(a, k) == Word(b, k);
      BytesOfWord(a, b, k);
      assert n == 4 * k || n == 4 * k + 1 || n == 4 * k + 2 || n == 4 * k + 3;
    }
  }

  lemma BytesOfWord(a: Block, b: Block, k: int)
    requires 0 <= k < NINDIRECT && Word(a, k) == Word(b, k)
    ensures a[4 * k] == b[4 * k] && a[4 * k + 1] == b[4 * k + 1] && a[4 * k + 2] == b[4 * k + 2]
            && a[4 * k + 3] == b[4 * k + 3]
  {
    var a0: int, a1: int, a2: int, a3: int := a[4 * k], a[4 * k + 1], a[4 * k + 2], a[4 * k + 3];
    var b0: int, b1: int, b2: int, b3: int := b[4 * k], b[4 * k + 1], b[4 * k + 2], b[4 * k + 3];
    LowByte(a0, a1 + 0x100 * a2 + 0x1_0000 * a3, b0, b1 + 0x100 * b2 + 0x1_0000 * b3);
    LowByte(a1, a2 + 0x100 * a3, b1, b2 + 0x100 * b3);
    LowByte(a2, a3, b2, b3);
  }

  lemma LowByte(x: int, rest: int, x': int, rest': int)
    requires 0 <= x < 0x100 && 0 <= x' < 0x100 && x + 0x100 * rest == x' + 0x100 * rest'
    ensures x == x' && rest == rest'
  {
  }

  /** `saved` is the file system as of the last commit, and `op` the operation of each thread that is between
      begin_op and end_op. */
  datatype Joint = Joint(log: Log.State, fs: State, saved: State, op: map<int, Log.Client>)

  datatype Event =
    | Begin(t: int, c: Log.Client)   // begin_op
    | End(t: int)                    // end_op
    | Move(t: int, step: Step)       // a step of a call
    | Cache(action: Log.Action)      // the buffer cache, log_write, and the committing thread
    | Crash

  /** The block that a step writes, -1 if none. */
  ghost function Target(s: State, t: int, a: Step): (y: int)
    requires Can(s, t, a)
  {
    match a
    case Mark(x) => BitBlock(s.g, x)
    case Clear(x) => x
    case LinkEntry(_, _) => s.inodes[s.threads[t].i].addrs[NDIRECT]
    case Write(k, _) => Ref(s.blk, s.inodes[s.threads[t].i], k)
    case Update(_) => InodeBlock(s.g, s.threads[t].i)
    case _ => if Freeing(s, t, a) == -1 then -1 else BitBlock(s.g, Freeing(s, t, a))
  }

  /** A step of a thread that writes a block modifies the block's buffer, within the thread's operation. */
  ghost function Modification(s: Joint, t: int, a: Step): (m: Log.Action)
    requires Can(s.fs, t, a) && t in s.op && 0 <= Target(s.fs, t, a) < |Next(s.fs, t, a).blk|
  {
    Log.Modify(s.op[t], Target(s.fs, t, a), Words(Next(s.fs, t, a).blk[Target(s.fs, t, a)]))
  }

  ghost predicate CanJoint(s: Joint, e: Event) {
    match e
    case Begin(t, c) => 0 <= t < |s.fs.threads| && t !in s.op && Log.Enabled(s.log, Log.Begin(c))
    case End(t) => t in s.op && 0 <= t < |s.fs.threads| && s.fs.threads[t].Outside?
        && Log.Enabled(s.log, Log.End(s.op[t]))
    case Move(t, a) =>
      && t in s.op && Can(s.fs, t, a) && -1 <= Target(s.fs, t, a) < |Next(s.fs, t, a).blk|
      && (Target(s.fs, t, a) >= 0 ==> Log.Enabled(s.log, Modification(s, t, a)))
    case Cache(a) => !a.Begin? && !a.End? && !a.Modify? && !a.Crash? && Log.Enabled(s.log, a)
    case Crash => true
  }

  /** After a crash the inodes are read from the disk again. */
  ghost function NextJoint(s: Joint, e: Event): (r: Joint)
    requires CanJoint(s, e)
  {
    match e
    case Begin(t, c) => s.(log := Log.Next(s.log, Log.Begin(c)), op := s.op[t := c])
    case End(t) => s.(log := Log.Next(s.log, Log.End(s.op[t])), op := s.op - {t})
    case Move(t, a) =>
      s.(fs := Next(s.fs, t, a), log := if Target(s.fs, t, a) >= 0 then Log.Next(s.log, Modification(s, t, a))
         else s.log)
    case Cache(a) => s.(log := Log.Next(s.log, a), saved := if a.CommitHead? then s.fs else s.saved)
    case Crash => s.(log := Log.Next(s.log, Log.Crash), fs := s.saved, op := map[])
  }

  ghost predicate Reaches(s: Joint, es: seq<Event>, u: Joint)
    decreases |es|
  {
    if es == [] then s == u else CanJoint(s, es[0]) && Reaches(NextJoint(s, es[0]), es[1..], u)
  }

  // ----- the invariant

  /** The log lies below the inodes. */
  ghost predicate Placed(g: Log.Geometry, f: Super) {
    g.size == f.size && g.start + LOGBLOCKS < f.inodestart
  }

  /** The home blocks hold this file system's bytes. */
  ghost predicate Holds(g: Log.Geometry, v: seq<Log.Block>, blk: seq<Block>) {
    |v| == |blk| == g.size && forall b: nat :: Log.Home(g, b) ==> v[b] == Words(blk[b])
  }

  /** Threads inside calls are inside operations, each its own. */
  ghost predicate OpsOk(ops: seq<Log.Op>, threads: seq<Thread>, op: map<int, Log.Client>) {
    && (forall t :: 0 <= t < |threads| && threads[t].Inside? ==> t in op)
    && (forall t :: t in op ==> 0 <= t < |threads| && Log.Active(ops, op[t]))
    && (forall t, u :: t in op && u in op && op[t] == op[u] ==> t == u)
  }

  ghost predicate JointInv(s: Joint) {
    && LogSafety.Inv(s.log) && FsThreadsSafety.Inv(s.fs) && FsThreadsSafety.Inv(s.saved) && Quiet(s.saved)
    && s.fs.g == s.saved.g && |s.fs.threads| == |s.saved.threads| && Placed(s.log.g, s.fs.g)
    && Holds(s.log.g, Log.View(s.log), s.fs.blk) && Holds(s.log.g, s.log.base, s.saved.blk)
    && OpsOk(s.log.ops, s.fs.threads, s.op)
  }

  // ----- the blocks that the file system writes

  /** The step writes block `y` and no other, or none if that is -1. */
  ghost predicate Writes(s: State, r: State, y: int) {
    && r.g == s.g && |r.threads| == |s.threads| && |s.blk| == |r.blk| == s.g.size && Layout(s.g)
    && if y == -1 then r.blk == s.blk else s.g.inodestart <= y < s.g.size && r.blk == s.blk[y := r.blk[y]]
  }

  lemma FreesWrite(s: State, t: int, a: Step)
    requires FsThreadsSafety.Inv(s) && Can(s, t, a) && (a.FreeDirect? || a.FreeEntry? || a.FreeTable?)
    ensures Writes(s, Next(s, t, a), Target(s, t, a))
  {
    hide FsThreadsSafety.Inv, FsOk, Marked, ClearBit, Lists, Remaining;
    FsHolds(s);
    BusyFacts(s, t);
    FreedIsOwn(s, t, a);
  }

  lemma BmapWrites(s: State, t: int, a: Step)
    requires FsThreadsSafety.Inv(s) && Can(s, t, a) && (a.Mark? || a.Clear? || a.LinkEntry?)
    ensures Writes(s, Next(s, t, a), Target(s, t, a))
  {
    hide FsThreadsSafety.Inv, FsOk, Marked, SetBit, PutWord, Ref, DiskInode, Encodes, PartOk;
    FsHolds(s);
    BusyFacts(s, t);
    HeldIsData(s.g, s.blk, s.view, s.owner, s.held);
    if a.LinkEntry? {
      TableOwned(s.g, s.blk, s.view, s.owner, s.held, s.threads[t].i);
    }
  }

  lemma WriteiWrites(s: State, t: int, a: Step)
    requires FsThreadsSafety.Inv(s) && Can(s, t, a) && (a.Write? || a.Update?)
    ensures Writes(s, Next(s, t, a), Target(s, t, a))
  {
    hide FsThreadsSafety.Inv, FsOk, Marked, SetBit, PutWord, Ref, DiskInode, Encodes, PartOk;
    FsHolds(s);
    BusyFacts(s, t);
    if a.Write? {
      SlotIsData(s.g, s.blk, s.view, s.owner, s.held, s.threads[t].i, a.k);
    }
  }

  /** Every block that a step writes lies above the log. */
  lemma StepWritesTarget(s: State, t: int, a: Step)
    requires FsThreadsSafety.Inv(s) && Can(s, t, a)
    ensures Writes(s, Next(s, t, a), Target(s, t, a))
  {
    hide FsThreadsSafety.Inv, FsOk, Marked, Ref, DiskInode, Encodes, NoHoles;
    FsHolds(s);
    if a.FreeDirect? || a.FreeEntry? || a.FreeTable? {
      FreesWrite(s, t, a);
    } else if a.Mark? || a.Clear? || a.LinkEntry? {
      BmapWrites(s, t, a);
    } else if a.Write? || a.Update? {
      WriteiWrites(s, t, a);
    } else if !a.Enter? {
      BusyFacts(s, t);
    }
  }

  lemma HomeTarget(g: Log.Geometry, f: Super, y: int)
    requires Placed(g, f) && f.inodestart <= y < f.size
    ensures y >= 0 && Log.Home(g, y)
  {
  }

  // ----- what the log's steps do to what the file system sees

  /** Steps other than a modification and a crash leave the current contents alone; only the first write_head
      of a commit changes what the disk recovers to, and it makes it the current contents. */
  lemma LogKeepsView(l: Log.State, a: Log.Action)
    requires Log.Enabled(l, a) && !a.Modify? && !a.Crash?
    ensures Log.View(Log.Next(l, a)) == Log.View(l) && Log.Next(l, a).g == l.g
    ensures Log.Next(l, a).base == if a.CommitHead? then Log.View(l) else l.base
  {
  }

  lemma ModifyView(l: Log.State, c: Log.Client, b: nat, d: Log.Block)
    requires Log.Enabled(l, Log.Modify(c, b, d)) && b < |l.base|
    ensures var m := Log.Next(l, Log.Modify(c, b, d));
            Log.View(m) == Log.View(l)[b := d] && m.g == l.g && m.base == l.base && m.ops == l.ops
  {
    Log.ApplyOne(l.base, l.cur, Log.Update(c, b, d));
  }

  /** The cache and the committing thread leave the executing operations as they are. */
  lemma CacheKeepsOps(l: Log.State, a: Log.Action, c: Log.Client)
    requires Log.Enabled(l, a) && !a.Begin? && !a.End? && !a.Crash? && Log.Active(l.ops, c)
    ensures Log.Active(Log.Next(l, a).ops, c)
  {
    var k :| 0 <= k < |l.ops| && l.ops[k].client == c;
    assert |Log.Next(l, a).ops| == |l.ops| && Log.Next(l, a).ops[k].client == c;
  }

  lemma BeginKeepsOps(l: Log.State, c: Log.Client, d: Log.Client)
    requires Log.Enabled(l, Log.Begin(c))
    ensures Log.Active(Log.Next(l, Log.Begin(c)).ops, c)
            && (Log.Active(l.ops, d) ==> Log.Active(Log.Next(l, Log.Begin(c)).ops, d))
  {
    var ops := Log.Next(l, Log.Begin(c)).ops;
    assert ops[|l.ops|].client == c;
    if Log.Active(l.ops, d) {
      var k :| 0 <= k < |l.ops| && l.ops[k].client == d;
      assert ops[k].client == d;
    }
  }

  lemma BeginIsNew(l: Log.State, c: Log.Client)
    requires LogSafety.Inv(l) && Log.Enabled(l, Log.Begin(c))
    ensures !Log.Active(l.ops, c)
  {
  }

  lemma EndKeepsOps(l: Log.State, c: Log.Client, d: Log.Client)
    requires Log.Enabled(l, Log.End(c)) && Log.Active(l.ops, d) && d != c && !l.committing
    ensures Log.Active(Log.Next(l, Log.End(c)).ops, d)
  {
    var n := Log.FindOp(l.ops, c);
    var k :| 0 <= k < |l.ops| && l.ops[k].client == d;
    var ops := Log.Drop(l.ops, n);
    assert ops[if k < n then k else k - 1].client == d;
  }

  /** While an operation is executing the log is neither committing nor recovering. */
  lemma ActiveIsRunning(l: Log.State, c: Log.Client)
    requires LogSafety.Inv(l) && Log.Active(l.ops, c)
    ensures l.phase.Running? && !l.committing
  {
  }

  // ----- every event keeps the invariant

  lemma StepKeepsJoint(s: Joint, t: int, a: Step)
    requires JointInv(s) && CanJoint(s, Move(t, a))
    ensures JointInv(NextJoint(s, Move(t, a)))
  {
    hide LogSafety.Inv, FsThreadsSafety.Inv, Can, Next, Log.Next, Log.Enabled, Target, Words, Quiet;
    FsThreadsSafety.StepKeeps(s.fs, t, a);
    StepWritesTarget(s.fs, t, a);
    StepKeepsInside(s.fs, t, a);
    var y := Target(s.fs, t, a);
    if y >= 0 {
      HomeTarget(s.log.g, s.fs.g, y);
      LogSafety.StepKeeps(s.log, Modification(s, t, a));
      BaseSize(s.log);
      ModifyView(s.log, s.op[t], y, Words(Next(s.fs, t, a).blk[y]));
    }
  }

  lemma BaseSize(l: Log.State)
    requires LogSafety.Inv(l)
    ensures |l.base| == l.g.size
  {
  }

  /** Only the acting thread changes place. */
  lemma StepKeepsInside(s: State, t: int, a: Step)
    requires Can(s, t, a)
    ensures |Next(s, t, a).threads| == |s.threads| && forall u ::
              0 <= u < |s.threads| && u != t ==> Next(s, t, a).threads[u] == s.threads[u]
    ensures Next(s, t, a).g == s.g
  {
    hide Layout, Encodes, SetBit, PutWord, Zeros, Bfree, Word, Ref, IndirectBlocks, ViewOf, InodeBlock, BitBlock;
  }

  lemma CacheKeepsJoint(s: Joint, a: Log.Action)
    requires JointInv(s) && CanJoint(s, Cache(a))
    ensures JointInv(NextJoint(s, Cache(a)))
  {
    hide LogSafety.Inv, FsThreadsSafety.Inv, Log.Next, Log.Enabled, Words, Quiet;
    LogSafety.StepKeeps(s.log, a);
    LogKeepsView(s.log, a);
    forall t | t in s.op ensures Log.Active(Log.Next(s.log, a).ops, s.op[t]) {
      CacheKeepsOps(s.log, a, s.op[t]);
    }
    if a.CommitHead? {
      CommitIsQuiet(s);
    }
  }

  /** A commit starts only when no thread is inside a call. */
  lemma CommitIsQuiet(s: Joint)
    requires JointInv(s) && Log.Enabled(s.log, Log.CommitHead)
    ensures Quiet(s.fs)
  {
    assert s.log.ops == [];
    forall t | 0 <= t < |s.fs.threads| ensures s.fs.threads[t].Outside? {
      assert t !in s.op;
    }
  }

  lemma BeginKeepsJoint(s: Joint, t: int, c: Log.Client)
    requires JointInv(s) && CanJoint(s, Begin(t, c))
    ensures JointInv(NextJoint(s, Begin(t, c)))
  {
    hide LogSafety.Inv, FsThreadsSafety.Inv, Log.Next, Log.Enabled, Words, Quiet, Log.Active;
    LogSafety.StepKeeps(s.log, Log.Begin(c));
    LogKeepsView(s.log, Log.Begin(c));
    BeginKeepsOps(s.log, c, c);
    BeginIsNew(s.log, c);
    forall u | u in s.op ensures Log.Active(Log.Next(s.log, Log.Begin(c)).ops, s.op[u]) {
      BeginKeepsOps(s.log, c, s.op[u]);
    }
  }

  lemma EndKeepsJoint(s: Joint, t: int)
    requires JointInv(s) && CanJoint(s, End(t))
    ensures JointInv(NextJoint(s, End(t)))
  {
    hide LogSafety.Inv, FsThreadsSafety.Inv, Log.Next, Log.Enabled, Words, Quiet, Log.Active;
    var c := s.op[t];
    LogSafety.StepKeeps(s.log, Log.End(c));
    LogKeepsView(s.log, Log.End(c));
    ActiveIsRunning(s.log, c);
    forall u | u in s.op && u != t ensures Log.Active(Log.Next(s.log, Log.End(c)).ops, s.op[u]) {
      EndKeepsOps(s.log, c, s.op[u]);
    }
  }

  lemma CrashKeepsJoint(s: Joint)
    requires JointInv(s)
    ensures JointInv(NextJoint(s, Crash))
  {
    hide FsThreadsSafety.Inv, LogSafety.Inv, Words;
    LogSafety.StepKeeps(s.log, Log.Crash);
    var l := Log.Next(s.log, Log.Crash);
    assert l.cur == [] && l.base == s.log.base && Log.View(l) == l.base;
  }

  lemma EventKeeps(s: Joint, e: Event)
    requires JointInv(s) && CanJoint(s, e)
    ensures JointInv(NextJoint(s, e))
  {
    hide JointInv, CanJoint, NextJoint;
    match e
    case Begin(t, c) => BeginKeepsJoint(s, t, c);
    case End(t) => EndKeepsJoint(s, t);
    case Move(t, a) => StepKeepsJoint(s, t, a);
    case Cache(a) => CacheKeepsJoint(s, a);
    case Crash => CrashKeepsJoint(s);
  }

  // ----- whole runs

  /** A machine about to boot from a disk whose log replays to a file system in order. */
  ghost predicate Mountable(s: Joint) {
    && LogTheorems.Init(s.log) && FsThreadsTheorems.Init(s.fs) && s.saved == s.fs && s.op == map[]
    && Placed(s.log.g, s.fs.g) && Holds(s.log.g, s.log.base, s.fs.blk)
  }

  lemma MountableInv(s: Joint)
    requires Mountable(s)
    ensures JointInv(s)
  {
    hide FsThreadsSafety.Inv, LogSafety.Inv, Words, FsOk;
    LogTheorems.InitEstablishes(s.log);
    InitInv(s.fs);
    assert Log.View(s.log) == s.log.base;
  }

  lemma {:induction false} RunKeepsJoint(s: Joint, es: seq<Event>, u: Joint)
    requires JointInv(s) && Reaches(s, es, u)
    ensures JointInv(u)
    decreases |es|
  {
    hide JointInv, CanJoint, NextJoint;
    if es != [] {
      EventKeeps(s, es[0]);
      RunKeepsJoint(NextJoint(s, es[0]), es[1..], u);
    }
  }

  /** Crash consistency of the file system. Wherever a run stops, with crashes and recoveries anywhere, what
      the disk recovers to is a file system in order: the one that the threads had made when no thread was
      inside a call, as of the last commit. Its bitmap is exact and its inodes are those on the disk. */
  lemma {:induction false} RecoversToGoodFileSystem(s: Joint, es: seq<Event>, u: Joint, v: seq<Log.Block>)
    requires Mountable(s) && Reaches(s, es, u)
    ensures Log.DiskOk(u.log.g, u.log.disk)
    ensures |v| == |u.log.disk| && Log.RecoversTo(u.log.g, u.log.disk, v) ==> Holds(u.log.g, v, u.saved.blk)
    ensures Quiet(u.saved) && FsOk(u.saved.g, u.saved.blk, u.saved.inodes, u.saved.owner, {})
    ensures forall j :: 0 <= j < |u.saved.inodes| ==> DiskInode(u.saved.g, u.saved.blk, j) == u.saved.inodes[j]
  {
    hide FsThreadsSafety.Inv, LogSafety.Inv, Words, FsOk, Log.DiskOk, Log.RecoversTo, DiskInode, Reaches, Mountable;
    MountableInv(s);
    RunKeepsJoint(s, es, u);
    LogTheorems.DiskHolds(u.log);
    FsHolds(u.saved);
    QuietFacts(u.saved);
    if |v| == |u.log.disk| && Log.RecoversTo(u.log.g, u.log.disk, v) {
      forall b: nat | Log.Home(u.log.g, b) ensures v[b] == Words(u.saved.blk[b]) {
        LogTheorems.RecoveryIsUnique(u.log.g, u.log.disk, v, u.log.base, b);
      }
    }
  }

  /** And that file system is one that this run passed through, or the one it started from: at some earlier
      moment it was the current one, with no thread inside a call. */
  lemma {:induction false} SavedWasCurrent(s: Joint, es: seq<Event>, u: Joint) returns (n: nat, m: Joint)
    requires Mountable(s) && Reaches(s, es, u)
    ensures n <= |es| && Reaches(s, es[..n], m) && m.fs == u.saved && Quiet(m.fs)
  {
    hide FsThreadsSafety.Inv, LogSafety.Inv, Words, FsOk, CanJoint, NextJoint, Mountable;
    MountableInv(s);
    assert s.saved == s.fs by {
      MountedIsSaved(s);
    }
    n, m := SavedOrCurrent(s, es, u);
    if m.fs != u.saved {
      assert u.saved == s.saved;
      n, m := 0, s;
      assert es[..0] == [];
    }
    RunKeepsJoint(s, es, u);
  }

  lemma MountedIsSaved(s: Joint)
    requires Mountable(s)
    ensures s.saved == s.fs
  {
  }

  lemma {:induction false} SavedOrCurrent(s: Joint, es: seq<Event>, u: Joint) returns (n: nat, m: Joint)
    requires JointInv(s) && Reaches(s, es, u)
    ensures n <= |es| && Reaches(s, es[..n], m) && (m.fs == u.saved || u.saved == s.saved)
    decreases |es|
  {
    hide JointInv, CanJoint;
    if es == [] {
      n, m := 0, s;
    } else {
      var s1 := NextJoint(s, es[0]);
      EventKeeps(s, es[0]);
      n, m := SavedOrCurrent(s1, es[1..], u);
      if m.fs == u.saved {
        assert es[..n + 1][1..] == es[1..][..n];
        n := n + 1;
      } else {
        assert u.saved == s1.saved;
        n, m := 0, s;
        assert es[..0] == [];
      }
    }
  }

  /** Nothing is held back: when no update waits for a commit, the file system that the disk recovers to is
      the current one, byte for byte outside the log. */
  lemma {:induction false} NothingPending(s: Joint, es: seq<Event>, u: Joint, b: nat)
    requires Mountable(s) && Reaches(s, es, u) && u.log.cur == [] && Log.Home(u.log.g, b)
    ensures b < |u.fs.blk| == |u.saved.blk| && u.fs.blk[b] == u.saved.blk[b]
  {
    hide FsThreadsSafety.Inv, LogSafety.Inv, Words, Reaches, Mountable;
    MountableInv(s);
    RunKeepsJoint(s, es, u);
    assert Log.View(u.log) == u.log.base;
    WordsInjective(u.fs.blk[b], u.saved.blk[b]);
  }
}
