/** The write-ahead log as a protocol: every atomic section of kernel/log.c and every
    single-block disk write is one step, any number of operations and readers interleave,
    and the machine may crash between any two steps, including during recovery.

    A block is a sequence of 32-bit words; the on-disk log header is word 0 (the count)
    followed by the logged block numbers. */
module LogModel {
  import opened Param

  const BLOCKWORDS: nat := 256

  type Block = b: seq<nat> | |b| == BLOCKWORDS witness seq(BLOCKWORDS, i => 0)

  /** The kernel thread running commit or recovery, a file-system operation between
      begin_op and end_op, or a process that reads blocks outside any operation. */
  datatype Client = Committer | Operation(id: nat) | Reader(id: nat)

  datatype Lock = Free | HeldBy(holder: Client)

  /** `users` are the clients between bget and brelse, whether or not they own the sleep lock yet. */
  datatype Buf = Buf(data: Block, valid: bool, refcnt: int, users: set<Client>, lock: Lock)

  datatype Op = Op(client: Client, used: nat)

  datatype Update = Update(op: Client, block: nat, data: Block)

  /** Where the committing (or recovering) thread is. */
  datatype Phase =
    | Boot
    | Recovering(tail: nat)
    | Running
    | WritingLog(tail: nat)
    | Installing(tail: nat)
    | Cleared

  /** The disk has `size` blocks; the log header is block `start` and its entries follow. */
  datatype Geometry = Geometry(size: nat, start: nat)

  datatype State = State(
    g: Geometry,
    disk: seq<Block>,
    cache: map<nat, Buf>,
    list: seq<nat>,             // log.lh.block[..log.lh.n]
    outstanding: int,
    committing: bool,
    phase: Phase,
    panicked: bool,
    // What follows only records history: the executing operations and the number of
    // blocks each has added to the log, blocks changed but not yet logged, the updates of
    // the open transaction, and all committed transactions.
    ops: seq<Op>,
    dirty: set<nat>,
    cur: seq<Update>,
    txns: seq<seq<Update>>,
    base: seq<Block>,
    began: set<Client>,
    ended: set<Client>)

  datatype Action =
    | Get(c: Client, b: nat, recycle: bool, victim: nat)
    | Lock(c: Client, b: nat)
    | Fill(c: Client, b: nat)
    | Release(c: Client, b: nat)
    | Begin(c: Client)
    | Modify(c: Client, b: nat, data: Block)
    | LogWrite(c: Client, b: nat)
    | End(c: Client)
    | CopyToLog
    | CommitHead
    | CopyHome
    | ClearHead
    | Finish
    | Crash
    | ReadHead

  // ----- the disk and its log header

  predicate Home(g: Geometry, b: nat) {
    b < g.size && !(g.start <= b <= g.start + LOGBLOCKS)
  }

  predicate HeaderFits(h: Block) {
    h[0] <= LOGBLOCKS
  }

  function HeaderList(h: Block): (l: seq<nat>)
    requires HeaderFits(h)
  {
    h[1..1 + h[0]]
  }

  /** write_head overwrites the count and the first `|l|` entries; later words keep what they held. */
  function EncodeHeader(was: Block, l: seq<nat>): (h: Block)
    requires |l| <= LOGBLOCKS
  {
    [|l|] + l + was[1 + |l|..]
  }

  lemma HeaderRoundTrip(was: Block, l: seq<nat>)
    requires |l| <= LOGBLOCKS
    ensures HeaderFits(EncodeHeader(was, l)) && HeaderList(EncodeHeader(was, l)) == l
    ensures var h := EncodeHeader(was, l);
            && h[0] == |l| && (forall i :: 0 <= i < |l| ==> h[1 + i] == l[i])
            && forall i :: |l| < i < |h| ==> h[i] == was[i]
  {
    var h := EncodeHeader(was, l);
    assert forall i :: 0 <= i < |l| ==> h[1 + i] == l[i];
  }

  ghost predicate Distinct(l: seq<nat>) {
    forall i, j :: 0 <= i < j < |l| ==> l[i] != l[j]
  }

  ghost predicate ListOk(g: Geometry, l: seq<nat>) {
    && |l| <= LOGBLOCKS
    && Distinct(l)
    && forall i :: 0 <= i < |l| ==> Home(g, l[i])
  }

  ghost predicate DiskOk(g: Geometry, disk: seq<Block>) {
    && g.start + LOGBLOCKS < g.size == |disk|
    && HeaderFits(disk[g.start])
    && ListOk(g, HeaderList(disk[g.start]))
  }

  /** `v` is what the home blocks hold once the log on `disk` has been replayed. */
  ghost predicate RecoversTo(g: Geometry, disk: seq<Block>, v: seq<Block>)
    requires DiskOk(g, disk) && |v| == |disk|
  {
    Replayed(g, HeaderList(disk[g.start]), disk, v)
  }

  /** The same in words of the disk: word 0 of the header is a count n, words 1 to n are block numbers, and the
      block that word i names recovers to the i-th block behind the header; all others stay. */
  lemma {:induction false} RecoveryWrittenOut(g: Geometry, disk: seq<Block>, v: seq<Block>)
    requires DiskOk(g, disk) && |v| == |disk|
    ensures var h := disk[g.start];
            && h[0] <= 30
            && (forall i :: 1 <= i <= h[0] ==> h[i] < |disk|)
            && (RecoversTo(g, disk, v) <==>
                && (forall i :: 1 <= i <= h[0] ==> v[h[i]] == disk[g.start + i])
                && (forall b: nat :: b < |disk| && !(g.start <= b <= g.start + 30) && b !in h[1..1 + h[0]] ==>
                      v[b] == disk[b]))
  {
    var h := disk[g.start];
    var l := HeaderList(h);
    forall i | 1 <= i <= h[0] ensures h[i] < |disk| && h[i] == l[i - 1] {
      assert Home(g, l[i - 1]);
    }
    if RecoversTo(g, disk, v) {
      forall i | 1 <= i <= h[0] ensures v[h[i]] == disk[g.start + i] {
        assert v[l[i - 1]] == disk[g.start + 1 + (i - 1)];
      }
      forall b: nat | b < |disk| && !(g.start <= b <= g.start + 30) && b !in l ensures v[b] == disk[b] {
        assert Home(g, b);
      }
    }
    if (forall i :: 1 <= i <= h[0] ==> v[h[i]] == disk[g.start + i])
       && (forall b: nat :: b < |disk| && !(g.start <= b <= g.start + 30) && b !in l ==> v[b] == disk[b])
    {
      forall i | 0 <= i < |l| ensures v[l[i]] == disk[g.start + 1 + i] {
        assert v[h[i + 1]] == disk[g.start + (i + 1)];
      }
    }
  }

  ghost predicate Replayed(g: Geometry, l: seq<nat>, disk: seq<Block>, v: seq<Block>)
    requires g.start + LOGBLOCKS < g.size == |disk| == |v| && ListOk(g, l)
  {
    && (forall i :: 0 <= i < |l| ==> v[l[i]] == disk[g.start + 1 + i])
    && (forall b: nat :: Home(g, b) && b !in l ==> v[b] == disk[b])
  }

  // ----- transactions as values

  /** Updates in order; one that lies outside the disk has no effect. */
  function ApplyUpdates(d: seq<Block>, us: seq<Update>): (r: seq<Block>)
    ensures |r| == |d|
  {
    if us == [] then d else
      var k := |us| - 1;
      var r := ApplyUpdates(d, us[..k]);
      if us[k].block < |r| then r[us[k].block := us[k].data] else r
  }

  /** The disk contents after the given transactions, each applied whole and in order. */
  function Replay(d: seq<Block>, txns: seq<seq<Update>>): (r: seq<Block>)
    ensures |r| == |d|
  {
    if txns == [] then d else
      var k := |txns| - 1;
      ApplyUpdates(Replay(d, txns[..k]), txns[k])
  }

  lemma ApplyOne(d: seq<Block>, us: seq<Update>, u: Update)
    requires u.block < |d|
    ensures ApplyUpdates(d, us + [u]) == ApplyUpdates(d, us)[u.block := u.data]
  {
    assert (us + [u])[..|us|] == us;
  }

  /** A block without updates keeps its contents. */
  lemma {:induction false} ApplyElsewhere(d: seq<Block>, us: seq<Update>, b: nat)
    requires b < |d|
    requires forall i :: 0 <= i < |us| ==> us[i].block != b
    ensures ApplyUpdates(d, us)[b] == d[b]
  {
    if us != [] {
      ApplyElsewhere(d, us[..|us| - 1], b);
    }
  }

  // ----- reading the state

  predicate InCommit(p: Phase) {
    p.WritingLog? || p.Installing? || p.Cleared?
  }

  predicate InRecovery(p: Phase) {
    p.Boot? || p.Recovering?
  }

  predicate Holds(cache: map<nat, Buf>, c: Client, b: nat) {
    b in cache && cache[b].lock == HeldBy(c) && cache[b].valid
  }

  predicate Active(ops: seq<Op>, c: Client) {
    exists i :: 0 <= i < |ops| && ops[i].client == c
  }

  /** The contents of the home blocks as the open transaction sees them. */
  function View(s: State): (v: seq<Block>) {
    ApplyUpdates(s.base, s.cur)
  }

  /** A logged block stays pinned from log_write until its home copy is installed. */
  predicate Pinned(p: Phase, list: seq<nat>, b: nat) {
    match p
    case Running => b in list
    case WritingLog(_) => b in list
    case Installing(t) => t <= |list| && b in list[t..]
    case _ => false
  }

  function Unused(ops: seq<Op>): (n: int) {
    if ops == [] then 0 else Unused(ops[..|ops| - 1]) + MAXOPBLOCKS - ops[|ops| - 1].used
  }

  function FindOp(ops: seq<Op>, c: Client): (k: nat)
    requires Active(ops, c)
    ensures k < |ops| && ops[k].client == c
  {
    if ops[|ops| - 1].client == c then |ops| - 1 else FindOp(ops[..|ops| - 1], c)
  }

  function Drop(ops: seq<Op>, k: nat): (r: seq<Op>)
    requires k < |ops|
  {
    ops[..k] + ops[k + 1..]
  }

  // ----- the steps: when each is possible, and what it does

  /** bget: a hit takes a reference; a miss uses an unused buffer or recycles an unreferenced one. */
  predicate CanGet(s: State, c: Client, b: nat, recycle: bool, victim: nat) {
    && b < s.g.size
    && (c != Committer ==> Home(s.g, b))
    && (if b in s.cache then c !in s.cache[b].users
        else if recycle then victim in s.cache && s.cache[victim].refcnt == 0
        else |s.cache| < NBUF)
  }

  function DoGet(s: State, c: Client, b: nat, recycle: bool, victim: nat): (t: State)
    requires CanGet(s, c, b, recycle, victim)
  {
    if b in s.cache then
      var f := s.cache[b];
      s.(cache := s.cache[b := f.(refcnt := f.refcnt + 1, users := f.users + {c})])
    else
      var data := if recycle then s.cache[victim].data else seq(BLOCKWORDS, i => 0);
      var kept := if recycle then s.cache - {victim} else s.cache;
      s.(cache := kept[b := Buf(data, false, 1, {c}, Free)])
  }

  predicate CanLock(s: State, c: Client, b: nat) {
    b in s.cache && c in s.cache[b].users && s.cache[b].lock == Free
  }

  function DoLock(s: State, c: Client, b: nat): (t: State)
    requires CanLock(s, c, b)
  {
    s.(cache := s.cache[b := s.cache[b].(lock := HeldBy(c))])
  }

  /** bread fetches an invalid buffer's contents from the disk. */
  predicate CanFill(s: State, c: Client, b: nat) {
    b in s.cache && s.cache[b].lock == HeldBy(c) && !s.cache[b].valid && b < |s.disk|
  }

  function DoFill(s: State, c: Client, b: nat): (t: State)
    requires CanFill(s, c, b)
  {
    s.(cache := s.cache[b := s.cache[b].(data := s.disk[b], valid := true)])
  }

  /** brelse: clients log a changed buffer before they let go of it. */
  predicate CanRelease(s: State, c: Client, b: nat) {
    Holds(s.cache, c, b) && b !in s.dirty
  }

  function DoRelease(s: State, c: Client, b: nat): (t: State)
    requires CanRelease(s, c, b)
  {
    var f := s.cache[b];
    s.(cache := s.cache[b := f.(refcnt := f.refcnt - 1, users := f.users - {c}, lock := Free)])
  }

  /** begin_op sleeps unless no commit is running and the log has room for one more reservation. */
  predicate CanBegin(s: State, c: Client) {
    && !InRecovery(s.phase)
    && !s.committing
    && |s.list| + (s.outstanding + 1) * MAXOPBLOCKS <= LOGBLOCKS
    && c.Operation? && c !in s.began
  }

  function DoBegin(s: State, c: Client): (t: State)
    requires CanBegin(s, c)
  {
    s.(outstanding := s.outstanding + 1, ops := s.ops + [Op(c, 0)], began := s.began + {c})
  }

  predicate CanModify(s: State, c: Client, b: nat) {
    Active(s.ops, c) && Holds(s.cache, c, b) && Home(s.g, b)
  }

  function DoModify(s: State, c: Client, b: nat, data: Block): (t: State)
    requires CanModify(s, c, b)
  {
    s.(cache := s.cache[b := s.cache[b].(data := data)],
       dirty := s.dirty + {b},
       cur := s.cur + [Update(c, b, data)])
  }

  /** log_write, for an operation that adds at most MAXOPBLOCKS new block numbers. */
  predicate CanLogWrite(s: State, c: Client, b: nat) {
    && Active(s.ops, c) && Holds(s.cache, c, b) && Home(s.g, b)
    && (b !in s.list ==> s.ops[FindOp(s.ops, c)].used < MAXOPBLOCKS)
  }

  function DoLogWrite(s: State, c: Client, b: nat): (t: State)
    requires CanLogWrite(s, c, b)
  {
    if |s.list| >= LOGBLOCKS || s.outstanding < 1 then s.(panicked := true)
    else if b in s.list then s.(dirty := s.dirty - {b})
    else
      var f := s.cache[b];
      var k := FindOp(s.ops, c);
      s.(list := s.list + [b],
         cache := s.cache[b := f.(refcnt := f.refcnt + 1)],
         dirty := s.dirty - {b},
         ops := s.ops[k := s.ops[k].(used := s.ops[k].used + 1)])
  }

  predicate CanEnd(s: State, c: Client) {
    Active(s.ops, c) && forall b :: b in s.dirty ==> !Holds(s.cache, c, b)
  }

  /** end_op: the last operation to leave starts the commit. */
  function DoEnd(s: State, c: Client): (t: State)
    requires CanEnd(s, c)
  {
    if s.committing then s.(panicked := true)
    else
      var t := s.(outstanding := s.outstanding - 1,
                  ops := Drop(s.ops, FindOp(s.ops, c)),
                  ended := s.ended + {c});
      if t.outstanding == 0 then t.(committing := true, phase := WritingLog(0)) else t
  }

  predicate HoldsEntry(s: State, i: nat) {
    && i < |s.list|
    && Holds(s.cache, Committer, s.g.start + 1 + i) && s.g.start + 1 + i < |s.disk|
    && Holds(s.cache, Committer, s.list[i]) && s.list[i] < |s.disk|
  }

  predicate HoldsHead(s: State) {
    Holds(s.cache, Committer, s.g.start) && s.g.start < |s.disk|
  }

  /** One turn of write_log: copy a cached block into the log and write it. */
  predicate CanCopyToLog(s: State) {
    s.phase.WritingLog? && HoldsEntry(s, s.phase.tail)
  }

  function DoCopyToLog(s: State): (t: State)
    requires CanCopyToLog(s)
  {
    var i := s.phase.tail;
    var data := s.cache[s.list[i]].data;
    s.(cache := s.cache[s.g.start + 1 + i := s.cache[s.g.start + 1 + i].(data := data)],
       disk := s.disk[s.g.start + 1 + i := data],
       phase := WritingLog(i + 1))
  }

  /** The first write_head: the open transaction becomes part of the committed history. */
  predicate CanCommitHead(s: State) {
    s.phase.WritingLog? && s.phase.tail == |s.list| && 0 < |s.list| <= LOGBLOCKS && HoldsHead(s)
  }

  function DoCommitHead(s: State): (t: State)
    requires CanCommitHead(s)
  {
    var h := EncodeHeader(s.cache[s.g.start].data, s.list);
    s.(cache := s.cache[s.g.start := s.cache[s.g.start].(data := h)],
       disk := s.disk[s.g.start := h],
       phase := Installing(0),
       base := View(s),
       txns := s.txns + [s.cur],
       cur := [])
  }

  /** One turn of install_trans: copy a log block home; a commit, unlike a recovery, then unpins it. */
  predicate CanCopyHome(s: State) {
    (s.phase.Installing? || s.phase.Recovering?) && HoldsEntry(s, s.phase.tail)
  }

  function DoCopyHome(s: State): (t: State)
    requires CanCopyHome(s)
  {
    var i := s.phase.tail;
    var b := s.list[i];
    var data := s.cache[s.g.start + 1 + i].data;
    var f := s.cache[b].(data := data);
    s.(cache := s.cache[b := if s.phase.Installing? then f.(refcnt := f.refcnt - 1) else f],
       disk := s.disk[b := data],
       phase := if s.phase.Installing? then Installing(i + 1) else Recovering(i + 1))
  }

  /** The last write_head of a commit or a recovery. */
  predicate CanClearHead(s: State) {
    (s.phase.Installing? || s.phase.Recovering?) && s.phase.tail == |s.list| && HoldsHead(s)
  }

  function DoClearHead(s: State): (t: State)
    requires CanClearHead(s)
  {
    var h := EncodeHeader(s.cache[s.g.start].data, []);
    s.(cache := s.cache[s.g.start := s.cache[s.g.start].(data := h)],
       disk := s.disk[s.g.start := h],
       list := [],
       phase := if s.phase.Installing? then Cleared else Running)
  }

  /** commit returns, at once if nothing was logged. */
  predicate CanFinish(s: State) {
    s.phase.Cleared? || (s.phase.WritingLog? && s.list == [])
  }

  function DoFinish(s: State): (t: State)
    requires CanFinish(s)
  {
    s.(committing := false, phase := Running)
  }

  /** Only the disk and the recorded history survive a crash. */
  function DoCrash(s: State): (t: State) {
    s.(cache := map[], list := [], outstanding := 0, committing := false, phase := Boot,
       panicked := false, ops := [], dirty := {}, cur := [])
  }

  predicate CanReadHead(s: State) {
    s.phase.Boot? && HoldsHead(s) && HeaderFits(s.cache[s.g.start].data)
  }

  function DoReadHead(s: State): (t: State)
    requires CanReadHead(s)
  {
    s.(list := HeaderList(s.cache[s.g.start].data), phase := Recovering(0))
  }

  predicate Enabled(s: State, a: Action) {
    a.Crash? ||
    (!s.panicked &&
     match a
     case Get(c, b, recycle, victim) => CanGet(s, c, b, recycle, victim)
     case Lock(c, b) => CanLock(s, c, b)
     case Fill(c, b) => CanFill(s, c, b)
     case Release(c, b) => CanRelease(s, c, b)
     case Begin(c) => CanBegin(s, c)
     case Modify(c, b, data) => CanModify(s, c, b)
     case LogWrite(c, b) => CanLogWrite(s, c, b)
     case End(c) => CanEnd(s, c)
     case CopyToLog => CanCopyToLog(s)
     case CommitHead => CanCommitHead(s)
     case CopyHome => CanCopyHome(s)
     case ClearHead => CanClearHead(s)
     case Finish => CanFinish(s)
     case Crash => true
     case ReadHead => CanReadHead(s))
  }

  function Next(s: State, a: Action): (t: State)
    requires Enabled(s, a)
  {
    match a
    case Get(c, b, recycle, victim) => DoGet(s, c, b, recycle, victim)
    case Lock(c, b) => DoLock(s, c, b)
    case Fill(c, b) => DoFill(s, c, b)
    case Release(c, b) => DoRelease(s, c, b)
    case Begin(c) => DoBegin(s, c)
    case Modify(c, b, data) => DoModify(s, c, b, data)
    case LogWrite(c, b) => DoLogWrite(s, c, b)
    case End(c) => DoEnd(s, c)
    case CopyToLog => DoCopyToLog(s)
    case CommitHead => DoCommitHead(s)
    case CopyHome => DoCopyHome(s)
    case ClearHead => DoClearHead(s)
    case Finish => DoFinish(s)
    case Crash => DoCrash(s)
    case ReadHead => DoReadHead(s)
  }
}
