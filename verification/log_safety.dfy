/** Every step of the log protocol keeps one invariant; crash atomicity, the cache overlay
    and the log reservation follow from it for every run. */
module LogSafety {
  import opened Param
  import opened LogModel

  // ----- the invariant, one concern at a time

  ghost predicate UpdatesOk(g: Geometry, cur: seq<Update>) {
    forall i :: 0 <= i < |cur| ==> Home(g, cur[i].block)
  }

  ghost predicate Shape(s: State) {
    && DiskOk(s.g, s.disk)
    && |s.base| == s.g.size
    && ListOk(s.g, s.list)
    && UpdatesOk(s.g, s.cur)
  }

  ghost predicate OpsOk(ops: seq<Op>) {
    && (forall i, j :: 0 <= i < j < |ops| ==> ops[i].client != ops[j].client)
    && (forall i :: 0 <= i < |ops| ==> ops[i].client.Operation? && ops[i].used <= MAXOPBLOCKS)
  }

  /** log.outstanding counts the executing operations, and a commit excludes them all. */
  ghost predicate Control(s: State) {
    && s.outstanding == |s.ops|
    && (s.committing <==> InCommit(s.phase))
    && (!s.phase.Running? ==> s.ops == [] && s.dirty == {})
    && (InRecovery(s.phase) || s.phase.Installing? || s.phase.Cleared? ==> s.cur == [])
    && (s.phase.Boot? || s.phase.Cleared? ==> s.list == [])
    && (s.phase.Recovering? || s.phase.WritingLog? || s.phase.Installing? ==> s.phase.tail <= |s.list|)
    && OpsOk(s.ops)
  }

  /** Logged blocks and the unused part of every reservation fit the log together. */
  ghost predicate Reserved(s: State) {
    |s.list| + Unused(s.ops) <= LOGBLOCKS
  }

  /** What the disk alone determines: replaying its log gives `base`. */
  ghost predicate Durable(s: State)
    requires Shape(s)
  {
    && RecoversTo(s.g, s.disk, s.base)
    && (s.phase.Running? || s.phase.WritingLog? || s.phase.Cleared? ==> HeaderList(s.disk[s.g.start]) == [])
    && (s.phase.Recovering? || s.phase.Installing? ==> HeaderList(s.disk[s.g.start]) == s.list)
  }

  ghost predicate LoggedUpTo(g: Geometry, list: seq<nat>, disk: seq<Block>, v: seq<Block>, t: nat)
    requires ListOk(g, list) && |disk| == |v| == g.size && g.start + LOGBLOCKS < g.size && t <= |list|
  {
    forall i :: 0 <= i < t ==> disk[g.start + 1 + i] == v[list[i]]
  }

  ghost predicate InstalledUpTo(g: Geometry, list: seq<nat>, disk: seq<Block>, v: seq<Block>, t: nat)
    requires ListOk(g, list) && |disk| == |v| == g.size && t <= |list|
  {
    forall i :: 0 <= i < t ==> disk[list[i]] == v[list[i]]
  }

  /** How far the committing thread has come. */
  ghost predicate Progress(s: State)
    requires Shape(s) && Control(s)
  {
    && (s.phase.WritingLog? ==> LoggedUpTo(s.g, s.list, s.disk, View(s), s.phase.tail))
    && (s.phase.Installing? || s.phase.Recovering? ==> InstalledUpTo(s.g, s.list, s.disk, s.base, s.phase.tail))
  }

  /** What a valid buffer for block `b` must hold. */
  ghost function Content(g: Geometry, disk: seq<Block>, v: seq<Block>, recovery: bool, b: nat): (d: Block)
    requires b < g.size == |disk| == |v|
  {
    if Home(g, b) && !recovery then v[b] else disk[b]
  }

  ghost predicate CacheOk(g: Geometry, disk: seq<Block>, v: seq<Block>, recovery: bool, cache: map<nat, Buf>)
    requires g.size == |disk| == |v|
  {
    forall b :: b in cache ==> b < g.size && (cache[b].valid ==> cache[b].data == Content(g, disk, v, recovery, b))
  }

  /** A valid buffer holds the current contents of its block. */
  ghost predicate Coherent(s: State)
    requires Shape(s)
  {
    CacheOk(s.g, s.disk, View(s), InRecovery(s.phase), s.cache)
  }

  ghost predicate CurTracked(cur: seq<Update>, list: seq<nat>, dirty: set<nat>) {
    forall i :: 0 <= i < |cur| ==> cur[i].block in list || cur[i].block in dirty
  }

  ghost predicate DirtyHeld(g: Geometry, dirty: set<nat>, cache: map<nat, Buf>, ops: seq<Op>) {
    forall b :: b in dirty ==>
      Home(g, b) && b in cache && cache[b].valid && cache[b].lock.HeldBy? && Active(ops, cache[b].lock.holder)
  }

  ghost predicate PinnedCached(p: Phase, list: seq<nat>, cache: map<nat, Buf>) {
    forall i :: 0 <= i < |list| && Pinned(p, list, list[i]) ==> list[i] in cache && cache[list[i]].valid
  }

  /** Whatever the open transaction changed is logged, or still locked by its operation. */
  ghost predicate Tracked(s: State) {
    && CurTracked(s.cur, s.list, s.dirty)
    && DirtyHeld(s.g, s.dirty, s.cache, s.ops)
    && PinnedCached(s.phase, s.list, s.cache)
  }

  /** A buffer's reference count is its users plus its pin, and its lock holder is a user. */
  ghost predicate BufCounted(p: Phase, list: seq<nat>, b: nat, f: Buf) {
    && f.refcnt == |f.users| + (if Pinned(p, list, b) then 1 else 0)
    && (f.lock.HeldBy? ==> f.lock.holder in f.users)
  }

  ghost predicate Counted(s: State) {
    forall b :: b in s.cache ==> BufCounted(s.phase, s.list, b, s.cache[b])
  }

  ghost predicate Mentions(txns: seq<seq<Update>>, c: Client) {
    exists i, j :: 0 <= i < |txns| && 0 <= j < |txns[i]| && txns[i][j].op == c
  }

  ghost predicate NoSplit(txns: seq<seq<Update>>) {
    forall i, j, x, y ::
        0 <= i < j < |txns| && 0 <= x < |txns[i]| && 0 <= y < |txns[j]| ==> txns[i][x].op != txns[j][y].op
  }

  /** Committed transactions contain finished operations only, and no operation is split. */
  ghost predicate Atomic(s: State) {
    && s.ended <= s.began
    && NoSplit(s.txns)
    && (forall i :: 0 <= i < |s.ops| ==> s.ops[i].client in s.began && s.ops[i].client !in s.ended)
    && (forall c :: Mentions(s.txns, c) ==> c in s.ended)
    && (forall i :: 0 <= i < |s.cur| ==>
          s.cur[i].op in s.began && !Mentions(s.txns, s.cur[i].op)
              && (s.cur[i].op in s.ended || Active(s.ops, s.cur[i].op)))
  }

  ghost predicate Stored(s: State) {
    Shape(s) && Control(s) && Reserved(s) && Durable(s) && Progress(s) && Coherent(s)
  }

  ghost predicate Accounted(s: State) {
    Tracked(s) && Counted(s) && Atomic(s)
  }

  ghost predicate Inv(s: State) {
    Stored(s) && Accounted(s)
  }

  // ----- cache steps

  lemma GetHitKeeps(s: State, c: Client, b: nat, recycle: bool, victim: nat)
    requires Inv(s) && CanGet(s, c, b, recycle, victim) && b in s.cache
    ensures Inv(DoGet(s, c, b, recycle, victim))
  {
  }

  lemma GetFreshStores(s: State, c: Client, b: nat, victim: nat)
    requires Inv(s) && CanGet(s, c, b, false, victim) && b !in s.cache
    ensures Stored(DoGet(s, c, b, false, victim))
  {
    hide Replayed, Unused, LoggedUpTo, InstalledUpTo, Accounted, ApplyUpdates, OpsOk, Content;
  }

  lemma GetFreshAccounts(s: State, c: Client, b: nat, victim: nat)
    requires Inv(s) && CanGet(s, c, b, false, victim) && b !in s.cache
    ensures Accounted(DoGet(s, c, b, false, victim))
  {
    hide Stored, NoSplit, Mentions, Active, CurTracked;
    assert |{c}| == 1;
  }

  /** A recycled buffer has no users and no pin, so it is neither dirty nor logged. */
  lemma RecycleKeeps(s: State, c: Client, b: nat, victim: nat)
    requires Inv(s) && CanGet(s, c, b, true, victim) && b !in s.cache
    ensures Inv(DoGet(s, c, b, true, victim))
  {
    hide Replayed, Unused, LoggedUpTo, InstalledUpTo, NoSplit, Mentions, ApplyUpdates, OpsOk, CurTracked, Active,
        Content;
    assert BufCounted(s.phase, s.list, victim, s.cache[victim]);
    assert s.cache[victim].users == {};
    assert victim !in s.dirty;
    var t := DoGet(s, c, b, true, victim);
    assert Tracked(t);
    assert |{c}| == 1;
  }

  lemma LockKeeps(s: State, c: Client, b: nat)
    requires Inv(s) && CanLock(s, c, b)
    ensures Inv(DoLock(s, c, b))
  {
  }

  /** A block that is neither pinned nor dirty is up to date on the disk. */
  lemma DiskIsCurrent(s: State, b: nat)
    requires Inv(s) && b < s.g.size && !Pinned(s.phase, s.list, b) && b !in s.dirty
    ensures s.disk[b] == Content(s.g, s.disk, View(s), InRecovery(s.phase), b)
  {
    if Home(s.g, b) && !InRecovery(s.phase) && !(s.phase.Installing? && b in s.list) {
      ApplyElsewhere(s.base, s.cur, b);
    }
  }

  lemma FillStores(s: State, c: Client, b: nat)
    requires Inv(s) && CanFill(s, c, b)
    ensures Stored(DoFill(s, c, b))
  {
    hide Replayed, Unused, LoggedUpTo, InstalledUpTo, Atomic, CurTracked, ApplyUpdates, OpsOk, Content;
    DiskIsCurrent(s, b);
  }

  lemma FillAccounts(s: State, c: Client, b: nat)
    requires Inv(s) && CanFill(s, c, b)
    ensures Accounted(DoFill(s, c, b))
  {
    hide Stored, CurTracked, Active, NoSplit, Mentions;
  }

  lemma ReleaseKeeps(s: State, c: Client, b: nat)
    requires Inv(s) && CanRelease(s, c, b)
    ensures Inv(DoRelease(s, c, b))
  {
  }

  // ----- operations

  lemma {:induction false} UnusedBound(ops: seq<Op>)
    requires OpsOk(ops)
    ensures 0 <= Unused(ops) <= |ops| * MAXOPBLOCKS
  {
    if ops != [] {
      UnusedBound(ops[..|ops| - 1]);
    }
  }

  lemma {:induction false} UnusedUpdate(ops: seq<Op>, k: nat, o: Op)
    requires k < |ops|
    ensures Unused(ops[k := o]) == Unused(ops) + ops[k].used - o.used
  {
    var n := |ops| - 1;
    if k == n {
      assert ops[k := o][..n] == ops[..n];
    } else {
      assert ops[k := o][..n] == ops[..n][k := o];
      UnusedUpdate(ops[..n], k, o);
    }
  }

  lemma {:induction false} UnusedDrop(ops: seq<Op>, k: nat)
    requires k < |ops|
    ensures Unused(Drop(ops, k)) == Unused(ops) - MAXOPBLOCKS + ops[k].used
  {
    var n := |ops| - 1;
    if k == n {
      assert Drop(ops, k) == ops[..n];
    } else {
      assert Drop(ops, k)[..n - 1] == Drop(ops[..n], k);
      UnusedDrop(ops[..n], k);
    }
  }

  lemma BeginStores(s: State, c: Client)
    requires Inv(s) && CanBegin(s, c)
    ensures Stored(DoBegin(s, c))
  {
    hide Replayed, LoggedUpTo, InstalledUpTo, CacheOk, ApplyUpdates, Tracked, Counted, NoSplit, Mentions;
    var t := DoBegin(s, c);
    UnusedBound(s.ops);
    assert t.ops[..|s.ops|] == s.ops;
  }

  lemma BeginAccounts(s: State, c: Client)
    requires Inv(s) && CanBegin(s, c)
    ensures Accounted(DoBegin(s, c))
  {
    hide Stored, NoSplit, Mentions, BufCounted;
    var t := DoBegin(s, c);
    forall d | Active(s.ops, d) ensures Active(t.ops, d) {
      var i :| 0 <= i < |s.ops| && s.ops[i].client == d;
      assert t.ops[i].client == d;
    }
    assert Active(t.ops, c) by {
      assert t.ops[|s.ops|].client == c;
    }
  }

  lemma ModifyCache(g: Geometry, disk: seq<Block>, v: seq<Block>, cache: map<nat, Buf>, b: nat, f: Buf)
    requires g.size == |disk| == |v| && CacheOk(g, disk, v, false, cache) && Home(g, b)
    ensures CacheOk(g, disk, v[b := f.data], false, cache[b := f])
  {
  }

  lemma ModifyStores(s: State, c: Client, b: nat, data: Block)
    requires Inv(s) && CanModify(s, c, b)
    ensures Stored(DoModify(s, c, b, data))
  {
    hide Replayed, Unused, LoggedUpTo, InstalledUpTo, Accounted, OpsOk, ApplyUpdates, CacheOk;
    ApplyOne(s.base, s.cur, Update(c, b, data));
    ModifyCache(s.g, s.disk, View(s), s.cache, b, s.cache[b].(data := data));
  }

  lemma ModifyAccounts(s: State, c: Client, b: nat, data: Block)
    requires Inv(s) && CanModify(s, c, b)
    ensures Accounted(DoModify(s, c, b, data))
  {
    hide Stored, NoSplit, Mentions;
  }

  /** An operation that has not used up its reservation never finds the log full. */
  lemma RoomForReserved(s: State, c: Client)
    requires Inv(s) && Active(s.ops, c) && s.ops[FindOp(s.ops, c)].used < MAXOPBLOCKS
    ensures |s.list| < LOGBLOCKS
  {
    var k := FindOp(s.ops, c);
    UnusedDrop(s.ops, k);
    UnusedBound(Drop(s.ops, k));
  }

  lemma AbsorbKeeps(s: State, c: Client, b: nat)
    requires Inv(s) && CanLogWrite(s, c, b) && b in s.list
    ensures Inv(DoLogWrite(s, c, b))
  {
    hide Replayed, Unused, LoggedUpTo, InstalledUpTo, NoSplit, Mentions, ApplyUpdates, OpsOk, CacheOk, Active,
        BufCounted;
  }

  lemma AppendStores(s: State, c: Client, b: nat)
    requires Inv(s) && CanLogWrite(s, c, b) && b !in s.list
    ensures Stored(DoLogWrite(s, c, b))
  {
    RoomForReserved(s, c);
    var t := DoLogWrite(s, c, b);
    var k := FindOp(s.ops, c);
    assert Reserved(t) by {
      UnusedUpdate(s.ops, k, t.ops[k]);
    }
  }

  lemma AppendAccounts(s: State, c: Client, b: nat)
    requires Inv(s) && CanLogWrite(s, c, b) && b !in s.list
    ensures Accounted(DoLogWrite(s, c, b))
  {
    RoomForReserved(s, c);
    var t := DoLogWrite(s, c, b);
    SameClients(s.ops, t.ops);
    assert forall x :: x in t.list <==> x in s.list || x == b;
    forall x | x in t.cache ensures BufCounted(t.phase, t.list, x, t.cache[x]) {
      assert BufCounted(s.phase, s.list, x, s.cache[x]);
    }
  }

  lemma SameClients(a: seq<Op>, b: seq<Op>)
    requires |a| == |b| && forall i :: 0 <= i < |a| ==> a[i].client == b[i].client
    ensures forall c :: Active(a, c) <==> Active(b, c)
  {
    forall c | Active(a, c) ensures Active(b, c) {
      var i :| 0 <= i < |a| && a[i].client == c;
      assert b[i].client == c;
    }
    forall c | Active(b, c) ensures Active(a, c) {
      var i :| 0 <= i < |b| && b[i].client == c;
      assert a[i].client == c;
    }
  }

  lemma DropOps(ops: seq<Op>, k: nat)
    requires OpsOk(ops) && k < |ops|
    ensures OpsOk(Drop(ops, k))
    ensures forall i :: 0 <= i < |ops| - 1 ==> Drop(ops, k)[i] in ops && Drop(ops, k)[i].client != ops[k].client
    ensures forall d :: Active(ops, d) && d != ops[k].client ==> Active(Drop(ops, k), d)
  {
    var r := Drop(ops, k);
    assert forall i :: 0 <= i < |r| ==> r[i] == ops[if i < k then i else i + 1];
    forall d | Active(ops, d) && d != ops[k].client ensures Active(r, d) {
      var i :| 0 <= i < |ops| && ops[i].client == d;
      assert r[if i < k then i else i - 1].client == d;
    }
  }

  lemma EndStores(s: State, c: Client)
    requires Inv(s) && CanEnd(s, c)
    ensures Stored(DoEnd(s, c))
  {
    var t := DoEnd(s, c);
    var k := FindOp(s.ops, c);
    DropOps(s.ops, k);
    UnusedDrop(s.ops, k);
    assert t.ops == [] ==> t.dirty == {} by {
      forall b | b in t.dirty ensures t.ops != [] {
        assert Active(t.ops, s.cache[b].lock.holder);
      }
    }
  }

  lemma EndAccounts(s: State, c: Client)
    requires Inv(s) && CanEnd(s, c)
    ensures Accounted(DoEnd(s, c))
  {
    hide Replayed, Unused, LoggedUpTo, InstalledUpTo, CacheOk, NoSplit, Mentions, ApplyUpdates;
    DropOps(s.ops, FindOp(s.ops, c));
  }

  // ----- commit and recovery

  lemma CopyToLogStores(s: State)
    requires Stored(s) && CanCopyToLog(s)
    ensures Stored(DoCopyToLog(s))
  {
    hide Unused, OpsOk;
    var t := DoCopyToLog(s);
    assert s.cache[s.list[s.phase.tail]].data == View(s)[s.list[s.phase.tail]];
    assert t.disk[t.g.start] == s.disk[s.g.start];
  }

  lemma CopyToLogAccounts(s: State)
    requires Shape(s) && Control(s) && Accounted(s) && CanCopyToLog(s)
    ensures Accounted(DoCopyToLog(s))
  {
    var t := DoCopyToLog(s);
    forall x | x in t.cache ensures BufCounted(t.phase, t.list, x, t.cache[x]) {
      assert BufCounted(s.phase, s.list, x, s.cache[x]);
    }
  }

  /** Writing the header switches what the disk recovers to, from the old base to the whole view. */
  lemma CommitHeadStores(s: State)
    requires Inv(s) && CanCommitHead(s)
    ensures Stored(DoCommitHead(s))
  {
    hide Unused, Atomic, Counted, PinnedCached, DirtyHeld;
    var t := DoCommitHead(s);
    HeaderRoundTrip(s.cache[s.g.start].data, s.list);
    forall b: nat | Home(t.g, b) && b !in s.list ensures t.base[b] == t.disk[b] {
      ApplyElsewhere(s.base, s.cur, b);
    }
  }

  /** The committed operations stay apart from those committed before, and have all ended. */
  lemma CommitHeadOps(s: State)
    requires Control(s) && Atomic(s) && CanCommitHead(s)
    ensures Atomic(DoCommitHead(s))
  {
    var t := DoCommitHead(s);
    forall i, j, x, y | 0 <= i < j < |t.txns| && 0 <= x < |t.txns[i]| && 0 <= y < |t.txns[j]|
      ensures t.txns[i][x].op != t.txns[j][y].op
    {
      assert Mentions(s.txns, s.txns[i][x].op);
    }
    forall c | Mentions(t.txns, c) ensures c in t.ended {
      var i, j :| 0 <= i < |t.txns| && 0 <= j < |t.txns[i]| && t.txns[i][j].op == c;
      if i < |s.txns| {
        assert s.txns[i][j].op == c;
      }
    }
  }

  lemma CommitHeadAccounts(s: State)
    requires Inv(s) && CanCommitHead(s)
    ensures Accounted(DoCommitHead(s))
  {
    var t := DoCommitHead(s);
    assert s.list[0..] == s.list;
    forall x | x in t.cache ensures BufCounted(t.phase, t.list, x, t.cache[x]) {
      assert BufCounted(s.phase, s.list, x, s.cache[x]);
    }
    CommitHeadOps(s);
  }

  /** Installing an entry, for the first time or again, does not change what the disk recovers to. */
  lemma InstallIsIdempotent(g: Geometry, l: seq<nat>, disk: seq<Block>, v: seq<Block>, i: nat)
    requires g.start + LOGBLOCKS < g.size == |disk| == |v| && ListOk(g, l) && i < |l|
    requires Replayed(g, l, disk, v)
    ensures Replayed(g, l, disk[l[i] := disk[g.start + 1 + i]], v)
    ensures disk[g.start + 1 + i] == v[l[i]]
  {
  }

  /** Copying a block home through its buffer leaves the cache coherent. */
  lemma HomeWriteCache(g: Geometry, disk: seq<Block>, v: seq<Block>, recovery: bool, cache: map<nat, Buf>, b: nat,
                       f: Buf)
    requires g.size == |disk| == |v| && CacheOk(g, disk, v, recovery, cache) && b < g.size && Home(g, b)
             && (!recovery ==> v[b] == f.data)
    ensures CacheOk(g, disk[b := f.data], v, recovery, cache[b := f])
  {
  }

  /** One more entry installed, and the header block untouched. */
  lemma InstallOne(g: Geometry, l: seq<nat>, disk: seq<Block>, v: seq<Block>, i: nat)
    requires g.start + LOGBLOCKS < g.size == |disk| == |v| && ListOk(g, l) && i < |l|
    requires Replayed(g, l, disk, v) && InstalledUpTo(g, l, disk, v, i)
    ensures var d := disk[l[i] := disk[g.start + 1 + i]];
            Replayed(g, l, d, v) && InstalledUpTo(g, l, d, v, i + 1) && d[g.start] == disk[g.start]
  {
    InstallIsIdempotent(g, l, disk, v, i);
  }

  /** The data in the log block's buffer are those of the log block on the disk. */
  lemma LogBlockRead(s: State)
    requires Shape(s) && Coherent(s) && CanCopyHome(s) && |s.list| <= LOGBLOCKS
    ensures var i := s.phase.tail;
            s.cache[s.g.start + 1 + i].data == s.disk[s.g.start + 1 + i] && Home(s.g, s.list[i]) && s.list[i] < s.g.size
  {
  }

  lemma CopyHomeDurable(s: State)
    requires Stored(s) && CanCopyHome(s)
    ensures var t := DoCopyHome(s); Shape(t) && Control(t) && Reserved(t) && Durable(t) && Progress(t)
  {
    hide CacheOk, Unused, Replayed, InstalledUpTo, LoggedUpTo;
    LogBlockRead(s);
    InstallOne(s.g, s.list, s.disk, s.base, s.phase.tail);
  }

  lemma CopyHomeStores(s: State)
    requires Stored(s) && CanCopyHome(s)
    ensures Stored(DoCopyHome(s))
  {
    hide CacheOk, Unused, Replayed, InstalledUpTo, LoggedUpTo;
    var t := DoCopyHome(s);
    var i := s.phase.tail;
    CopyHomeDurable(s);
    LogBlockRead(s);
    assert View(t) == View(s) == s.base;
    InstallIsIdempotent(s.g, s.list, s.disk, s.base, i);
    HomeWriteCache(s.g, s.disk, s.base, InRecovery(s.phase), s.cache, s.list[i], t.cache[s.list[i]]);
  }

  lemma SuffixMember(l: seq<nat>, i: nat, x: nat)
    requires Distinct(l) && i < |l|
    ensures x in l[i + 1..] <==> x in l[i..] && x != l[i]
  {
    assert l[i..] == [l[i]] + l[i + 1..];
  }

  lemma InstallAccounts(s: State)
    requires Shape(s) && Control(s) && Accounted(s) && CanCopyHome(s) && s.phase.Installing?
    ensures Accounted(DoCopyHome(s))
  {
    var t := DoCopyHome(s);
    var i := s.phase.tail;
    forall x | x in t.cache ensures BufCounted(t.phase, t.list, x, t.cache[x]) {
      assert BufCounted(s.phase, s.list, x, s.cache[x]);
      SuffixMember(s.list, i, x);
    }
    forall j | 0 <= j < |t.list| && Pinned(t.phase, t.list, t.list[j])
      ensures t.list[j] in t.cache && t.cache[t.list[j]].valid
    {
      SuffixMember(s.list, i, s.list[j]);
    }
  }

  lemma RecoverAccounts(s: State)
    requires Shape(s) && Control(s) && Accounted(s) && CanCopyHome(s) && s.phase.Recovering?
    ensures Accounted(DoCopyHome(s))
  {
    var t := DoCopyHome(s);
    forall x | x in t.cache ensures BufCounted(t.phase, t.list, x, t.cache[x]) {
      assert BufCounted(s.phase, s.list, x, s.cache[x]);
    }
  }

  lemma ClearHeadKeeps(s: State)
    requires Inv(s) && CanClearHead(s)
    ensures Inv(DoClearHead(s))
  {
    HeaderRoundTrip(s.cache[s.g.start].data, []);
  }

  lemma FinishKeeps(s: State)
    requires Inv(s) && CanFinish(s)
    ensures Inv(DoFinish(s))
  {
  }

  lemma CrashKeeps(s: State)
    requires Inv(s)
    ensures Inv(DoCrash(s))
  {
  }

  lemma ReadHeadKeeps(s: State)
    requires Inv(s) && CanReadHead(s)
    ensures Inv(DoReadHead(s))
  {
  }

  /** Every step, a crash included, keeps the invariant. */
  lemma StepKeeps(s: State, a: Action)
    requires Inv(s) && Enabled(s, a)
    ensures Inv(Next(s, a))
  {
    hide Accounted, Shape, Control, Reserved, Durable, Progress, Coherent, EncodeHeader, View, Drop, FindOp;
    match a
    case Get(c, b, recycle, victim) =>
      if b in s.cache {
        GetHitKeeps(s, c, b, recycle, victim);
      } else if recycle {
        RecycleKeeps(s, c, b, victim);
      } else {
        GetFreshStores(s, c, b, victim);
        GetFreshAccounts(s, c, b, victim);
      }
    case Lock(c, b) => LockKeeps(s, c, b);
    case Fill(c, b) => FillStores(s, c, b); FillAccounts(s, c, b);
    case Release(c, b) => ReleaseKeeps(s, c, b);
    case Begin(c) => BeginStores(s, c); BeginAccounts(s, c);
    case Modify(c, b, data) => ModifyStores(s, c, b, data); ModifyAccounts(s, c, b, data);
    case LogWrite(c, b) =>
      if b in s.list {
        AbsorbKeeps(s, c, b);
      } else {
        AppendStores(s, c, b);
        AppendAccounts(s, c, b);
      }
    case End(c) => EndStores(s, c); EndAccounts(s, c);
    case CopyToLog => CopyToLogStores(s); CopyToLogAccounts(s);
    case CommitHead => CommitHeadStores(s); CommitHeadAccounts(s);
    case CopyHome =>
      if s.phase.Installing? {
        CopyHomeStores(s);
        InstallAccounts(s);
      } else {
        CopyHomeStores(s);
        RecoverAccounts(s);
      }
    case ClearHead => ClearHeadKeeps(s);
    case Finish => FinishKeeps(s);
    case Crash => CrashKeeps(s);
    case ReadHead => ReadHeadKeeps(s);
  }
}
