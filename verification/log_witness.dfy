/** Two runs in which three operations fill their reservations. In one of them one operation logs one of its
    blocks again, and log_write panics although the block is already in the log (kernel/log.c:221). In the
    other all three end, and the commit finds no buffer for its first log block (kernel/bio.c:88). */
module LogWitness {
  import opened Param
  import opened LogModel
  import opened LogSafety
  import opened LogTheorems
  import opened LogProgress

  const SMALL: Geometry := Geometry(61, 0)

  function Zero(): (b: Block) {
    seq(BLOCKWORDS, i => 0)
  }

  function Disk(): (d: seq<Block>) {
    seq(61, i => Zero())
  }

  /** The home block that is logged as entry `k`, and the operation that logs it. */
  function HomeOf(k: nat): (b: nat) {
    31 + k
  }

  function OpOf(k: nat): (c: Client) {
    Operation(k / 10)
  }

  function Used(n: nat, j: nat): (u: nat) {
    if n <= 10 * j then 0 else if n <= 10 * j + 10 then n - 10 * j else 10
  }

  function Ops(n: nat): (ops: seq<Op>) {
    [Op(Operation(0), Used(n, 0)), Op(Operation(1), Used(n, 1)), Op(Operation(2), Used(n, 2))]
  }

  /** A logged block between uses is pinned and free. */
  function PinnedBuf(): (f: Buf) {
    Buf(Zero(), true, 1, {}, Free)
  }

  /** The header's buffer makes way for the last of the thirty blocks. */
  function Cache(n: nat): (c: map<nat, Buf>)
    requires n <= 30
    ensures |c| <= n + 1 && (forall b :: b in c ==> b == 0 || 31 <= b < 31 + n)
    ensures n < 30 ==> 0 in c && c[0] == Buf(Zero(), true, 0, {}, Free)
    ensures forall b :: 31 <= b < 31 + n ==> b in c && c[b] == PinnedBuf()
  {
    if n == 0 then map[0 := Buf(Zero(), true, 0, {}, Free)]
    else if n < 30 then Cache(n - 1)[HomeOf(n - 1) := PinnedBuf()]
    else (Cache(n - 1) - {0})[HomeOf(n - 1) := PinnedBuf()]
  }

  function Start(): (s: State) {
    State(SMALL, Disk(), map[], [], 0, false, Boot, false, [], {}, [], [], Disk(), {}, {})
  }

  /** Three operations are executing and have logged `n` blocks between them. */
  function Logged(n: nat): (s: State)
    requires n <= 30
  {
    State(SMALL, Disk(), Cache(n), seq(n, k requires 0 <= k => HomeOf(k)), 3, false, Running, false, Ops(n), {},
          seq(n, k requires 0 <= k => Update(OpOf(k), HomeOf(k), Zero())), [], Disk(),
          {Operation(0), Operation(1), Operation(2)}, {})
  }

  lemma StartsFresh()
    ensures Init(Start())
  {
    assert HeaderList(Disk()[0]) == [];
  }

  predicate StepsTo(s: State, a: Action, t: State) {
    Enabled(s, a) && Next(s, a) == t
  }

  lemma LeadsNowhere(s: State)
    ensures Leads(s, [], s)
  {
  }

  lemma {:induction false} LeadsOn(s: State, acts: seq<Action>, t: State, a: Action, u: State)
    requires Leads(s, acts, t) && StepsTo(t, a, u)
    ensures Leads(s, acts + [a], u)
    decreases |acts|
  {
    if acts == [] {
      LeadsNowhere(u);
      assert [a][1..] == [] && acts + [a] == [a];
    } else {
      LeadsOn(Next(s, acts[0]), acts[1..], t, a, u);
      assert (acts + [a])[1..] == acts[1..] + [a];
    }
  }

  lemma OpsAt(n: nat, k: nat)
    requires k < 30
    ensures Active(Ops(n), OpOf(k)) && FindOp(Ops(n), OpOf(k)) == k / 10
  {
    var ops := Ops(n);
    assert ops[k / 10].client == OpOf(k);
    assert ops[..2][..1] == ops[..1];
    if k / 10 < 2 {
      assert Active(ops[..2], OpOf(k)) by {
        assert ops[..2][k / 10].client == OpOf(k);
      }
      if k / 10 < 1 {
        assert Active(ops[..1], OpOf(k)) by {
          assert ops[..1][0].client == OpOf(k);
        }
      }
    }
  }

  // ----- recovery from the empty log, and three begin_op

  function Fetching(valid: bool, lock: LogModel.Lock): (s: State) {
    Start().(cache := map[0 := Buf(Zero(), valid, 1, {Committer}, lock)])
  }

  function Recovering(p: Phase): (s: State) {
    Fetching(true, HeldBy(Committer)).(phase := p)
  }

  lemma FetchSteps()
    ensures StepsTo(Start(), Get(Committer, 0, false, 0), Fetching(false, Free))
    ensures StepsTo(Fetching(false, Free), Lock(Committer, 0), Fetching(false, HeldBy(Committer)))
    ensures StepsTo(Fetching(false, HeldBy(Committer)), Fill(Committer, 0), Recovering(Boot))
  {
  }

  lemma ReadHeadStep()
    ensures StepsTo(Recovering(Boot), ReadHead, Recovering(Phase.Recovering(0)))
  {
    assert HeaderList(Zero()) == [];
  }

  lemma ClearHeadStep()
    ensures StepsTo(Recovering(Phase.Recovering(0)), ClearHead, Recovering(Running))
  {
    assert EncodeHeader(Zero(), []) == Zero() && Disk()[0 := Zero()] == Disk();
  }

  lemma ReleaseHeadStep()
    ensures StepsTo(Recovering(Running), Release(Committer, 0), Begun(0))
  {
    hide Zero, Disk;
    var f := Buf(Zero(), true, 1, {Committer}, HeldBy(Committer));
    assert f.users - {Committer} == {};
    assert map[0 := f][0 := Buf(Zero(), true, 0, {}, Free)] == Cache(0);
    assert Ops(0)[..0] == [];
  }

  function Clients(j: nat): (s: set<Client>)
    ensures forall k: nat :: Operation(k) in s <==> k < j
  {
    if j == 0 then {} else Clients(j - 1) + {Operation(j - 1)}
  }

  /** After recovery, with this many operations executing. */
  function Begun(j: nat): (s: State)
    requires j <= 3
  {
    Start().(cache := Cache(0), phase := Running, outstanding := j, ops := Ops(0)[..j],
             began := Clients(j))
  }

  lemma BeginStep(j: nat)
    requires j < 3
    ensures StepsTo(Begun(j), Begin(Operation(j)), Begun(j + 1))
  {
    hide Zero, Disk, Cache;
    assert Ops(0)[..j] + [Ops(0)[j]] == Ops(0)[..j + 1];
  }

  lemma AllBegun()
    ensures Begun(3) == Logged(0)
  {
    assert Ops(0)[..3] == Ops(0);
    assert Clients(2) == Clients(1) + {Operation(1)} && Clients(1) == Clients(0) + {Operation(0)};
  }

  lemma Boots() returns (acts: seq<Action>)
    ensures Leads(Start(), acts, Logged(0))
  {
    hide Leads, StepsTo;
    FetchSteps();
    ReadHeadStep();
    ClearHeadStep();
    ReleaseHeadStep();
    var s := Start();
    acts := [];
    LeadsNowhere(s);
    LeadsOn(s, acts, s, Get(Committer, 0, false, 0), Fetching(false, Free));
    acts := acts + [Get(Committer, 0, false, 0)];
    LeadsOn(s, acts, Fetching(false, Free), Lock(Committer, 0), Fetching(false, HeldBy(Committer)));
    acts := acts + [Lock(Committer, 0)];
    LeadsOn(s, acts, Fetching(false, HeldBy(Committer)), Fill(Committer, 0), Recovering(Boot));
    acts := acts + [Fill(Committer, 0)];
    LeadsOn(s, acts, Recovering(Boot), ReadHead, Recovering(Phase.Recovering(0)));
    acts := acts + [ReadHead];
    LeadsOn(s, acts, Recovering(Phase.Recovering(0)), ClearHead, Recovering(Running));
    acts := acts + [ClearHead];
    LeadsOn(s, acts, Recovering(Running), Release(Committer, 0), Begun(0));
    acts := acts + [Release(Committer, 0)];
    for j := 0 to 3
      invariant Leads(s, acts, Begun(j))
    {
      BeginStep(j);
      LeadsOn(s, acts, Begun(j), Begin(Operation(j)), Begun(j + 1));
      acts := acts + [Begin(Operation(j))];
    }
    AllBegun();
  }

  // ----- one more block: bread, modify, log_write, brelse

  function Kept(n: nat): (c: map<nat, Buf>)
    requires n < 30
  {
    if n == 29 then Cache(n) - {0} else Cache(n)
  }

  function Bringing(n: nat, valid: bool, refcnt: nat, lock: LogModel.Lock): (s: State)
    requires n < 30
  {
    Logged(n).(cache := Kept(n)[HomeOf(n) := Buf(Zero(), valid, refcnt, {OpOf(n)}, lock)])
  }

  function Changed(n: nat): (s: State)
    requires n < 30
  {
    Bringing(n, true, 1, HeldBy(OpOf(n))).(dirty := {HomeOf(n)}, cur := Logged(n + 1).cur)
  }

  function Noted(n: nat): (s: State)
    requires n < 30
  {
    Bringing(n, true, 2, HeldBy(OpOf(n))).(cur := Logged(n + 1).cur, list := Logged(n + 1).list, ops := Ops(n + 1))
  }

  lemma GetStep(n: nat)
    requires n < 30
    ensures StepsTo(Logged(n), Get(OpOf(n), HomeOf(n), n == 29, 0), Bringing(n, false, 1, Free))
  {
    hide Ops, Cache, Active;
    assert HomeOf(n) !in Cache(n);
  }

  lemma LockStep(n: nat)
    requires n < 30
    ensures StepsTo(Bringing(n, false, 1, Free), Lock(OpOf(n), HomeOf(n)), Bringing(n, false, 1, HeldBy(OpOf(n))))
  {
    hide Zero, Ops, Cache, Kept;
  }

  lemma FillStep(n: nat)
    requires n < 30
    ensures StepsTo(Bringing(n, false, 1, HeldBy(OpOf(n))), Fill(OpOf(n), HomeOf(n)),
                    Bringing(n, true, 1, HeldBy(OpOf(n))))
  {
    hide Zero, Ops, Cache, Kept;
  }

  lemma ChangeStep(n: nat)
    requires n < 30
    ensures StepsTo(Bringing(n, true, 1, HeldBy(OpOf(n))), Modify(OpOf(n), HomeOf(n), Zero()), Changed(n))
  {
    hide Zero, Ops, FindOp, Active, Cache;
    OpsAt(n, n);
    assert Logged(n).cur + [Update(OpOf(n), HomeOf(n), Zero())] == Logged(n + 1).cur;
  }

  lemma UsedNext(n: nat)
    requires n < 30
    ensures Ops(n)[n / 10].used < 10 && Ops(n)[n / 10 := Ops(n)[n / 10].(used := Ops(n)[n / 10].used + 1)] == Ops(n + 1)
  {
  }

  lemma NoteStep(n: nat)
    requires n < 30
    ensures StepsTo(Changed(n), LogWrite(OpOf(n), HomeOf(n)), Noted(n))
  {
    hide Zero, Ops, FindOp, Active, Cache, View, EncodeHeader, Drop;
    OpsAt(n, n);
    UsedNext(n);
    assert HomeOf(n) !in Logged(n).list;
    assert Logged(n).list + [HomeOf(n)] == Logged(n + 1).list;
    assert Noted(n).cache == Changed(n).cache[HomeOf(n) := Buf(Zero(), true, 2, {OpOf(n)}, HeldBy(OpOf(n)))];
  }

  lemma CacheNext(n: nat)
    requires n < 30
    ensures Cache(n + 1) == Kept(n)[HomeOf(n) := PinnedBuf()]
  {
  }

  lemma LetGoStep(n: nat)
    requires n < 30
    ensures StepsTo(Noted(n), Release(OpOf(n), HomeOf(n)), Logged(n + 1))
  {
    hide Zero, Ops, Cache, Kept;
    CacheNext(n);
    assert {OpOf(n)} - {OpOf(n)} == {};
    assert Noted(n).cache[HomeOf(n) := PinnedBuf()] == Kept(n)[HomeOf(n) := PinnedBuf()];
  }

  lemma LogsOne(n: nat, acts: seq<Action>) returns (more: seq<Action>)
    requires n < 30 && Leads(Start(), acts, Logged(n))
    ensures Leads(Start(), more, Logged(n + 1))
  {
    hide *;
    var s, c, b := Start(), OpOf(n), HomeOf(n);
    GetStep(n);
    LockStep(n);
    FillStep(n);
    ChangeStep(n);
    NoteStep(n);
    LetGoStep(n);
    more := acts;
    LeadsOn(s, more, Logged(n), Get(c, b, n == 29, 0), Bringing(n, false, 1, Free));
    more := more + [Get(c, b, n == 29, 0)];
    LeadsOn(s, more, Bringing(n, false, 1, Free), Lock(c, b), Bringing(n, false, 1, HeldBy(c)));
    more := more + [Lock(c, b)];
    LeadsOn(s, more, Bringing(n, false, 1, HeldBy(c)), Fill(c, b), Bringing(n, true, 1, HeldBy(c)));
    more := more + [Fill(c, b)];
    LeadsOn(s, more, Bringing(n, true, 1, HeldBy(c)), Modify(c, b, Zero()), Changed(n));
    more := more + [Modify(c, b, Zero())];
    LeadsOn(s, more, Changed(n), LogWrite(c, b), Noted(n));
    more := more + [LogWrite(c, b)];
    LeadsOn(s, more, Noted(n), Release(c, b), Logged(n + 1));
    more := more + [Release(c, b)];
  }

  // ----- the operation that logged the first block changes it again

  function Rereading(lock: LogModel.Lock): (s: State) {
    Logged(30).(cache := Cache(30)[HomeOf(0) := Buf(Zero(), true, 2, {OpOf(0)}, lock)])
  }

  function Rechanged(): (s: State) {
    Rereading(HeldBy(OpOf(0))).(dirty := {HomeOf(0)}, cur := Logged(30).cur + [Update(OpOf(0), HomeOf(0), Zero())])
  }

  lemma RereadSteps()
    ensures StepsTo(Logged(30), Get(OpOf(0), HomeOf(0), false, 0), Rereading(Free))
    ensures StepsTo(Rereading(Free), Lock(OpOf(0), HomeOf(0)), Rereading(HeldBy(OpOf(0))))
  {
    hide Zero, Ops, Cache;
    assert HomeOf(0) in Cache(30) && Cache(30)[HomeOf(0)] == PinnedBuf();
    assert {} + {OpOf(0)} == {OpOf(0)};
  }

  lemma RechangeStep()
    ensures StepsTo(Rereading(HeldBy(OpOf(0))), Modify(OpOf(0), HomeOf(0), Zero()), Rechanged())
  {
    hide Zero, Ops, FindOp, Active, Cache;
    OpsAt(30, 0);
    assert Rechanged().cache
           == Rereading(HeldBy(OpOf(0))).cache[HomeOf(0) := Buf(Zero(), true, 2, {OpOf(0)}, HeldBy(OpOf(0)))];
  }

  lemma PanicStep()
    ensures Enabled(Rechanged(), LogWrite(OpOf(0), HomeOf(0))) && !Rechanged().panicked
    ensures HomeOf(0) in Rechanged().list && Next(Rechanged(), LogWrite(OpOf(0), HomeOf(0))).panicked
  {
    hide Zero, Ops, FindOp, Active, Cache;
    OpsAt(30, 0);
    assert Rechanged().list[0] == HomeOf(0);
  }

  /** The panic is reachable by operations that keep to their reservations: log_write meets a full log with
      a block that it would have absorbed. */
  lemma {:induction false} AbsorbedWriteCanPanic() returns (s: State, acts: seq<Action>, t: State, a: Action)
    ensures Init(s) && Leads(s, acts, t) && Enabled(t, a) && !t.panicked
    ensures a.LogWrite? && a.b in t.list && Next(t, a).panicked
  {
    hide Leads, StepsTo, Init, Enabled, Cache;
    s := Start();
    StartsFresh();
    acts := FillsLog();
    var c, b := OpOf(0), HomeOf(0);
    RereadSteps();
    RechangeStep();
    LeadsOn(s, acts, Logged(30), Get(c, b, false, 0), Rereading(Free));
    acts := acts + [Get(c, b, false, 0)];
    LeadsOn(s, acts, Rereading(Free), Lock(c, b), Rereading(HeldBy(c)));
    acts := acts + [Lock(c, b)];
    LeadsOn(s, acts, Rereading(HeldBy(c)), Modify(c, b, Zero()), Rechanged());
    acts := acts + [Modify(c, b, Zero())];
    t, a := Rechanged(), LogWrite(c, b);
    PanicStep();
  }

  /** The thirty blocks are logged. */
  lemma FillsLog() returns (acts: seq<Action>)
    ensures Leads(Start(), acts, Logged(30))
  {
    hide Leads, StepsTo, Init, Enabled, Cache;
    acts := Boots();
    for n := 0 to 30
      invariant Leads(Start(), acts, Logged(n))
    {
      acts := LogsOne(n, acts);
    }
  }

  // ----- all three operations end

  function Ending(k: nat): (s: State)
    requires k <= 3
  {
    Logged(30).(outstanding := 3 - k, ops := Ops(30)[k..], ended := set j | 0 <= j < k :: Operation(j),
                committing := k == 3, phase := if k == 3 then WritingLog(0) else Running)
  }

  lemma FirstOp(k: nat)
    requires k < 3
    ensures Active(Ops(30)[k..], Operation(k)) && FindOp(Ops(30)[k..], Operation(k)) == 0
    ensures Drop(Ops(30)[k..], 0) == Ops(30)[k + 1..]
  {
    var ops := Ops(30)[k..];
    assert ops[0].client == Operation(k);
  }

  lemma EndStep(k: nat)
    requires k < 3
    ensures StepsTo(Ending(k), End(Operation(k)), Ending(k + 1))
  {
    hide Zero, Ops, FindOp, Active, Cache, Drop;
    FirstOp(k);
    assert Ending(k + 1).ended == Ending(k).ended + {Operation(k)};
  }

  lemma NobodyEnded()
    ensures Ending(0) == Logged(30)
  {
    hide Zero, Cache;
    assert Ops(30)[0..] == Ops(30);
  }

  lemma {:induction false} CacheFull(n: nat)
    requires n <= 30
    ensures |Cache(n)| == if n < 30 then n + 1 else 30
  {
    hide Zero, PinnedBuf;
    if n > 0 {
      CacheFull(n - 1);
      if n < 30 {
        OneMoreKey(Cache(n - 1), HomeOf(n - 1), PinnedBuf());
      } else {
        OneKeyForAnother(Cache(n - 1), 0, HomeOf(n - 1), PinnedBuf());
      }
    }
  }

  lemma OneMoreKey(c: map<nat, Buf>, b: nat, f: Buf)
    requires b !in c
    ensures |c[b := f]| == |c| + 1
  {
    assert c[b := f].Keys == c.Keys + {b};
  }

  lemma OneKeyForAnother(c: map<nat, Buf>, v: nat, b: nat, f: Buf)
    requires v in c && b !in c
    ensures |(c - {v})[b := f]| == |c|
  {
    assert c.Keys == (c - {v}).Keys + {v};
    OneMoreKey(c - {v}, b, f);
  }

  lemma NoneForLogBlock()
    ensures NoBuffer(Ending(3).cache) && 1 !in Ending(3).cache
    ensures forall x :: x in Ending(3).cache ==> Ending(3).cache[x].users == {}
  {
    CacheFull(30);
    hide Cache;
    assert 0 !in Cache(30) by {
      ZeroIsGone();
    }
  }

  lemma ZeroIsGone()
    ensures 0 !in Cache(30)
  {
  }

  /** However bget picks a buffer, the committing thread cannot have one for block b. */
  ghost predicate NoGet(t: State, b: nat) {
    forall recycle, victim :: !Enabled(t, Get(Committer, b, recycle, victim))
  }

  /** A full log cannot be committed. Operations that keep to their reservations fill the log and end; nobody
      uses a buffer any more; all buffers are pinned by the log, so bget finds none for the first log block. */
  lemma {:induction false} FullLogCannotCommit() returns (s: State, acts: seq<Action>, t: State)
    ensures Init(s) && Leads(s, acts, t) && !t.panicked && t.phase == WritingLog(0) && |t.list| == LOGBLOCKS
    ensures t.ops == [] && forall x :: x in t.cache ==> t.cache[x].users == {}
    ensures NoGet(t, t.g.start + 1)
  {
    hide Leads, StepsTo, Init, Cache, NoBuffer, NoGet;
    s := Start();
    StartsFresh();
    acts := FillsLog();
    NobodyEnded();
    for k := 0 to 3
      invariant Leads(s, acts, Ending(k))
    {
      EndStep(k);
      LeadsOn(s, acts, Ending(k), End(Operation(k)), Ending(k + 1));
      acts := acts + [End(Operation(k))];
    }
    t := Ending(3);
    NoneForLogBlock();
    NoBufferNoGet(t, 1);
  }

  lemma NoBufferNoGet(t: State, b: nat)
    requires NoBuffer(t.cache) && b !in t.cache
    ensures NoGet(t, b)
  {
  }
}
