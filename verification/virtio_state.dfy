/** The driver, the device and their shared memory as one value, and what each of their steps does to it. */
module VirtioState {
  import opened VirtioDisk

  /** `pending` is idx[0] of the thread inside virtio_disk_rw's critical section and `placed` says whether it
      is stored in the avail ring yet; `devPending` is what the device has stored in the used ring but not
      published; -1 is none. The last five only record. */
  datatype Snap = Snap(desc: seq<Desc>, avail: seq<int>, availIdx: int, used: seq<int>, usedIdx: int, info: seq<Info>,
                       ops: seq<Op>, bufs: seq<Buf>,
                       free: seq<bool>, seenIdx: int, devIdx: int, flight: set<int>, moved: set<int>, devPending: int,
                       blocks: seq<Content>,
                       pending: int, placed: bool,
                       owner: seq<int>, reqs: map<int, Request>, waiting: seq<int>, answered: seq<int>, hist: Hist)

  /** The memory of the driver and the device. */
  datatype Mem = Mem(desc: seq<Desc>, avail: seq<int>, availIdx: int, used: seq<int>, usedIdx: int, info: seq<Info>,
                     ops: seq<Op>, bufs: seq<Buf>,
                     free: seq<bool>, seenIdx: int, devIdx: int, flight: set<int>, moved: set<int>, devPending: int,
                     blocks: seq<Content>,
                     pending: int, placed: bool)

  /** What only records: who has each descriptor, all requests, the unread entries of both rings, history. */
  datatype Book = Book(owner: seq<int>, reqs: map<int, Request>, waiting: seq<int>, answered: seq<int>, hist: Hist)

  function Of(m: Mem, k: Book): (s: Snap) {
    Snap(m.desc, m.avail, m.availIdx, m.used, m.usedIdx, m.info, m.ops, m.bufs, m.free, m.seenIdx, m.devIdx, m.flight,
         m.moved, m.devPending, m.blocks,
         m.pending, m.placed, k.owner, k.reqs, k.waiting, k.answered, k.hist)
  }

  ghost predicate Chains(s: Snap) {
    ChainsOk(s.free, s.desc, s.info, s.ops, s.owner, s.bufs, s.reqs)
  }

  /** What is about to be published is stored where the index points. */
  ghost predicate Pendings(s: Snap)
    requires |s.avail| == |s.used| == NUM
  {
    && (s.pending != -1 ==> s.pending in s.reqs && s.reqs[s.pending].stage == (if s.placed then Placed else Made))
    && (s.pending != -1 && s.placed ==> s.avail[s.availIdx % 8] == s.pending)
    && (s.devPending != -1 ==> s.devPending in s.reqs && s.used[s.usedIdx % 8] == s.devPending)
  }

  ghost predicate Rings(s: Snap) {
    && RingOk(s.avail, s.devIdx, s.availIdx, s.waiting) && RingOk(s.used, s.seenIdx, s.usedIdx, s.answered)
    && Stages(s.reqs, s.waiting, s.answered, s.flight, s.moved, s.pending, s.devPending)
    && Pendings(s)
  }

  ghost predicate SnapOk(s: Snap) {
    && Chains(s) && Rings(s) && BufsOk(s.bufs, s.info, s.reqs)
    && BlocksOk(s.bufs, s.blocks) && NoneHeld(s.owner) && HistOk(s.hist, s.reqs)
  }

  lemma SnapParts(s: Snap)
    requires SnapOk(s)
    ensures |s.avail| == |s.used| == |s.desc| == |s.info| == |s.ops| == |s.owner| == |s.free| == NUM
    ensures 0 <= s.availIdx < 65536 && 0 <= s.usedIdx < 65536 && 0 <= s.devIdx < 65536 && 0 <= s.seenIdx < 65536
    ensures (s.devIdx == s.availIdx <==> s.waiting == []) && (s.seenIdx == s.usedIdx <==> s.answered == [])
    ensures forall k :: k in s.reqs ==> 0 <= k < NUM
    ensures s.pending != -1 ==> s.pending in s.reqs && s.reqs[s.pending].stage == (if s.placed then Placed else Made)
    ensures s.devPending != -1 ==> s.devPending in s.reqs && s.reqs[s.devPending].stage == Stored
    ensures forall h :: h in s.flight ==> h in s.reqs && s.reqs[h].stage == Taken
    ensures forall h :: h in s.moved ==> h in s.reqs && s.reqs[h].stage == Moved
  {
    hide BufsOk, BlocksOk, HistOk, NoneHeld, ListsStage, ChainOk;
    EmptyTest(s.avail, s.devIdx, s.availIdx, s.waiting);
    EmptyTest(s.used, s.seenIdx, s.usedIdx, s.answered);
    HeadsInRange(s.free, s.desc, s.info, s.ops, s.owner, s.bufs, s.reqs);
  }

  // ----- the driver publishes

  function AfterStoreAvail(s: Snap): (r: Snap)
    requires |s.avail| == NUM && s.pending in s.reqs
  {
    s.(avail := s.avail[s.availIdx % 8 := s.pending], placed := true, reqs := Staged(s.reqs, s.pending, Placed))
  }

  lemma StoreAvailKeeps(s: Snap)
    requires SnapOk(s) && s.pending != -1 && !s.placed
    ensures |s.avail| == NUM && s.pending in s.reqs && SnapOk(AfterStoreAvail(s))
  {
    hide ChainsOk, BufsOk, RingOk, Stages, HistOk, BlocksOk, NoneHeld, CarriedOut;
    SnapParts(s);
    var h := s.pending;
    PlacedStages(s.reqs, s.waiting, s.answered, s.flight, s.moved, s.devPending, h);
    QueueHasRoom(s.reqs, s.waiting, s.answered, s.flight, s.moved, h, s.devPending, h);
    StoreKeeps(s.avail, s.devIdx, s.availIdx, s.waiting, h);
    NotCarriedOut(s.reqs[h].stage);
    StageKeeps(s.free, s.desc, s.info, s.ops, s.owner, s.bufs, s.reqs, h, Placed);
    HistStage(s.hist, s.reqs, h, s.reqs[h].(stage := Placed));
  }

  function AfterPublishAvail(s: Snap): (r: Snap)
    requires s.pending in s.reqs
  {
    s.(availIdx := (s.availIdx + 1) % 65536, reqs := Staged(s.reqs, s.pending, Queued),
       waiting := s.waiting + [s.pending], pending := -1)
  }

  lemma PublishAvailKeeps(s: Snap)
    requires SnapOk(s) && s.pending != -1 && s.placed
    ensures s.pending in s.reqs && SnapOk(AfterPublishAvail(s))
  {
    hide ChainsOk, BufsOk, RingOk, Stages, HistOk, BlocksOk, NoneHeld;
    SnapParts(s);
    var h := s.pending;
    QueuedStages(s.reqs, s.waiting, s.answered, s.flight, s.moved, s.devPending, h);
    PlacedStages(s.reqs, s.waiting, s.answered, s.flight, s.moved, s.devPending, h);
    QueueHasRoom(s.reqs, s.waiting, s.answered, s.flight, s.moved, h, s.devPending, h);
    PublishKeeps(s.avail, s.devIdx, s.availIdx, s.waiting);
    StageKeeps(s.free, s.desc, s.info, s.ops, s.owner, s.bufs, s.reqs, h, Queued);
    HistStage(s.hist, s.reqs, h, s.reqs[h].(stage := Queued));
  }

  // ----- the device

  function AfterFetch(s: Snap): (r: Snap)
    requires s.waiting != [] && s.waiting[0] in s.reqs
  {
    var h := s.waiting[0];
    s.(devIdx := (s.devIdx + 1) % 65536, flight := s.flight + {h}, reqs := Staged(s.reqs, h, Taken),
       waiting := s.waiting[1..])
  }

  lemma FetchKeeps(s: Snap)
    requires SnapOk(s) && s.waiting != []
    ensures |s.avail| == NUM && s.avail[s.devIdx % 8] == s.waiting[0] && s.waiting[0] in s.reqs
            && s.reqs[s.waiting[0]].stage == Queued && SnapOk(AfterFetch(s))
  {
    hide ChainsOk, BufsOk, RingOk, Stages, HistOk, BlocksOk, NoneHeld;
    SnapParts(s);
    var h := s.waiting[0];
    PopKeeps(s.avail, s.devIdx, s.availIdx, s.waiting);
    TakenStages(s.reqs, s.waiting, s.answered, s.flight, s.moved, s.pending, s.devPending);
    StageKeeps(s.free, s.desc, s.info, s.ops, s.owner, s.bufs, s.reqs, h, Taken);
    HistStage(s.hist, s.reqs, h, s.reqs[h].(stage := Taken));
  }

  /** What a request moves: the buffer's data to the disk, or the block's to the buffer. */
  function Value(s: Snap, r: Request): (v: Content)
    requires 0 <= r.b < |s.bufs| && 0 <= s.bufs[r.b].block < |s.blocks|
  {
    if r.write then s.bufs[r.b].data else s.blocks[s.bufs[r.b].block]
  }

  function AfterCarryOut(s: Snap, h: int, ok: bool): (r: Snap)
    requires h in s.reqs && 0 <= h < |s.info| && 0 <= s.reqs[h].b < |s.bufs|
             && 0 <= s.bufs[s.reqs[h].b].block < |s.blocks|
  {
    var r := s.reqs[h];
    var x := s.bufs[r.b].block;
    s.(info := s.info[h := s.info[h].(status := if ok then 0 else 1)],
       blocks := if ok && r.write then s.blocks[x := s.bufs[r.b].data] else s.blocks,
       bufs := if ok && !r.write then s.bufs[r.b := s.bufs[r.b].(data := s.blocks[x])] else s.bufs,
       flight := s.flight - {h}, moved := s.moved + {h}, reqs := s.reqs[h := Carried(r, Value(s, r), !ok)])
  }

  lemma CarryOutKeeps(s: Snap, h: int, ok: bool)
    requires SnapOk(s) && h in s.flight
    ensures |s.desc| == |s.info| == |s.ops| == |s.owner| == NUM
    ensures h in s.reqs && 0 <= h < NUM && 0 <= s.reqs[h].b < |s.bufs| && 0 <= s.bufs[s.reqs[h].b].block < |s.blocks|
    ensures ChainOk(s.desc, s.info, s.ops, s.owner, s.bufs, h, s.reqs[h])
    ensures SnapOk(AfterCarryOut(s, h, ok))
  {
    hide ChainsOk, BufsOk, RingOk, Stages, HistOk, BlocksOk, NoneHeld;
    SnapParts(s);
    ChainAt(s.free, s.desc, s.info, s.ops, s.owner, s.bufs, s.reqs, h);
    BufferHasBlock(s.bufs, s.blocks, s.reqs[h].b);
    var r := s.reqs[h];
    var t := AfterCarryOut(s, h, ok);
    MovedKeeps(s.free, s.desc, s.info, s.ops, s.owner, s.bufs, s.reqs, t.info, t.bufs, h, Value(s, r), !ok);
    MovedStages(s.reqs, s.waiting, s.answered, s.flight, s.moved, s.pending, s.devPending, h, t.reqs[h]);
    HistStage(s.hist, s.reqs, h, t.reqs[h]);
    SameBlockNumbers(s.bufs, t.bufs, s.blocks, t.blocks);
  }

  lemma BufferHasBlock(bufs: seq<Buf>, blocks: seq<Content>, b: int)
    requires BlocksOk(bufs, blocks)
    ensures 0 <= b < |bufs| ==> 0 <= bufs[b].block < |blocks|
  {
  }

  lemma SameBlockNumbers(bufs: seq<Buf>, bufs': seq<Buf>, blocks: seq<Content>, blocks': seq<Content>)
    requires BlocksOk(bufs, blocks) && |bufs'| == |bufs| && |blocks'| == |blocks| && forall b ::
               0 <= b < |bufs| ==> bufs'[b].block == bufs[b].block
    ensures BlocksOk(bufs', blocks')
  {
  }

  function AfterStoreUsed(s: Snap, h: int): (r: Snap)
    requires |s.used| == NUM && h in s.reqs
  {
    s.(used := s.used[s.usedIdx % 8 := h], moved := s.moved - {h}, devPending := h, reqs := Staged(s.reqs, h, Stored))
  }

  lemma StoreUsedKeeps(s: Snap, h: int)
    requires SnapOk(s) && h in s.moved && s.devPending == -1
    ensures |s.used| == NUM && h in s.reqs && s.reqs[h].stage == Moved && SnapOk(AfterStoreUsed(s, h))
  {
    hide ChainsOk, BufsOk, RingOk, Stages, HistOk, BlocksOk, NoneHeld;
    SnapParts(s);
    StoredStages(s.reqs, s.waiting, s.answered, s.flight, s.moved, s.pending, h);
    AnswerHasRoom(s.reqs, s.waiting, s.answered, s.flight, s.moved, s.pending, s.devPending, h);
    StoreKeeps(s.used, s.seenIdx, s.usedIdx, s.answered, h);
    StageKeeps(s.free, s.desc, s.info, s.ops, s.owner, s.bufs, s.reqs, h, Stored);
    HistStage(s.hist, s.reqs, h, s.reqs[h].(stage := Stored));
  }

  function AfterPublishUsed(s: Snap): (r: Snap)
    requires s.devPending in s.reqs
  {
    s.(usedIdx := (s.usedIdx + 1) % 65536, reqs := Staged(s.reqs, s.devPending, Used),
       answered := s.answered + [s.devPending], devPending := -1)
  }

  lemma PublishUsedKeeps(s: Snap)
    requires SnapOk(s) && s.devPending != -1
    ensures s.devPending in s.reqs && SnapOk(AfterPublishUsed(s))
  {
    hide ChainsOk, BufsOk, RingOk, Stages, HistOk, BlocksOk, NoneHeld;
    SnapParts(s);
    var h := s.devPending;
    UsedStages(s.reqs, s.waiting, s.answered, s.flight, s.moved, s.pending, h);
    AnswerHasRoom(s.reqs, s.waiting, s.answered, s.flight, s.moved, s.pending, h, h);
    PublishKeeps(s.used, s.seenIdx, s.usedIdx, s.answered);
    StageKeeps(s.free, s.desc, s.info, s.ops, s.owner, s.bufs, s.reqs, h, Used);
    HistStage(s.hist, s.reqs, h, s.reqs[h].(stage := Used));
  }

  // ----- the interrupt handler

  function AfterIntr(s: Snap): (r: Snap)
    requires s.answered != [] && s.answered[0] in s.reqs && 0 <= s.reqs[s.answered[0]].b < |s.bufs|
  {
    var h := s.answered[0];
    var q := s.reqs[h];
    s.(seenIdx := (s.seenIdx + 1) % 65536, reqs := Staged(s.reqs, h, Done), answered := s.answered[1..],
       bufs := s.bufs[q.b := s.bufs[q.b].(disk := false)],
       hist := s.hist.(released := s.hist.released + [Release(q.serial, q.b)]))
  }

  lemma IntrKeeps(s: Snap)
    requires SnapOk(s) && s.answered != []
    ensures |s.used| == |s.info| == NUM && s.used[s.seenIdx % 8] == s.answered[0] && s.answered[0] in s.reqs
            && 0 <= s.answered[0] < NUM && s.reqs[s.answered[0]].stage == Used
    ensures var h := s.answered[0];
            0 <= s.reqs[h].b < |s.bufs| && s.info[h].b == s.reqs[h].b && (s.info[h].status != 0 <==> s.reqs[h].failed)
    ensures !s.reqs[s.answered[0]].failed ==> SnapOk(AfterIntr(s))
  {
    hide ChainsOk, BufsOk, RingOk, Stages, HistOk, BlocksOk, NoneHeld;
    SnapParts(s);
    var h := s.answered[0];
    PopKeeps(s.used, s.seenIdx, s.usedIdx, s.answered);
    DoneStages(s.reqs, s.waiting, s.answered, s.flight, s.moved, s.pending, s.devPending);
    ChainAt(s.free, s.desc, s.info, s.ops, s.owner, s.bufs, s.reqs, h);
    ReleasedKeeps(s.free, s.desc, s.info, s.ops, s.owner, s.bufs, s.reqs, h);
    if !s.reqs[h].failed {
      HistRelease(s.hist, s.reqs, h);
      SameBlockNumbers(s.bufs, AfterIntr(s).bufs, s.blocks, s.blocks);
    }
  }

  // ----- a process enters and leaves

  /** A formatted chain of three is a new request, for a buffer that has none. */
  lemma PrepareKeeps(s: Snap, t: Snap, h: int)
    requires SnapOk(s) && s.pending == -1 && h !in s.reqs && h >= 0 && h in t.reqs && t.reqs == s.reqs[h := t.reqs[h]]
    requires t.reqs[h].stage == Made && t.reqs[h].serial == |s.hist.submitted|
    requires t == s.(desc := t.desc, info := t.info, ops := t.ops, bufs := t.bufs, free := t.free, owner := t.owner,
                     reqs := t.reqs,
                     pending := h, placed := false, hist := s.hist.(submitted := s.hist.submitted + [t.reqs[h].b]))
    requires Chains(t) && BufsOk(t.bufs, t.info, t.reqs) && NoneHeld(t.owner)
    requires |t.bufs| == |s.bufs| && forall b :: 0 <= b < |s.bufs| ==> t.bufs[b].block == s.bufs[b].block
    ensures SnapOk(t)
  {
    hide ChainsOk, BufsOk, RingOk, Stages, HistOk, BlocksOk, NoneHeld;
    SnapParts(s);
    MadeStages(s.reqs, s.waiting, s.answered, s.flight, s.moved, s.devPending, h, t.reqs[h]);
    HistSubmit(s.hist, s.reqs, h, t.reqs[h]);
    SameBlockNumbers(s.bufs, t.bufs, s.blocks, t.blocks);
  }

  /** Before its chain is freed, a request that is done is taken off the books. */
  function Detached(s: Snap, h: int): (r: Snap)
    requires h in s.reqs && 0 <= h < |s.info| && 0 <= h < |s.owner| && 0 <= s.reqs[h].i1 < |s.owner|
             && 0 <= s.reqs[h].i2 < |s.owner|
  {
    var q := s.reqs[h];
    s.(info := s.info[h := s.info[h].(b := -1)], owner := s.owner[h := HELD][q.i1 := HELD][q.i2 := HELD],
       reqs := s.reqs - {h},
       hist := s.hist.(returned := s.hist.returned + [q.serial]))
  }

  lemma DetachKeeps(s: Snap, h: int)
    requires SnapOk(s) && h in s.reqs && s.reqs[h].stage == Done
    ensures |s.desc| == |s.info| == |s.ops| == |s.owner| == |s.free| == NUM
            && ChainOk(s.desc, s.info, s.ops, s.owner, s.bufs, h, s.reqs[h])
    ensures 0 <= s.reqs[h].b < |s.bufs| && s.bufs[s.reqs[h].b].data == s.reqs[h].value && !s.bufs[s.reqs[h].b].disk
    ensures Chains(Detached(s, h))
    ensures NoneHeld(s.owner[h := HELD][s.reqs[h].i1 := HELD][s.reqs[h].i2 := HELD][h := FREE][s.reqs[h].i1 :=
          FREE][s.reqs[h].i2 := FREE])
  {
    hide BufsOk, RingOk, Stages, HistOk, BlocksOk, NoneHeld, ChainsOk;
    ChainAt(s.free, s.desc, s.info, s.ops, s.owner, s.bufs, s.reqs, h);
    OldChain(s.free, s.desc, s.info, s.ops, s.owner, s.bufs, s.reqs, h);
    GoneBuf(s.bufs, s.info, s.reqs, h);
    HeldGivenBack(s.owner, h, s.reqs[h].i1, s.reqs[h].i2);
  }

  /** Once its chain is free again, everything is in order without the request. */
  lemma FinishKeeps(s: Snap, t: Snap, h: int)
    requires SnapOk(s) && h in s.reqs && s.reqs[h].stage == Done && 0 <= h < |s.info| && 0 <= h < |s.owner|
    requires 0 <= s.reqs[h].i1 < |s.owner| && 0 <= s.reqs[h].i2 < |s.owner|
    requires t == Detached(s, h).(free := t.free, owner := t.owner, desc := t.desc) && Chains(t) && NoneHeld(t.owner)
    ensures SnapOk(t)
  {
    hide ChainsOk, BufsOk, RingOk, Stages, HistOk, BlocksOk, NoneHeld;
    SnapParts(s);
    GoneBuf(s.bufs, s.info, s.reqs, h);
    GoneStages(s.reqs, s.waiting, s.answered, s.flight, s.moved, s.pending, s.devPending, h);
    HistReturn(s.hist, s.reqs, h);
  }
}
