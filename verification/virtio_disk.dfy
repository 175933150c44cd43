/** kernel/virtio_disk.c: the driver, its interrupt handler and the device as steps over descriptor
    chains and two rings with 16-bit indices (sections 2.6 and 5.2 of VIRTIO 1.1). */
module VirtioDisk {
  const NUM: int := 8
  const NEXT: int := 1       // VRING_DESC_F_NEXT
  const WRITE: int := 2      // VRING_DESC_F_WRITE

  type Content = seq<int>    // what a block holds

  /** What a descriptor points to: a command header, a buffer's data, or a status byte. */
  datatype Addr = Nowhere | Header(i: int) | Data(b: int) | Status(i: int)

  datatype Desc = Desc(addr: Addr, len: int, flags: int, next: int)

  datatype Info = Info(b: int, status: int)

  datatype Op = Op(kind: int, sector: int)    // kind 1 writes the disk, 0 reads it

  datatype Buf = Buf(block: int, disk: bool, data: Content)

  /** Where a request is: formatted, stored in the avail ring, published there, taken by the device, carried
      out, stored in the used ring, published there, or seen by the interrupt handler. */
  datatype Stage = Made | Placed | Queued | Taken | Moved | Stored | Used | Done

  /** A request: its buffer, direction, second and third descriptor, stage, what was transferred, whether the
      device reported an error, and which request it is of all ever made. */
  datatype Request = Request(b: int, write: bool, i1: int, i2: int, stage: Stage, value: Content, failed: bool,
                             serial: nat)

  const FREE: int := -1
  const HELD: int := -2      // taken by alloc_desc, not in a chain

  // ----- descriptors

  ghost predicate ChainOk(desc: seq<Desc>, info: seq<Info>, ops: seq<Op>, owner: seq<int>, bufs: seq<Buf>, h: int,
                          r: Request)
    requires |desc| == |info| == |ops| == |owner| == NUM
  {
    && 0 <= h < NUM && 0 <= r.i1 < NUM && 0 <= r.i2 < NUM && h != r.i1 && h != r.i2 && r.i1 != r.i2
    && owner[h] == owner[r.i1] == owner[r.i2] == h
    && 0 <= r.b < |bufs| && info[h].b == r.b && ops[h] == Op(if r.write then 1 else 0, bufs[r.b].block * 2)
    && desc[h] == Desc(Header(h), 16, NEXT, r.i1)
    && desc[r.i1] == Desc(Data(r.b), 1024, if r.write then NEXT else WRITE + NEXT, r.i2)
    && desc[r.i2] == Desc(Status(h), 1, WRITE, 0)
  }

  /** Every descriptor is free, held, or in exactly one chain of three. */
  ghost predicate ChainsOk(free: seq<bool>, desc: seq<Desc>, info: seq<Info>, ops: seq<Op>, owner: seq<int>,
                           bufs: seq<Buf>, reqs: map<int, Request>) {
    && |free| == |desc| == |info| == |ops| == |owner| == NUM
    && (forall i :: 0 <= i < NUM ==> (free[i] <==> owner[i] == FREE))
    && (forall h :: h in reqs ==> ChainOk(desc, info, ops, owner, bufs, h, reqs[h]))
    && (forall i :: 0 <= i < NUM && owner[i] >= 0 ==> owner[i] in reqs && (i == owner[i] || i == reqs[owner[i]].i1
                                                                           || i == reqs[owner[i]].i2))
    && (forall i :: 0 <= i < NUM ==> owner[i] >= HELD)
  }

  // ----- buffers

  predicate CarriedOut(stage: Stage) {
    stage == Moved || stage == Stored || stage == Used || stage == Done
  }

  /** A buffer has at most one request, and is with the disk until the answer to that has been seen. The
      status byte tells whether the buffer holds what was to be transferred. */
  ghost predicate BufOk(bufs: seq<Buf>, info: seq<Info>, h: int, r: Request) {
    && 0 <= h < |info| && 0 <= r.b < |bufs|
    && (bufs[r.b].disk <==> r.stage != Done)
    && (CarriedOut(r.stage) ==> (info[h].status != 0 <==> r.failed) && (!r.failed ==> bufs[r.b].data == r.value))
    && (r.stage == Done ==> !r.failed)
  }

  ghost predicate BufsOk(bufs: seq<Buf>, info: seq<Info>, reqs: map<int, Request>) {
    && (forall h :: h in reqs ==> BufOk(bufs, info, h, reqs[h]))
    && (forall h, k :: h in reqs && k in reqs && reqs[h].b == reqs[k].b ==> h == k)
  }

  // ----- rings: `list` holds the unread entries, from index `from` on

  ghost predicate RingOk(ring: seq<int>, from: int, to: int, list: seq<int>) {
    && |ring| == NUM && 0 <= from < 65536 && 0 <= to < 65536 && to == (from + |list|) % 65536
    && |list| <= NUM
    && (forall k :: 0 <= k < |list| ==> ring[(from + k) % 8] == list[k])
  }

  ghost predicate Distinct(s: seq<int>) {
    forall i, j :: 0 <= i < j < |s| ==> s[i] != s[j]
  }

  /** The ring's entries are exactly the requests in this stage, each once. */
  ghost predicate ListsStage(list: seq<int>, reqs: map<int, Request>, stage: Stage) {
    && Distinct(list)
    && (forall k :: 0 <= k < |list| ==> list[k] in reqs && reqs[list[k]].stage == stage)
    && (forall h :: h in reqs && reqs[h].stage == stage ==> h in list)
  }

  // ----- a 16-bit ring of 8

  lemma Wraps(from: int, k: int)
    requires 0 <= from < 65536 && 0 <= k
    ensures (from + k) % 65536 % 8 == (from + k) % 8
  {
    var x := from + k;
    assert x % 65536 == x - x / 65536 * 65536;
    assert (x - 8 * (x / 65536 * 8192)) % 8 == x % 8;
  }

  lemma NextIndex(x: int)
    requires 0 <= x
    ensures (x % 65536 + 1) % 65536 == (x + 1) % 65536
  {
  }

  /** Storing at the writer's index overwrites no unread entry of a ring that is not full, also where the
      index wraps; and it is not read yet. */
  lemma StoreKeeps(ring: seq<int>, from: int, to: int, list: seq<int>, v: int)
    requires RingOk(ring, from, to, list) && |list| < NUM
    ensures RingOk(ring[to % 8 := v], from, to, list)
  {
    Wraps(from, |list|);
    forall k | 0 <= k < |list| ensures ring[to % 8 := v][(from + k) % 8] == list[k] {
      OtherSlot(from, k, |list|);
    }
  }

  /** Advancing the index publishes what is stored there, behind the unread entries. */
  lemma PublishKeeps(ring: seq<int>, from: int, to: int, list: seq<int>)
    requires RingOk(ring, from, to, list) && |list| < NUM
    ensures RingOk(ring, from, (to + 1) % 65536, list + [ring[to % 8]])
  {
    Wraps(from, |list|);
    NextIndex(from + |list|);
  }

  lemma OtherSlot(from: int, k: int, n: int)
    requires 0 <= from && 0 <= k < n < 8
    ensures (from + k) % 8 != (from + n) % 8
  {
  }

  /** Reading an entry gives the oldest unread one. */
  lemma PopKeeps(ring: seq<int>, from: int, to: int, list: seq<int>)
    requires RingOk(ring, from, to, list) && list != []
    ensures from != to && ring[from % 8] == list[0] && RingOk(ring, (from + 1) % 65536, to, list[1..])
  {
    Wraps(from, 1);
    assert ring[(from + 0) % 8] == list[0];
    forall k | 0 <= k < |list[1..]| ensures ring[((from + 1) % 65536 + k) % 8] == list[1..][k] {
      Wraps(from, 1);
      assert ((from + 1) % 65536 + k) % 8 == (from + (k + 1)) % 8;
    }
  }

  /** The reader's test sees an empty ring exactly when there is no unread entry. */
  lemma EmptyTest(ring: seq<int>, from: int, to: int, list: seq<int>)
    requires RingOk(ring, from, to, list)
    ensures from == to <==> list == []
  {
  }

  /** Distinct descriptor numbers never fill the ring beyond its size. */
  lemma {:induction false} FitsRing(list: seq<int>, s: set<int>)
    requires Distinct(list) && forall k :: 0 <= k < |list| ==> list[k] in s
    ensures |list| <= |s|
  {
    if list != [] {
      var rest := list[..|list| - 1];
      var last := list[|list| - 1];
      assert forall k :: 0 <= k < |rest| ==> rest[k] == list[k] && rest[k] != last;
      FitsRing(rest, s - {last});
    }
  }

  // ----- a request moves on, or goes

  function Staged(reqs: map<int, Request>, h: int, stage: Stage): (r: map<int, Request>)
    requires h in reqs
  {
    reqs[h := reqs[h].(stage := stage)]
  }

  lemma StagePop(list: seq<int>, reqs: map<int, Request>, h: int, stage: Stage, stage': Stage)
    requires ListsStage(list, reqs, stage) && list != [] && h == list[0] && stage' != stage
    ensures h in reqs && ListsStage(list[1..], Staged(reqs, h, stage'), stage)
  {
    forall k | k in reqs && reqs[k].stage == stage && k != h ensures k in list[1..] {
      var i :| 0 <= i < |list| && list[i] == k;
      assert list[1..][i - 1] == k;
    }
    assert forall i :: 0 <= i < |list[1..]| ==> list[1..][i] == list[i + 1] != h;
  }

  lemma StagePush(list: seq<int>, reqs: map<int, Request>, h: int, stage: Stage)
    requires ListsStage(list, reqs, stage) && h in reqs && reqs[h].stage != stage
    ensures h !in list && ListsStage(list + [h], Staged(reqs, h, stage), stage)
  {
  }

  lemma StageOther(list: seq<int>, reqs: map<int, Request>, h: int, r: Request, stage: Stage)
    requires ListsStage(list, reqs, stage) && (h in reqs ==> reqs[h].stage != stage) && r.stage != stage
    ensures ListsStage(list, reqs[h := r], stage)
  {
  }

  /** A new entry fits: ring entries are distinct descriptors, and there are only NUM of those. */
  lemma RoomFor(list: seq<int>, reqs: map<int, Request>, h: int, stage: Stage)
    requires ListsStage(list, reqs, stage) && h !in list && 0 <= h < NUM && forall k :: k in reqs ==> 0 <= k < NUM
    ensures |list| < NUM
  {
    var all := list + [h];
    forall k | 0 <= k < |all| ensures 0 <= all[k] < 8 {
      assert k < |list| ==> all[k] == list[k];
    }
    FitsRing(all, {0, 1, 2, 3, 4, 5, 6, 7});
  }

  /** The set holds exactly the requests in this stage. */
  ghost predicate SetStage(s: set<int>, reqs: map<int, Request>, stage: Stage) {
    forall h :: h in s <==> h in reqs && reqs[h].stage == stage
  }

  /** One request at most is in these stages, and it is `p`; -1 stands for none. */
  ghost predicate OnlyStage(p: int, reqs: map<int, Request>, stage: Stage, stage': Stage) {
    && (forall h :: h in reqs && (reqs[h].stage == stage || reqs[h].stage == stage') ==> h == p)
    && (p != -1 ==> p in reqs && (reqs[p].stage == stage || reqs[p].stage == stage'))
  }

  /** Where everything is: what the rings hold, what the device works on, and what the driver and the device
      are about to publish. */
  ghost predicate Stages(reqs: map<int, Request>, waiting: seq<int>, answered: seq<int>, flight: set<int>,
                         moved: set<int>, pending: int, devPending: int) {
    && -1 !in reqs && ListsStage(waiting, reqs, Queued) && ListsStage(answered, reqs, Used)
    && SetStage(flight, reqs, Taken) && SetStage(moved, reqs, Moved)
    && OnlyStage(pending, reqs, Made, Placed) && OnlyStage(devPending, reqs, Stored, Stored)
  }

  lemma MadeStages(reqs: map<int, Request>, waiting: seq<int>, answered: seq<int>, flight: set<int>, moved: set<int>,
                   devPending: int, h: int, r: Request)
    requires Stages(reqs, waiting, answered, flight, moved, -1, devPending) && h !in reqs && h != -1 && r.stage == Made
    ensures Stages(reqs[h := r], waiting, answered, flight, moved, h, devPending)
  {
    StageOther(waiting, reqs, h, r, Queued);
    StageOther(answered, reqs, h, r, Used);
    hide ListsStage;
  }

  lemma PlacedStages(reqs: map<int, Request>, waiting: seq<int>, answered: seq<int>, flight: set<int>, moved: set<int>,
                     devPending: int, h: int)
    requires Stages(reqs, waiting, answered, flight, moved, h, devPending) && h != -1
    ensures h in reqs && (reqs[h].stage == Made || reqs[h].stage == Placed) && h !in waiting
    ensures Stages(Staged(reqs, h, Placed), waiting, answered, flight, moved, h, devPending)
  {
    StageOther(waiting, reqs, h, reqs[h].(stage := Placed), Queued);
    StageOther(answered, reqs, h, reqs[h].(stage := Placed), Used);
    assert h !in waiting;
    hide ListsStage;
  }

  lemma QueuedStages(reqs: map<int, Request>, waiting: seq<int>, answered: seq<int>, flight: set<int>, moved: set<int>,
                     devPending: int, h: int)
    requires Stages(reqs, waiting, answered, flight, moved, h, devPending) && h != -1
    ensures h in reqs && Stages(Staged(reqs, h, Queued), waiting + [h], answered, flight, moved, -1, devPending)
  {
    StagePush(waiting, reqs, h, Queued);
    StageOther(answered, reqs, h, reqs[h].(stage := Queued), Used);
    hide ListsStage;
  }

  lemma TakenStages(reqs: map<int, Request>, waiting: seq<int>, answered: seq<int>, flight: set<int>, moved: set<int>,
                    pending: int, devPending: int)
    requires Stages(reqs, waiting, answered, flight, moved, pending, devPending) && waiting != []
    ensures var h := waiting[0];
            && h in reqs && reqs[h].stage == Queued
            && Stages(Staged(reqs, h, Taken), waiting[1..], answered, flight + {h}, moved, pending, devPending)
  {
    var h := waiting[0];
    StagePop(waiting, reqs, h, Queued, Taken);
    StageOther(answered, reqs, h, reqs[h].(stage := Taken), Used);
    hide ListsStage;
  }

  lemma MovedStages(reqs: map<int, Request>, waiting: seq<int>, answered: seq<int>, flight: set<int>, moved: set<int>,
                    pending: int, devPending: int, h: int, r: Request)
    requires Stages(reqs, waiting, answered, flight, moved, pending, devPending) && h in flight && r.stage == Moved
    ensures h in reqs && reqs[h].stage == Taken
            && Stages(reqs[h := r], waiting, answered, flight - {h}, moved + {h}, pending, devPending)
  {
    StageOther(waiting, reqs, h, r, Queued);
    StageOther(answered, reqs, h, r, Used);
    hide ListsStage;
  }

  lemma StoredStages(reqs: map<int, Request>, waiting: seq<int>, answered: seq<int>, flight: set<int>, moved: set<int>,
                     pending: int, h: int)
    requires Stages(reqs, waiting, answered, flight, moved, pending, -1) && h in moved && h != -1
    ensures h in reqs && reqs[h].stage == Moved && h !in answered
            && Stages(Staged(reqs, h, Stored), waiting, answered, flight, moved - {h}, pending, h)
  {
    StageOther(waiting, reqs, h, reqs[h].(stage := Stored), Queued);
    StageOther(answered, reqs, h, reqs[h].(stage := Stored), Used);
    assert h !in answered;
    hide ListsStage;
  }

  lemma UsedStages(reqs: map<int, Request>, waiting: seq<int>, answered: seq<int>, flight: set<int>, moved: set<int>,
                   pending: int, h: int)
    requires Stages(reqs, waiting, answered, flight, moved, pending, h) && h != -1
    ensures h in reqs && reqs[h].stage == Stored && h !in answered
    ensures Stages(Staged(reqs, h, Used), waiting, answered + [h], flight, moved, pending, -1)
  {
    StagePush(answered, reqs, h, Used);
    StageOther(waiting, reqs, h, reqs[h].(stage := Used), Queued);
    hide ListsStage;
  }

  lemma DoneStages(reqs: map<int, Request>, waiting: seq<int>, answered: seq<int>, flight: set<int>, moved: set<int>,
                   pending: int, devPending: int)
    requires Stages(reqs, waiting, answered, flight, moved, pending, devPending) && answered != []
    ensures var h := answered[0];
            && h in reqs && reqs[h].stage == Used
            && Stages(Staged(reqs, h, Done), waiting, answered[1..], flight, moved, pending, devPending)
  {
    var h := answered[0];
    StagePop(answered, reqs, h, Used, Done);
    StageOther(waiting, reqs, h, reqs[h].(stage := Done), Queued);
    hide ListsStage;
  }

  lemma GoneStages(reqs: map<int, Request>, waiting: seq<int>, answered: seq<int>, flight: set<int>, moved: set<int>,
                   pending: int, devPending: int, h: int)
    requires Stages(reqs, waiting, answered, flight, moved, pending, devPending) && h in reqs && reqs[h].stage == Done
    ensures Stages(reqs - {h}, waiting, answered, flight, moved, pending, devPending) && h != pending && h != devPending
  {
  }

  /** A request that is not in a ring leaves room in it. */
  lemma QueueHasRoom(reqs: map<int, Request>, waiting: seq<int>, answered: seq<int>, flight: set<int>, moved: set<int>,
                     pending: int, devPending: int, h: int)
    requires Stages(reqs, waiting, answered, flight, moved, pending, devPending) && h !in waiting && 0 <= h < NUM
             && forall k :: k in reqs ==> 0 <= k < NUM
    ensures |waiting| < NUM
  {
    RoomFor(waiting, reqs, h, Queued);
  }

  lemma AnswerHasRoom(reqs: map<int, Request>, waiting: seq<int>, answered: seq<int>, flight: set<int>, moved: set<int>,
                      pending: int, devPending: int, h: int)
    requires Stages(reqs, waiting, answered, flight, moved, pending, devPending) && h !in answered && 0 <= h < NUM
             && forall k :: k in reqs ==> 0 <= k < NUM
    ensures |answered| < NUM
  {
    RoomFor(answered, reqs, h, Used);
  }

  lemma NotCarriedOut(stage: Stage)
    requires stage == Made || stage == Placed
    ensures !CarriedOut(stage) && !CarriedOut(Placed)
  {
  }

  // ----- the history of all requests

  datatype Release = Release(serial: nat, b: int)

  /** Of all requests ever made: each one's buffer, which buffers the interrupt handler released and for which
      requests, and which requests have returned. */
  datatype Hist = Hist(submitted: seq<int>, released: seq<Release>, returned: seq<nat>)

  ghost predicate IsReleased(hist: Hist, n: nat) {
    exists k :: 0 <= k < |hist.released| && hist.released[k].serial == n
  }

  /** Each release is for a request that was made, and is of that request's own buffer; no request has two. */
  ghost predicate ReleasesOk(hist: Hist) {
    && (forall k :: 0 <= k < |hist.released| ==>
          hist.released[k].serial < |hist.submitted| && hist.released[k].b == hist.submitted[hist.released[k].serial])
    && (forall k, l :: 0 <= k < l < |hist.released| ==> hist.released[k].serial != hist.released[l].serial)
  }

  /** A request returns once, and only after its release. */
  ghost predicate ReturnsOk(hist: Hist) {
    && (forall k ::
        0 <= k < |hist.returned| ==> hist.returned[k] < |hist.submitted| && IsReleased(hist, hist.returned[k]))
    && (forall k, l :: 0 <= k < l < |hist.returned| ==> hist.returned[k] != hist.returned[l])
  }

  ghost predicate Outstanding(reqs: map<int, Request>, n: nat) {
    exists h :: h in reqs && reqs[h].serial == n
  }

  ghost predicate RequestOk(hist: Hist, r: Request) {
    && r.serial < |hist.submitted| && hist.submitted[r.serial] == r.b && r.serial !in hist.returned
    && (r.stage == Done <==> IsReleased(hist, r.serial))
  }

  ghost predicate HistOk(hist: Hist, reqs: map<int, Request>) {
    && ReleasesOk(hist) && ReturnsOk(hist)
    && (forall h :: h in reqs ==> RequestOk(hist, reqs[h]))
    && (forall h, k :: h in reqs && k in reqs && reqs[h].serial == reqs[k].serial ==> h == k)
    && (forall n: nat :: n < |hist.submitted| ==> n in hist.returned || Outstanding(reqs, n))
  }

  lemma HistSubmit(hist: Hist, reqs: map<int, Request>, h: int, r: Request)
    requires HistOk(hist, reqs) && h !in reqs && r.serial == |hist.submitted| && r.stage == Made
    ensures HistOk(hist.(submitted := hist.submitted + [r.b]), reqs[h := r])
  {
    var hist', reqs' := hist.(submitted := hist.submitted + [r.b]), reqs[h := r];
    forall n: nat ensures IsReleased(hist', n) <==> IsReleased(hist, n) {
    }
    assert !IsReleased(hist, r.serial);
    forall k | k in reqs' ensures RequestOk(hist', reqs'[k]) {
      assert k != h ==> RequestOk(hist, reqs[k]);
    }
    forall n: nat | n < |hist'.submitted| ensures n in hist'.returned || Outstanding(reqs', n) {
      if n == r.serial {
        assert reqs'[h].serial == n;
      } else if n !in hist.returned {
        var k :| k in reqs && reqs[k].serial == n;
        assert k in reqs' && reqs'[k].serial == n;
      }
    }
  }

  lemma HistStage(hist: Hist, reqs: map<int, Request>, h: int, r: Request)
    requires HistOk(hist, reqs) && h in reqs && r.serial == reqs[h].serial && r.b == reqs[h].b && r.stage != Done
             && reqs[h].stage != Done
    ensures HistOk(hist, reqs[h := r])
  {
    hide ReleasesOk, ReturnsOk;
    SameOutstanding(hist, reqs, h, r);
    assert RequestOk(hist, reqs[h]);
  }

  lemma SameOutstanding(hist: Hist, reqs: map<int, Request>, h: int, r: Request)
    requires h in reqs && r.serial == reqs[h].serial
    ensures forall n: nat :: Outstanding(reqs, n) ==> Outstanding(reqs[h := r], n)
  {
    forall n: nat | Outstanding(reqs, n) ensures Outstanding(reqs[h := r], n) {
      var k :| k in reqs && reqs[k].serial == n;
      assert k in reqs[h := r] && reqs[h := r][k].serial == n;
    }
  }

  lemma HistRelease(hist: Hist, reqs: map<int, Request>, h: int)
    requires HistOk(hist, reqs) && h in reqs && reqs[h].stage == Used
    ensures HistOk(hist.(released := hist.released + [Release(reqs[h].serial, reqs[h].b)]), Staged(reqs, h, Done))
  {
    var r := reqs[h];
    var hist', reqs' := hist.(released := hist.released + [Release(r.serial, r.b)]), Staged(reqs, h, Done);
    assert RequestOk(hist, r);
    forall n: nat ensures IsReleased(hist', n) <==> n == r.serial || IsReleased(hist, n) {
      assert hist'.released[|hist.released|].serial == r.serial;
      if IsReleased(hist, n) {
        var k :| 0 <= k < |hist.released| && hist.released[k].serial == n;
        assert hist'.released[k].serial == n;
      }
    }
    forall k | 0 <= k < |hist.released| ensures hist.released[k].serial != r.serial {
      assert IsReleased(hist, hist.released[k].serial);
    }
    forall k | k in reqs' ensures RequestOk(hist', reqs'[k]) {
      assert RequestOk(hist, reqs[k]);
    }
    SameOutstanding(hist, reqs, h, reqs'[h]);
  }

  lemma HistReturn(hist: Hist, reqs: map<int, Request>, h: int)
    requires HistOk(hist, reqs) && h in reqs && reqs[h].stage == Done
    ensures HistOk(hist.(returned := hist.returned + [reqs[h].serial]), reqs - {h})
  {
    var n := reqs[h].serial;
    var hist', reqs' := hist.(returned := hist.returned + [n]), reqs - {h};
    assert RequestOk(hist, reqs[h]);
    forall m: nat ensures IsReleased(hist', m) <==> IsReleased(hist, m) {
    }
    forall k | k in reqs' ensures RequestOk(hist', reqs'[k]) {
      assert RequestOk(hist, reqs[k]);
    }
    forall m: nat | m < |hist'.submitted| ensures m in hist'.returned || Outstanding(reqs', m) {
      if m == n {
        assert hist'.returned[|hist.returned|] == m;
      } else if m !in hist.returned {
        var k :| k in reqs && reqs[k].serial == m;
        assert k in reqs' && reqs'[k].serial == m;
      }
    }
  }

  /** With nothing outstanding, every request ever made has been released once, with its own buffer, and has
      returned once. */
  lemma AllServed(hist: Hist, n: nat)
    requires HistOk(hist, map[]) && n < |hist.submitted|
    ensures IsReleased(hist, n) && n in hist.returned
  {
    assert n in hist.returned;
  }

  // ----- descriptors come and go

  lemma HoldKeeps(free: seq<bool>, desc: seq<Desc>, info: seq<Info>, ops: seq<Op>, owner: seq<int>, bufs: seq<Buf>,
                  reqs: map<int, Request>, i: int)
    requires ChainsOk(free, desc, info, ops, owner, bufs, reqs) && 0 <= i < NUM && free[i]
    ensures ChainsOk(free[i := false], desc, info, ops, owner[i := HELD], bufs, reqs)
  {
    forall h | h in reqs ensures ChainOk(desc, info, ops, owner[i := HELD], bufs, h, reqs[h]) {
      assert ChainOk(desc, info, ops, owner, bufs, h, reqs[h]);
    }
  }

  lemma ReleaseKeeps(free: seq<bool>, desc: seq<Desc>, info: seq<Info>, ops: seq<Op>, owner: seq<int>, bufs: seq<Buf>,
                     reqs: map<int, Request>, i: int)
    requires ChainsOk(free, desc, info, ops, owner, bufs, reqs) && 0 <= i < NUM && owner[i] == HELD
    ensures ChainsOk(free[i := true], desc[i := Desc(Nowhere, 0, 0, 0)], info, ops, owner[i := FREE], bufs, reqs)
  {
    forall h | h in reqs
      ensures ChainOk(desc[i := Desc(Nowhere, 0, 0, 0)], info, ops, owner[i := FREE], bufs, h, reqs[h]) {
      assert ChainOk(desc, info, ops, owner, bufs, h, reqs[h]);
    }
  }

  /** `owner` with the descriptors of `s` held. */
  ghost function WithHeld(owner: seq<int>, s: seq<int>): (r: seq<int>) {
    seq(|owner|, k requires 0 <= k < |owner| => if k in s then HELD else owner[k])
  }

  // ----- a chain is made and taken apart

  /** The three descriptors as virtio_disk_rw formats them. */
  function Formatted(desc: seq<Desc>, h: int, r: Request): (d: seq<Desc>)
    requires |desc| == NUM && 0 <= h < NUM && 0 <= r.i1 < NUM && 0 <= r.i2 < NUM
  {
    desc[h := Desc(Header(h), 16, NEXT, r.i1)][r.i1 := Desc(Data(r.b), 1024, if r.write then NEXT else WRITE + NEXT,
                                                            r.i2)]
        [r.i2 := Desc(Status(h), 1, WRITE, 0)]
  }

  lemma ChainBeside(desc: seq<Desc>, info: seq<Info>, ops: seq<Op>, owner: seq<int>, bufs: seq<Buf>, k: int, q: Request,
                    h: int, r: Request)
    requires |desc| == |info| == |ops| == |owner| == NUM && ChainOk(desc, info, ops, owner, bufs, k, q)
             && 0 <= r.b < |bufs|
    requires 0 <= h < NUM && 0 <= r.i1 < NUM && 0 <= r.i2 < NUM && owner[h] == HELD && owner[r.i1] == HELD
             && owner[r.i2] == HELD
    ensures k != h
    ensures ChainOk(Formatted(desc, h, r), info[h := Info(r.b, 0xff)],
                    ops[h := Op(if r.write then 1 else 0, bufs[r.b].block * 2)],
                    owner[h := h][r.i1 := h][r.i2 := h], bufs, k, q)
  {
  }

  lemma ChainItself(desc: seq<Desc>, info: seq<Info>, ops: seq<Op>, owner: seq<int>, bufs: seq<Buf>, h: int, r: Request)
    requires |desc| == |info| == |ops| == |owner| == NUM && 0 <= r.b < |bufs|
    requires 0 <= h < NUM && 0 <= r.i1 < NUM && 0 <= r.i2 < NUM && h != r.i1 && h != r.i2 && r.i1 != r.i2
    ensures ChainOk(Formatted(desc, h, r), info[h := Info(r.b, 0xff)],
                    ops[h := Op(if r.write then 1 else 0, bufs[r.b].block * 2)],
                    owner[h := h][r.i1 := h][r.i2 := h], bufs, h, r)
  {
  }

  lemma NewChain(free: seq<bool>, desc: seq<Desc>, info: seq<Info>, ops: seq<Op>, owner: seq<int>, bufs: seq<Buf>,
                 reqs: map<int, Request>, h: int, r: Request)
    requires ChainsOk(free, desc, info, ops, owner, bufs, reqs) && 0 <= r.b < |bufs|
    requires 0 <= h < NUM && 0 <= r.i1 < NUM && 0 <= r.i2 < NUM && h != r.i1 && h != r.i2 && r.i1 != r.i2
    requires owner[h] == HELD && owner[r.i1] == HELD && owner[r.i2] == HELD
    ensures h !in reqs
    ensures ChainsOk(free, Formatted(desc, h, r), info[h := Info(r.b, 0xff)],
                     ops[h := Op(if r.write then 1 else 0, bufs[r.b].block * 2)],
                     owner[h := h][r.i1 := h][r.i2 := h], bufs, reqs[h := r])
  {
    hide ChainOk;
    var desc', info', ops' := Formatted(desc, h, r), info[h := Info(r.b, 0xff)],
        ops[h := Op(if r.write then 1 else 0, bufs[r.b].block * 2)];
    var owner' := owner[h := h][r.i1 := h][r.i2 := h];
    var reqs' := reqs[h := r];
    forall k | k in reqs ensures k != h && ChainOk(desc', info', ops', owner', bufs, k, reqs'[k]) {
      ChainBeside(desc, info, ops, owner, bufs, k, reqs[k], h, r);
    }
    ChainItself(desc, info, ops, owner, bufs, h, r);
    forall i | 0 <= i < NUM && owner'[i] >= 0
      ensures owner'[i] in reqs' && (i == owner'[i] || i == reqs'[owner'[i]].i1 || i == reqs'[owner'[i]].i2) {
      assert owner'[i] != h ==> owner'[i] == owner[i];
    }
  }

  lemma OldChain(free: seq<bool>, desc: seq<Desc>, info: seq<Info>, ops: seq<Op>, owner: seq<int>, bufs: seq<Buf>,
                 reqs: map<int, Request>, h: int)
    requires ChainsOk(free, desc, info, ops, owner, bufs, reqs) && h in reqs
    ensures var r := reqs[h];
            && ChainOk(desc, info, ops, owner, bufs, h, r)
            && ChainsOk(free, desc, info[h := Info(-1, info[h].status)], ops,
                        owner[h := HELD][r.i1 := HELD][r.i2 := HELD], bufs, reqs - {h})
  {
    var r := reqs[h];
    assert ChainOk(desc, info, ops, owner, bufs, h, r);
    var info', owner' := info[h := Info(-1, info[h].status)], owner[h := HELD][r.i1 := HELD][r.i2 := HELD];
    forall k | k in reqs - {h} ensures ChainOk(desc, info', ops, owner', bufs, k, reqs[k]) {
      assert ChainOk(desc, info, ops, owner, bufs, k, reqs[k]);
    }
  }

  /** Chains depend neither on the status bytes nor on what the buffers hold, nor on a request's stage. */
  lemma SameChains(free: seq<bool>, desc: seq<Desc>, info: seq<Info>, ops: seq<Op>, owner: seq<int>, bufs: seq<Buf>,
                   reqs: map<int, Request>,
                   info': seq<Info>, bufs': seq<Buf>, reqs': map<int, Request>)
    requires ChainsOk(free, desc, info, ops, owner, bufs, reqs) && |info'| == NUM && |bufs'| == |bufs|
             && reqs'.Keys == reqs.Keys
    requires forall i :: 0 <= i < NUM ==> info'[i].b == info[i].b
    requires forall b :: 0 <= b < |bufs| ==> bufs'[b].block == bufs[b].block
    requires forall h ::
               h in reqs ==>
                   reqs'[h].b == reqs[h].b && reqs'[h].write == reqs[h].write && reqs'[h].i1 == reqs[h].i1
                       && reqs'[h].i2 == reqs[h].i2
    ensures ChainsOk(free, desc, info', ops, owner, bufs', reqs')
  {
    forall h | h in reqs' ensures ChainOk(desc, info', ops, owner, bufs', h, reqs'[h]) {
      assert ChainOk(desc, info, ops, owner, bufs, h, reqs[h]);
    }
  }

  lemma HeldThree(owner: seq<int>, was: seq<int>, idx: seq<int>)
    requires |was| == NUM && owner == WithHeld(was, idx) && |idx| == 3 && forall k :: 0 <= k < 3 ==> 0 <= idx[k] < NUM
    ensures |owner| == NUM && forall k :: 0 <= k < 3 ==> owner[idx[k]] == HELD
  {
  }

  lemma HeadsInRange(free: seq<bool>, desc: seq<Desc>, info: seq<Info>, ops: seq<Op>, owner: seq<int>, bufs: seq<Buf>,
                     reqs: map<int, Request>)
    requires ChainsOk(free, desc, info, ops, owner, bufs, reqs)
    ensures forall k :: k in reqs ==> 0 <= k < NUM
  {
    forall k | k in reqs ensures 0 <= k < NUM {
      assert ChainOk(desc, info, ops, owner, bufs, k, reqs[k]);
    }
  }

  /** The new request's buffer is with the disk. */
  lemma NewBuf(bufs: seq<Buf>, info: seq<Info>, reqs: map<int, Request>, h: int, r: Request)
    requires BufsOk(bufs, info, reqs) && 0 <= h < |info| && h !in reqs && 0 <= r.b < |bufs| && r.stage == Made
    requires forall k :: k in reqs ==> reqs[k].b != r.b
    ensures BufsOk(bufs[r.b := bufs[r.b].(disk := true)], info[h := Info(r.b, 0xff)], reqs[h := r])
  {
    var bufs', info', reqs' := bufs[r.b := bufs[r.b].(disk := true)], info[h := Info(r.b, 0xff)], reqs[h := r];
    forall k | k in reqs' ensures BufOk(bufs', info', k, reqs'[k]) {
      assert k != h ==> BufOk(bufs, info, k, reqs[k]);
    }
  }

  /** A formatted request, recorded in its buffer and for the interrupt handler. */
  lemma MadeKeeps(free: seq<bool>, desc: seq<Desc>, info: seq<Info>, ops: seq<Op>, owner: seq<int>, bufs: seq<Buf>,
                  reqs: map<int, Request>, h: int, r: Request)
    requires ChainsOk(free, desc, info, ops, owner, bufs, reqs) && BufsOk(bufs, info, reqs) && 0 <= r.b < |bufs|
             && r.stage == Made
    requires forall k :: k in reqs ==> reqs[k].b != r.b
    requires 0 <= h < NUM && 0 <= r.i1 < NUM && 0 <= r.i2 < NUM && h != r.i1 && h != r.i2 && r.i1 != r.i2
    requires owner[h] == HELD && owner[r.i1] == HELD && owner[r.i2] == HELD
    ensures |desc| == |info| == |ops| == |owner| == NUM && h !in reqs
    ensures var info', bufs' := info[h := Info(r.b, 0xff)], bufs[r.b := bufs[r.b].(disk := true)];
            && ChainsOk(free, Formatted(desc, h, r), info', ops[h := Op(if r.write then 1 else 0, bufs[r.b].block * 2)],
                        owner[h := h][r.i1 := h][r.i2 := h], bufs', reqs[h := r])
            && BufsOk(bufs', info', reqs[h := r])
  {
    NewChain(free, desc, info, ops, owner, bufs, reqs, h, r);
    NewBuf(bufs, info, reqs, h, r);
    hide ChainOk, BufOk;
    var info', bufs' := info[h := Info(r.b, 0xff)], bufs[r.b := bufs[r.b].(disk := true)];
    SameChains(free, Formatted(desc, h, r), info', ops[h := Op(if r.write then 1 else 0, bufs[r.b].block * 2)],
               owner[h := h][r.i1 := h][r.i2 := h], bufs, reqs[h := r], info', bufs', reqs[h := r]);
  }

  ghost predicate BlocksOk(bufs: seq<Buf>, blocks: seq<Content>) {
    forall b :: 0 <= b < |bufs| ==> 0 <= bufs[b].block < |blocks|
  }

  lemma ChainAt(free: seq<bool>, desc: seq<Desc>, info: seq<Info>, ops: seq<Op>, owner: seq<int>, bufs: seq<Buf>,
                reqs: map<int, Request>, h: int)
    requires ChainsOk(free, desc, info, ops, owner, bufs, reqs) && h in reqs
    ensures |free| == |desc| == |info| == |ops| == |owner| == NUM && ChainOk(desc, info, ops, owner, bufs, h, reqs[h])
  {
  }

  /** A request moves on without its buffer or status byte: the buffer and the chain are as before. */
  lemma StageKeeps(free: seq<bool>, desc: seq<Desc>, info: seq<Info>, ops: seq<Op>, owner: seq<int>, bufs: seq<Buf>,
                   reqs: map<int, Request>, h: int, stage: Stage)
    requires ChainsOk(free, desc, info, ops, owner, bufs, reqs) && BufsOk(bufs, info, reqs) && h in reqs
    requires CarriedOut(stage) == CarriedOut(reqs[h].stage) && stage != Done && reqs[h].stage != Done
    ensures ChainsOk(free, desc, info, ops, owner, bufs, Staged(reqs, h, stage))
            && BufsOk(bufs, info, Staged(reqs, h, stage))
  {
    hide ChainsOk, ChainOk;
    var reqs' := Staged(reqs, h, stage);
    ChainAt(free, desc, info, ops, owner, bufs, reqs, h);
    SameChains(free, desc, info, ops, owner, bufs, reqs, info, bufs, reqs');
    forall k | k in reqs' ensures BufOk(bufs, info, k, reqs'[k]) {
      assert BufOk(bufs, info, k, reqs[k]);
    }
  }

  /** The device has carried out a request, or failed to. */
  function Carried(r: Request, value: Content, failed: bool): (r': Request) {
    r.(stage := Moved, value := value, failed := failed)
  }

  /** The transfer and the status byte: the chain is as before, and the buffer holds the value. */
  lemma MovedKeeps(free: seq<bool>, desc: seq<Desc>, info: seq<Info>, ops: seq<Op>, owner: seq<int>, bufs: seq<Buf>,
                   reqs: map<int, Request>,
                   info': seq<Info>, bufs': seq<Buf>, h: int, value: Content, failed: bool)
    requires ChainsOk(free, desc, info, ops, owner, bufs, reqs) && BufsOk(bufs, info, reqs) && h in reqs
             && reqs[h].stage == Taken
    requires 0 <= h < |info| && info' == info[h := info[h].(status := if failed then 1 else 0)] && |bufs'| == |bufs|
             && 0 <= reqs[h].b < |bufs|
    requires forall b ::
               0 <= b < |bufs| ==> bufs'[b] == if b == reqs[h].b && !failed then bufs[b].(data := value) else bufs[b]
    ensures var reqs' := reqs[h := Carried(reqs[h], value, failed)];
            ChainsOk(free, desc, info', ops, owner, bufs', reqs') && BufsOk(bufs', info', reqs')
  {
    hide ChainsOk, ChainOk, BufsOk;
    var reqs' := reqs[h := Carried(reqs[h], value, failed)];
    ChainAt(free, desc, info, ops, owner, bufs, reqs, h);
    SameChains(free, desc, info, ops, owner, bufs, reqs, info', bufs', reqs');
    MovedBufs(info, bufs, reqs, info', bufs', h, value, failed);
  }

  lemma MovedBufs(info: seq<Info>, bufs: seq<Buf>, reqs: map<int, Request>, info': seq<Info>, bufs': seq<Buf>, h: int,
                  value: Content, failed: bool)
    requires BufsOk(bufs, info, reqs) && h in reqs && reqs[h].stage == Taken
    requires 0 <= h < |info| && info' == info[h := info[h].(status := if failed then 1 else 0)] && |bufs'| == |bufs|
             && 0 <= reqs[h].b < |bufs|
    requires forall b ::
               0 <= b < |bufs| ==> bufs'[b] == if b == reqs[h].b && !failed then bufs[b].(data := value) else bufs[b]
    ensures BufsOk(bufs', info', reqs[h := Carried(reqs[h], value, failed)])
  {
    var reqs' := reqs[h := Carried(reqs[h], value, failed)];
    forall k | k in reqs' ensures BufOk(bufs', info', k, reqs'[k]) {
      assert BufOk(bufs, info, k, reqs[k]);
      assert k != h ==> reqs[k].b != reqs[h].b;
    }
  }

  /** The status byte of an answered request says whether it failed; if not, its buffer is released. */
  lemma ReleasedKeeps(free: seq<bool>, desc: seq<Desc>, info: seq<Info>, ops: seq<Op>, owner: seq<int>, bufs: seq<Buf>,
                      reqs: map<int, Request>, h: int)
    requires ChainsOk(free, desc, info, ops, owner, bufs, reqs) && BufsOk(bufs, info, reqs) && h in reqs
             && reqs[h].stage == Used
    ensures 0 <= reqs[h].b < |bufs| && 0 <= h < |info| && (info[h].status != 0 <==> reqs[h].failed)
    ensures var bufs' := bufs[reqs[h].b := bufs[reqs[h].b].(disk := false)];
            !reqs[h].failed ==>
                ChainsOk(free, desc, info, ops, owner, bufs', Staged(reqs, h, Done))
                    && BufsOk(bufs', info, Staged(reqs, h, Done))
  {
    assert BufOk(bufs, info, h, reqs[h]);
    if !reqs[h].failed {
      var bufs', reqs' := bufs[reqs[h].b := bufs[reqs[h].b].(disk := false)], Staged(reqs, h, Done);
      SameChains(free, desc, info, ops, owner, bufs, reqs, info, bufs', reqs');
      hide ChainsOk;
      forall k | k in reqs' ensures BufOk(bufs', info, k, reqs'[k]) {
        assert BufOk(bufs, info, k, reqs[k]);
      }
    }
  }

  /** A request that is done leaves its buffer, with what was transferred. */
  lemma GoneBuf(bufs: seq<Buf>, info: seq<Info>, reqs: map<int, Request>, h: int)
    requires BufsOk(bufs, info, reqs) && h in reqs && reqs[h].stage == Done && 0 <= h < |info|
    ensures BufsOk(bufs, info[h := Info(-1, info[h].status)], reqs - {h})
    ensures 0 <= reqs[h].b < |bufs| && bufs[reqs[h].b].data == reqs[h].value && !bufs[reqs[h].b].disk
  {
    assert BufOk(bufs, info, h, reqs[h]);
    var info', reqs' := info[h := Info(-1, info[h].status)], reqs - {h};
    forall k | k in reqs' ensures BufOk(bufs, info', k, reqs'[k]) {
      assert BufOk(bufs, info, k, reqs[k]);
    }
  }

  /** Between calls, no descriptor is held: each is free or in a chain. */
  ghost predicate NoneHeld(owner: seq<int>) {
    forall i :: 0 <= i < |owner| ==> owner[i] != HELD
  }

  lemma HeldUsedUp(owner: seq<int>, idx: seq<int>, h: int)
    requires NoneHeld(owner) && |owner| == NUM && |idx| == 3 && h >= 0 && forall k :: 0 <= k < 3 ==> 0 <= idx[k] < NUM
    ensures NoneHeld(WithHeld(owner, idx)[idx[0] := h][idx[1] := h][idx[2] := h])
  {
  }

  lemma HeldGivenBack(owner: seq<int>, h: int, i1: int, i2: int)
    requires NoneHeld(owner) && |owner| == NUM && 0 <= h < NUM && 0 <= i1 < NUM && 0 <= i2 < NUM
    ensures NoneHeld(owner[h := HELD][i1 := HELD][i2 := HELD][h := FREE][i1 := FREE][i2 := FREE])
  {
  }

  ghost predicate InChain(reqs: map<int, Request>, h: int, i: int) {
    h in reqs && (i == h || i == reqs[h].i1 || i == reqs[h].i2)
  }

  /** Conservation: with no request outstanding, every descriptor is free; with some, a descriptor is free
      exactly if it is in no chain, and it is in at most one. */
  lemma FreeOrChained(free: seq<bool>, desc: seq<Desc>, info: seq<Info>, ops: seq<Op>, owner: seq<int>, bufs: seq<Buf>,
                      reqs: map<int, Request>, i: int)
    requires ChainsOk(free, desc, info, ops, owner, bufs, reqs) && NoneHeld(owner) && 0 <= i < NUM
    ensures free[i] <==> forall h :: !InChain(reqs, h, i)
    ensures forall h, k :: InChain(reqs, h, i) && InChain(reqs, k, i) ==> h == k
  {
    forall h | InChain(reqs, h, i) ensures owner[i] == h && h >= 0 {
      assert ChainOk(desc, info, ops, owner, bufs, h, reqs[h]);
    }
    if !free[i] {
      assert InChain(reqs, owner[i], i);
    }
  }

  lemma FreeThree(free: seq<bool>, desc: seq<Desc>, info: seq<Info>, ops: seq<Op>, owner: seq<int>, bufs: seq<Buf>,
                  reqs: map<int, Request>)
    requires ChainsOk(free, desc, info, ops, owner, bufs, reqs)
    ensures |free| == |owner| == |desc| == NUM && forall i :: 0 <= i < NUM ==> (free[i] <==> owner[i] == FREE)
  {
  }
}
