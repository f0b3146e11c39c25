/**
 The coordinator's allocation of nonce ranges (coordinator.rs): registration, /work requests and
 the removal of stale workers, as steps that interleave in any order.
 */
module WorkRanges {
  import opened Bits
  import opened NonceSpace
  import opened Text

  /** A range handed out: to which worker, and the allocator's fields at that moment. */
  datatype Handout = Handout(worker: nat, f: Fields)

  /**
   next_worker_seq, sequence numbers drawn by registrations still in flight, the worker table, and all ranges
   so far.
   */
  datatype State = State(nextSeq: nat, inFlight: set<nat>, workers: map<nat, Fields>, handed: seq<Handout>)

  /**
   Register draws a sequence number; its entry is inserted, or its request dropped, later. Work
   carries the epoch hash of the state snapshot its handler holds, which may be an old one.
   */
  datatype Event =
    | Draw
    | Insert(worker: nat, minerHash32: nat, bootRandom48: nat, epochHash64: U64)
    | Drop(worker: nat)
    | Work(worker: nat, epochHash64: U64)
    | Collect(stale: set<nat>)

  const INIT := State(0, {}, map[], [])

  function NewFields(worker: nat, minerHash32: nat, bootRandom48: nat, epochHash64: U64): Fields {
    Fields(1, minerHash32 % TWO32, bootRandom48 % TWO48, worker % TWO32, epochHash64, 0)
  }

  function Next(s: State, e: Event, batch: nat): State {
    match e
    case Draw => s.(nextSeq := s.nextSeq + 1, inFlight := s.inFlight + {s.nextSeq + 1})
    case Insert(w, miner, boot, hash) =>
      if w in s.inFlight
          then s.(inFlight := s.inFlight - {w}, workers := s.workers[w := NewFields(w, miner, boot, hash)])
      else s
    case Drop(w) => s.(inFlight := s.inFlight - {w})
    case Work(w, hash) =>
      if w in s.workers then
        var f := Rebound(s.workers[w], hash);
        s.(workers := s.workers[w := Allocated(f, batch)], handed := s.handed + [Handout(w, f)])
      else s
    case Collect(stale) => s.(workers := s.workers - stale)
  }

  function Run(events: seq<Event>, batch: nat): State {
    if |events| == 0 then INIT else Next(Run(events[..|events| - 1], batch), events[|events| - 1], batch)
  }

  // ---------- When a hand-out is safe ----------

  /** How many ranges this worker was handed under this epoch hash. */
  function Count(handed: seq<Handout>, worker: nat, epochHash64: U64): nat {
    if |handed| == 0 then 0
    else
      var last := handed[|handed| - 1];
      Count(handed[..|handed| - 1], worker, epochHash64)
      + if last.worker == worker && last.f.epochHash64 == epochHash64 then 1 else 0
  }

  /**
   The guard of a /work request: the allocator is not rebound back to an epoch hash it already
   handed ranges out under, and this binding stays within 2^64 counters.
   */
  predicate Fresh(s: State, e: Event, batch: nat) {
    e.Work? && e.worker in s.workers ==>
      && (s.workers[e.worker].epochHash64 == e.epochHash64 || Count(s.handed, e.worker, e.epochHash64) == 0)
      && (Count(s.handed, e.worker, e.epochHash64) + 1) * batch <= TWO64
  }

  predicate AllFresh(events: seq<Event>, batch: nat) {
    |events| == 0 || (AllFresh(events[..|events| - 1], batch)
                      && Fresh(Run(events[..|events| - 1], batch), events[|events| - 1], batch))
  }

  function NonceOf(h: Handout, i: nat): U256 {
    PowNonce(PrefixOf(h.f), (h.f.nextCounter + i) % TWO64)
  }

  /** Some nonce lies in both ranges. */
  ghost predicate Overlap(a: Handout, b: Handout, batch: nat) {
    exists i, j :: 0 <= i < batch && 0 <= j < batch && NonceOf(a, i) == NonceOf(b, j)
  }

  ghost predicate PairwiseDisjoint(handed: seq<Handout>, batch: nat) {
    forall k, l :: 0 <= k < l < |handed| ==> !Overlap(handed[k], handed[l], batch)
  }

  // ---------- The invariant of fresh runs ----------

  /** A range sits right after the earlier ranges of its binding, below 2^64. */
  ghost predicate Placed(handed: seq<Handout>, k: nat, batch: nat)
    requires k < |handed|
  {
    var h := handed[k];
    var c := Count(handed[..k], h.worker, h.f.epochHash64);
    && InRange(h.f) && h.f.workerDevice32 == h.worker
    && h.f.nextCounter == c * batch && (c + 1) * batch <= TWO64
  }

  ghost predicate SameIdentity(f: Fields, g: Fields) {
    f.version == g.version && f.minerHash32 == g.minerHash32 && f.bootRandom48 == g.bootRandom48
    && f.workerDevice32 == g.workerDevice32
  }

  ghost predicate RowOk(s: State, w: nat, batch: nat)
    requires w in s.workers
  {
    var f := s.workers[w];
    && 1 <= w <= s.nextSeq && w !in s.inFlight
    && InRange(f) && f.version == 1 && f.workerDevice32 == w
    && f.nextCounter == Count(s.handed, w, f.epochHash64) * batch % TWO64
  }

  ghost predicate HandOk(s: State, k: nat, batch: nat)
    requires k < |s.handed|
  {
    var h := s.handed[k];
    && Placed(s.handed, k, batch)
    && 1 <= h.worker <= s.nextSeq && h.worker !in s.inFlight
    && (h.worker in s.workers ==> SameIdentity(h.f, s.workers[h.worker]))
  }

  ghost predicate Inv(s: State, batch: nat) {
    && s.nextSeq < TWO32
    && (forall w :: w in s.inFlight ==> 1 <= w <= s.nextSeq)
    && (forall w :: w in s.workers ==> RowOk(s, w, batch))
    && (forall k :: 0 <= k < |s.handed| ==> HandOk(s, k, batch))
  }

  lemma {:induction false} NoCount(handed: seq<Handout>, worker: nat, epochHash64: U64)
    requires forall k :: 0 <= k < |handed| ==> handed[k].worker != worker
    ensures Count(handed, worker, epochHash64) == 0
  {
    if |handed| > 0 {
      NoCount(handed[..|handed| - 1], worker, epochHash64);
    }
  }

  lemma CountExtends(handed: seq<Handout>, h: Handout, worker: nat, epochHash64: U64)
    ensures Count(handed + [h], worker, epochHash64)
         == Count(handed, worker, epochHash64) + if h.worker == worker && h.f.epochHash64 == epochHash64 then 1 else 0
  {
    assert (handed + [h])[..|handed|] == handed;
  }

  lemma PlacedExtends(handed: seq<Handout>, h: Handout, k: nat, batch: nat)
    requires k < |handed| && Placed(handed, k, batch)
    ensures Placed(handed + [h], k, batch)
  {
    assert (handed + [h])[..k] == handed[..k];
  }

  lemma NextSeqGrows(s: State, e: Event, batch: nat)
    ensures s.nextSeq <= Next(s, e, batch).nextSeq && s.handed <= Next(s, e, batch).handed
  {
  }

  /** The range a fresh request gets starts where the earlier ranges of its binding end. */
  lemma FreshBase(s: State, w: nat, hash: U64, batch: nat)
    requires w in s.workers && RowOk(s, w, batch) && Fresh(s, Work(w, hash), batch) && batch > 0
    ensures Rebound(s.workers[w], hash).nextCounter == Count(s.handed, w, hash) * batch
  {
    var c := Count(s.handed, w, hash);
    assert (c + 1) * batch == c * batch + batch;
  }

  lemma WorkRow(s: State, w: nat, hash: U64, batch: nat, v: nat)
    requires w in s.workers && RowOk(s, w, batch) && Fresh(s, Work(w, hash), batch) && batch > 0
    requires v in s.workers && RowOk(s, v, batch)
    ensures RowOk(Next(s, Work(w, hash), batch), v, batch)
  {
    var f := Rebound(s.workers[w], hash);
    FreshBase(s, w, hash, batch);
    if v == w {
      CountExtends(s.handed, Handout(w, f), w, hash);
      var c := Count(s.handed, w, hash);
      assert (c + 1) * batch == c * batch + batch;
    } else {
      CountExtends(s.handed, Handout(w, f), v, s.workers[v].epochHash64);
    }
  }

  lemma WorkHand(s: State, w: nat, hash: U64, batch: nat, k: nat)
    requires w in s.workers && RowOk(s, w, batch) && Fresh(s, Work(w, hash), batch) && batch > 0
    requires k <= |s.handed| && (k < |s.handed| ==> HandOk(s, k, batch))
    ensures HandOk(Next(s, Work(w, hash), batch), k, batch)
  {
    var h := Handout(w, Rebound(s.workers[w], hash));
    if k < |s.handed| {
      PlacedExtends(s.handed, h, k, batch);
    } else {
      FreshBase(s, w, hash, batch);
      assert (s.handed + [h])[..k] == s.handed;
    }
  }

  lemma InsertRow(s: State, e: Event, batch: nat)
    requires Inv(s, batch) && e.Insert? && e.worker in s.inFlight
    ensures Inv(Next(s, e, batch), batch)
  {
    hide Placed;
    var t := Next(s, e, batch);
    forall k | 0 <= k < |s.handed|
      ensures s.handed[k].worker != e.worker
    {
      assert HandOk(s, k, batch);
    }
    NoCount(s.handed, e.worker, e.epochHash64);
    forall w | w in t.workers
      ensures RowOk(t, w, batch)
    {
      assert w != e.worker ==> RowOk(s, w, batch);
    }
    forall k | 0 <= k < |t.handed|
      ensures HandOk(t, k, batch)
    {
      assert HandOk(s, k, batch);
    }
  }

  lemma NextInv(s: State, e: Event, batch: nat)
    requires Inv(s, batch) && Fresh(s, e, batch) && batch > 0
    requires Next(s, e, batch).nextSeq < TWO32
    ensures Inv(Next(s, e, batch), batch)
  {
    hide Placed, RowOk, HandOk;
    var t := Next(s, e, batch);
    match e
    case Work(w, hash) =>
      if w in s.workers {
        forall v | v in t.workers
          ensures RowOk(t, v, batch)
        {
          WorkRow(s, w, hash, batch, v);
        }
        forall k | 0 <= k < |t.handed|
          ensures HandOk(t, k, batch)
        {
          WorkHand(s, w, hash, batch, k);
        }
      }
    case Insert(w, _, _, _) =>
      if w in s.inFlight {
        InsertRow(s, e, batch);
      }
    case _ =>
      OtherInv(s, e, batch);
  }

  lemma OtherInv(s: State, e: Event, batch: nat)
    requires Inv(s, batch) && !e.Work? && !e.Insert?
    requires Next(s, e, batch).nextSeq < TWO32
    ensures Inv(Next(s, e, batch), batch)
  {
    hide Placed;
    var t := Next(s, e, batch);
    forall w | w in t.workers
      ensures RowOk(t, w, batch)
    {
      assert RowOk(s, w, batch);
    }
    forall k | 0 <= k < |t.handed|
      ensures HandOk(t, k, batch)
    {
      assert HandOk(s, k, batch);
    }
  }

  lemma {:induction false} FreshRunInv(events: seq<Event>, batch: nat)
    requires AllFresh(events, batch) && batch > 0 && Run(events, batch).nextSeq < TWO32
    ensures Inv(Run(events, batch), batch)
  {
    hide Inv, Fresh;
    if |events| == 0 {
      InitInv(batch);
    } else {
      var init, e := events[..|events| - 1], events[|events| - 1];
      NextSeqGrows(Run(init, batch), e, batch);
      FreshRunInv(init, batch);
      NextInv(Run(init, batch), e, batch);
    }
  }

  lemma InitInv(batch: nat)
    ensures Inv(INIT, batch)
  {
  }

  // ---------- Disjointness ----------

  lemma {:induction false} CountGrows(handed: seq<Handout>, k: nat, l: nat, worker: nat, epochHash64: U64)
    requires k <= l <= |handed|
    ensures Count(handed[..k], worker, epochHash64) <= Count(handed[..l], worker, epochHash64)
  {
    if k < l {
      CountGrows(handed, k, l - 1, worker, epochHash64);
      assert handed[..l] == handed[..l - 1] + [handed[l - 1]];
      CountExtends(handed[..l - 1], handed[l - 1], worker, epochHash64);
    }
  }

  /** Ranges of different workers, or of different epoch hashes, differ in their prefix. */
  lemma PrefixTells(a: Fields, b: Fields)
    requires InRange(a) && InRange(b) && PrefixOf(a) == PrefixOf(b)
    ensures a.workerDevice32 == b.workerDevice32 && a.epochHash64 == b.epochHash64
  {
    hide PrefixOf;
    PrefixFields(a);
    PrefixFields(b);
  }

  /** A nonce in two ranges lies in the same binding, at one counter. */
  lemma CommonNonce(a: Handout, b: Handout, i: nat, j: nat)
    requires InRange(a.f) && InRange(b.f) && NonceOf(a, i) == NonceOf(b, j)
    ensures a.f.workerDevice32 == b.f.workerDevice32 && a.f.epochHash64 == b.f.epochHash64
    ensures (a.f.nextCounter + i) % TWO64 == (b.f.nextCounter + j) % TWO64
  {
    hide PowNonce, PrefixOf;
    PowNonceInjective(PrefixOf(a.f), (a.f.nextCounter + i) % TWO64, PrefixOf(b.f), (b.f.nextCounter + j) % TWO64);
    PrefixTells(a.f, b.f);
  }

  /** Between two ranges of one binding the count has grown. */
  lemma CountApart(handed: seq<Handout>, k: nat, l: nat)
    requires k < l < |handed|
    ensures var h := handed[k];
      Count(handed[..l], h.worker, h.f.epochHash64) >= Count(handed[..k], h.worker, h.f.epochHash64) + 1
  {
    var h := handed[k];
    assert handed[..k + 1][..k] == handed[..k];
    CountGrows(handed, k + 1, l, h.worker, h.f.epochHash64);
  }

  /** Two ranges of one binding stand one after the other, below 2^64. */
  lemma CountersApart(handed: seq<Handout>, k: nat, l: nat, batch: nat)
    requires k < l < |handed| && Placed(handed, k, batch) && Placed(handed, l, batch)
    requires handed[k].worker == handed[l].worker && handed[k].f.epochHash64 == handed[l].f.epochHash64
    ensures handed[k].f.nextCounter + batch <= handed[l].f.nextCounter && handed[l].f.nextCounter + batch <= TWO64
  {
    hide Count, InRange;
    var h := handed[k];
    CountApart(handed, k, l);
    StackedApart(Count(handed[..k], h.worker, h.f.epochHash64), Count(handed[..l], h.worker, h.f.epochHash64), batch);
  }

  lemma PlacedWorker(handed: seq<Handout>, k: nat, batch: nat)
    requires k < |handed| && Placed(handed, k, batch)
    ensures InRange(handed[k].f) && handed[k].f.workerDevice32 == handed[k].worker
  {
  }

  lemma PlacedDisjoint(handed: seq<Handout>, k: nat, l: nat, batch: nat)
    requires k < l < |handed| && Placed(handed, k, batch) && Placed(handed, l, batch)
    ensures !Overlap(handed[k], handed[l], batch)
  {
    hide NonceOf, InRange, Placed;
    var a, b := handed[k], handed[l];
    PlacedWorker(handed, k, batch);
    PlacedWorker(handed, l, batch);
    if Overlap(a, b, batch) {
      var i, j :| 0 <= i < batch && 0 <= j < batch && NonceOf(a, i) == NonceOf(b, j);
      CommonNonce(a, b, i, j);
      CountersApart(handed, k, l, batch);
      assert false;
    }
  }

  lemma StackedApart(c: nat, d: nat, batch: nat)
    requires d >= c + 1
    ensures c * batch + batch <= d * batch && (d + 1) * batch == d * batch + batch
        && (c + 1) * batch == c * batch + batch
  {
    assert (d - c - 1) * batch >= 0;
  }

  lemma FreshDisjoint(s: State, batch: nat)
    requires Inv(s, batch)
    ensures PairwiseDisjoint(s.handed, batch)
  {
    hide Placed, Overlap;
    forall k, l | 0 <= k < l < |s.handed|
      ensures !Overlap(s.handed[k], s.handed[l], batch)
    {
      assert HandOk(s, k, batch) && HandOk(s, l, batch);
      PlacedDisjoint(s.handed, k, l, batch);
    }
  }

  /** The c-th range of a binding. */
  lemma {:induction false} RangeNumber(handed: seq<Handout>, worker: nat, epochHash64: U64, c: nat) returns (k: nat)
    requires c < Count(handed, worker, epochHash64)
    ensures k < |handed| && handed[k].worker == worker && handed[k].f.epochHash64 == epochHash64
    ensures Count(handed[..k], worker, epochHash64) == c
  {
    var init := handed[..|handed| - 1];
    if c < Count(init, worker, epochHash64) {
      k := RangeNumber(init, worker, epochHash64, c);
      assert init[..k] == handed[..k];
    } else {
      k := |handed| - 1;
    }
  }

  lemma SamePrefix(a: Fields, b: Fields)
    requires SameIdentity(a, b) && a.epochHash64 == b.epochHash64
    ensures PrefixOf(a) == PrefixOf(b)
  {
  }

  /** Where the range of a request that is not fresh reaches counter 0 again. */
  lemma WrapsToZero(c: nat, batch: nat) returns (j: nat)
    requires 0 < batch < TWO64 && c * batch <= TWO64 < (c + 1) * batch
    ensures j < batch && (c * batch % TWO64 + j) % TWO64 == 0
  {
    assert (c + 1) * batch == c * batch + batch;
    j := if c * batch == TWO64 then 0 else TWO64 - c * batch;
  }

  /** A request that is not fresh is handed a range that meets an earlier one. */
  lemma StaleOverlaps(s: State, w: nat, hash: U64, batch: nat) returns (k: nat)
    requires Inv(s, batch) && w in s.workers && 0 < batch < TWO64 && !Fresh(s, Work(w, hash), batch)
    ensures k < |s.handed| && Overlap(s.handed[k], Handout(w, Rebound(s.workers[w], hash)), batch)
  {
    hide PowNonce, PrefixOf, Inv;
    var c := Count(s.handed, w, hash);
    var h := Handout(w, Rebound(s.workers[w], hash));
    k := RangeNumber(s.handed, w, hash, 0);
    InvAt(s, w, k, batch);
    SamePrefix(s.handed[k].f, h.f);
    var j := 0;
    if s.workers[w].epochHash64 == hash {
      var l := RangeNumber(s.handed, w, hash, c - 1);
      InvAt(s, w, l, batch);
      j := WrapsToZero(c, batch);
    }
    assert NonceOf(s.handed[k], 0) == NonceOf(h, j);
  }

  lemma InvAt(s: State, w: nat, k: nat, batch: nat)
    requires Inv(s, batch) && w in s.workers && k < |s.handed|
    ensures RowOk(s, w, batch) && HandOk(s, k, batch)
  {
  }

  /**
   The ranges handed out over a whole run are pairwise disjoint, across workers, collection of
   stale entries and re-registration, if and only if every request met its guard, or ranges are empty.
   */
  lemma {:induction false} DisjointExactly(events: seq<Event>, batch: nat)
    requires batch < TWO64 && Run(events, batch).nextSeq < TWO32
    ensures PairwiseDisjoint(Run(events, batch).handed, batch) <==> batch == 0 || AllFresh(events, batch)
  {
    hide Inv, Overlap, Fresh, Rebound, Allocated;
    if batch == 0 {
      EmptyRangesDisjoint(Run(events, batch).handed);
    } else if AllFresh(events, batch) {
      FreshRunInv(events, batch);
      FreshDisjoint(Run(events, batch), batch);
    } else {
      var init, e := events[..|events| - 1], events[|events| - 1];
      var s := Run(init, batch);
      NextSeqGrows(s, e, batch);
      DisjointExactly(init, batch);
      if AllFresh(init, batch) {
        FreshRunInv(init, batch);
        NotFreshIsWork(s, e, batch);
        var k := StaleOverlaps(s, e.worker, e.epochHash64, batch);
        var t := Next(s, e, batch);
        assert Overlap(t.handed[k], t.handed[|s.handed|], batch);
      } else {
        var k, l :| 0 <= k < l < |s.handed| && Overlap(s.handed[k], s.handed[l], batch);
        var t := Next(s, e, batch);
        assert t.handed[k] == s.handed[k] && t.handed[l] == s.handed[l];
      }
    }
  }

  lemma EmptyRangesDisjoint(handed: seq<Handout>)
    ensures PairwiseDisjoint(handed, 0)
  {
  }

  lemma NotFreshIsWork(s: State, e: Event, batch: nat)
    requires !Fresh(s, e, batch)
    ensures e.Work? && e.worker in s.workers
  {
  }

  lemma RunAppend(events: seq<Event>, e: Event, batch: nat)
    ensures Run(events + [e], batch) == Next(Run(events, batch), e, batch)
    ensures AllFresh(events + [e], batch) <==> AllFresh(events, batch) && Fresh(Run(events, batch), e, batch)
  {
    assert (events + [e])[..|events|] == events;
  }

  /**
   Two /work handlers that hold an old and a new state snapshot are enough to break the guard: after
   any run, the third of these requests rebinds the allocator back and repeats the first range.
   */
  lemma OldSnapshotRepeats(events: seq<Event>, w: nat, old1: U64, new1: U64, batch: nat)
    requires 0 < batch < TWO64 && Run(events, batch).nextSeq < TWO32
    requires w in Run(events, batch).workers && old1 != new1
    ensures !PairwiseDisjoint(Run(events + [Work(w, old1)] + [Work(w, new1)] + [Work(w, old1)], batch).handed, batch)
  {
    hide PairwiseDisjoint, AllFresh, Run, Allocated;
    var e1 := events + [Work(w, old1)];
    var e2 := e1 + [Work(w, new1)];
    RunAppend(events, Work(w, old1), batch);
    RunAppend(e1, Work(w, new1), batch);
    RunAppend(e2, Work(w, old1), batch);
    var s0, s1, s2 := Run(events, batch), Run(e1, batch), Run(e2, batch);
    CountExtends(s0.handed, Handout(w, Rebound(s0.workers[w], old1)), w, old1);
    CountExtends(s1.handed, Handout(w, Rebound(s1.workers[w], new1)), w, old1);
    AllocatedKeepsHash(Rebound(s1.workers[w], new1), batch);
    assert !Fresh(s2, Work(w, old1), batch);
    DisjointExactly(e2 + [Work(w, old1)], batch);
  }

  lemma AllocatedKeepsHash(f: Fields, batch: nat)
    ensures Allocated(f, batch).epochHash64 == f.epochHash64
  {
  }

  // ---------- What the workers are told ----------

  /** The answer to a /work request. */
  function Answer(h: Handout, batch: nat): NonceBatch {
    BatchOf(h.f, batch)
  }

  /** The nonces that the answer describes are those of the range recorded, one by one. */
  lemma AnswerNonces(h: Handout, batch: nat, i: nat)
    ensures BatchNonce(Answer(h, batch), i) == NonceOf(h, i) && Answer(h, batch).batchSize == batch
  {
    hide PowNonce, PrefixOf;
  }

  /** No nonce is in two of the answers given. */
  ghost predicate AnswersDisjoint(handed: seq<Handout>, batch: nat) {
    forall k, l, i, j :: 0 <= k < l < |handed| && 0 <= i < batch && 0 <= j < batch ==>
      BatchNonce(Answer(handed[k], batch), i) != BatchNonce(Answer(handed[l], batch), j)
  }

  /** Of the answers themselves: no two share a nonce if and only if every request met its guard, or they are empty. */
  lemma AnswersDisjointExactly(events: seq<Event>, batch: nat)
    requires batch < TWO64 && Run(events, batch).nextSeq < TWO32
    ensures AnswersDisjoint(Run(events, batch).handed, batch) <==> batch == 0 || AllFresh(events, batch)
  {
    hide Run, AllFresh, BatchNonce, Answer, NonceOf;
    DisjointExactly(events, batch);
    var handed := Run(events, batch).handed;
    forall k, i | 0 <= k < |handed| && 0 <= i < batch
      ensures BatchNonce(Answer(handed[k], batch), i) == NonceOf(handed[k], i)
    {
      AnswerNonces(handed[k], batch, i);
    }
  }

  // ---------- The worker table as the handlers update it ----------

  class WorkerTable {
    var nextWorkerSeq: nat
    var workers: map<nat, Fields>
    ghost var inFlight: set<nat>
    ghost var handed: seq<Handout>

    ghost function View(): State
      reads this
    {
      State(nextWorkerSeq, inFlight, workers, handed)
    }

    constructor ()
      ensures View() == INIT
    {
      nextWorkerSeq, workers := 0, map[];
      inFlight, handed := {}, [];
    }

    /** The first half of /register: fetch_add. */
    method DrawSeq() returns (seqNo: nat)
      modifies this
      ensures View() == Next(old(View()), Draw, 0) && seqNo == nextWorkerSeq
    {
      seqNo := nextWorkerSeq + 1;
      nextWorkerSeq := seqNo;
      inFlight := inFlight + {seqNo};
    }

    /** The second half of /register, under the write lock. */
    method InsertWorker(seqNo: nat, minerHash32: nat, bootRandom48: nat, epoch: U64, challenge: B256)
      requires seqNo in inFlight && minerHash32 < TWO32
      modifies this
      ensures View() == Next(old(View()),
          Insert(seqNo, minerHash32, bootRandom48, EpochChallengeHash64(epoch, challenge)), 0)
      ensures seqNo in workers && workers[seqNo]
              == Fields(1, minerHash32, bootRandom48 % TWO48, seqNo % TWO32, EpochChallengeHash64(epoch, challenge), 0)
    {
      var allocator := new NonceAllocator.WithParts(1, minerHash32, bootRandom48, seqNo % TWO32, epoch, challenge);
      workers := workers[seqNo := allocator.fields];
      inFlight := inFlight - {seqNo};
    }

    /** /work, under the write lock, with the state of the handler's snapshot; None is the 404 answer. */
    method GiveWork(seqNo: nat, epoch: U64, challenge: B256, gpuBatch: nat) returns (r: Option<NonceBatch>)
      modifies this
      ensures View() == Next(old(View()), Work(seqNo, EpochChallengeHash64(epoch, challenge)), gpuBatch)
      ensures r.Some? <==> seqNo in old(workers)
      ensures r.Some? ==> |handed| == |old(handed)| + 1 && r.value == Answer(handed[|handed| - 1], gpuBatch)
      ensures r.Some? ==> r.value.batchSize == gpuBatch
      ensures r.Some? ==> forall i: nat :: BatchNonce(r.value, i) == NonceOf(handed[|handed| - 1], i)
    {
      if seqNo !in workers {
        return None;
      }
      var w := new NonceAllocator.FromFields(workers[seqNo]);
      var changed := w.EpochChanged(epoch, challenge);
      if changed {
        w.RebindEpoch(epoch, challenge);
      }
      ghost var f := w.fields;
      var batch := w.NextBatch(gpuBatch);
      forall i: nat
        ensures BatchNonce(batch, i) == NonceOf(Handout(seqNo, f), i)
      {
        AnswerNonces(Handout(seqNo, f), gpuBatch, i);
      }
      workers := workers[seqNo := w.fields];
      handed := handed + [Handout(seqNo, f)];
      return Some(batch);
    }

    /** The periodic removal of workers not seen for five minutes. */
    method CollectStale(stale: set<nat>)
      modifies this
      ensures View() == Next(old(View()), Collect(stale), 0)
    {
      workers := workers - stale;
    }
  }
}
