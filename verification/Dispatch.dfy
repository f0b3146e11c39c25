/**
 One dispatch of the GPU kernel: all work-items run concurrently and report through two shared
 cells. A schedule names, step by step, the item that moves next.
 */
module Dispatch {
  import opened Bits
  import opened Contract
  import opened NonceSpace
  import opened GpuSearch

  datatype Job = Job(challenge: B256, prefix: NoncePrefix, target: U256, start: U64, size: nat)

  /** Where a work-item stands: hashing, about to compare-and-swap, about to store, or returned. */
  datatype Pc = Hashing | AtCas | AtStore | Returned

  /** The shared cells, one program counter per item, and which items have stored so far. */
  datatype Device = Device(flag: int, foundCounter: U64, pcs: seq<Pc>, stores: seq<nat>)

  function CounterOf(job: Job, i: nat): U64 {
    (job.start + i) % TWO64
  }

  /** What item i decides, by the kernel. */
  predicate Hits(job: Job, i: nat) {
    ItemHits(HostArgs(job.challenge, job.prefix, job.target), OfNat(CounterOf(job, i), 64))
  }

  /** What item i should decide, by the contract. */
  predicate Proves(job: Job, i: nat) {
    ProofIsValid(job.challenge, PowNonce(job.prefix, CounterOf(job, i)), job.target)
  }

  lemma HitsIsProves(job: Job, i: nat)
    ensures Hits(job, i) <==> Proves(job, i)
  {
    hide ItemHits, ProofIsValid;
    HitIsProof(job.challenge, job.prefix, job.target, CounterOf(job, i));
  }

  lemma CounterWords(job: Job, i: nat)
    requires i < TWO64
    ensures AddW(OfNat(job.start, 64), OfNat(i, 64)) == OfNat(CounterOf(job, i), 64)
    ensures Val(OfNat(CounterOf(job, i), 64)) == CounterOf(job, i)
  {
    hide OfNat, Val;
    Pow2Table();
    ValOfNat(job.start, 64);
    ValOfNat(i, 64);
    OfNatWraps(job.start + i, 64);
    ValOfNat(CounterOf(job, i), 64);
  }

  /**
   The kernel itself, as item i of a dispatch: it goes for the compare-and-swap exactly when its
   counter is a proof, and the counter it would store is the wrapped sum.
   */
  method WorkItem(job: Job, i: nat) returns (reachesCas: bool, counter: U64)
    requires i < TWO64
    ensures reachesCas <==> Proves(job, i)
    ensures counter == CounterOf(job, i)
  {
    hide OfNat, Val, ItemHits, Proves, AddW;
    var word: Word;
    reachesCas, word := RunItem(HostArgs(job.challenge, job.prefix, job.target), OfNat(job.start, 64), OfNat(i, 64));
    CounterWords(job, i);
    HitsIsProves(job, i);
    Pow2Table();
    ValBound(word);
    counter := Val(word);
  }

  function Boot(job: Job): Device {
    Device(0, 0, seq(job.size, _ => Hashing), [])
  }

  /** One step of item i: the hash and its comparison, the compare-and-swap, or the store. */
  function Step(job: Job, dev: Device, i: nat): (r: Device)
    requires |dev.pcs| == job.size
    ensures |r.pcs| == job.size
  {
    if i >= job.size then dev
    else match dev.pcs[i]
      case Hashing => dev.(pcs := dev.pcs[i := if Hits(job, i) then AtCas else Returned])
      case AtCas =>
        if dev.flag == 0 then dev.(flag := 1, pcs := dev.pcs[i := AtStore])
        else dev.(pcs := dev.pcs[i := Returned])
      case AtStore =>
        dev.(foundCounter := CounterOf(job, i), pcs := dev.pcs[i := Returned], stores := dev.stores + [i])
      case Returned => dev
  }

  function Run(job: Job, schedule: seq<nat>): (dev: Device)
    ensures |dev.pcs| == job.size
  {
    if |schedule| == 0 then Boot(job)
    else Step(job, Run(job, schedule[..|schedule| - 1]), schedule[|schedule| - 1])
  }

  /** queue.finish() returns once every item has returned. */
  predicate Finished(dev: Device) {
    forall i :: 0 <= i < |dev.pcs| ==> dev.pcs[i] == Returned
  }

  /** The item that holds the flag: the one that stored or is about to. */
  ghost predicate Holder(job: Job, dev: Device, i: nat)
    requires |dev.pcs| == job.size
  {
    && i < job.size && Hits(job, i)
    && (dev.pcs[i] == AtStore || (dev.pcs[i] == Returned && dev.stores == [i] && dev.foundCounter == CounterOf(job, i)))
    && (dev.pcs[i] == AtStore ==> dev.stores == [])
    && forall j :: 0 <= j < job.size && j != i ==> dev.pcs[j] != AtStore
  }

  ghost predicate Inv(job: Job, dev: Device) {
    && |dev.pcs| == job.size
    && (dev.flag == 0 || dev.flag == 1)
    && (forall i :: 0 <= i < job.size && dev.pcs[i] == AtCas ==> Hits(job, i))
    && (dev.flag == 0 ==> dev.stores == [])
    && (dev.flag == 0 ==>
          forall i :: 0 <= i < job.size ==> dev.pcs[i] != AtStore && (dev.pcs[i] == Returned ==> !Hits(job, i)))
    && (dev.flag == 1 ==> exists i :: Holder(job, dev, i))
  }

  lemma StepInv(job: Job, dev: Device, i: nat)
    requires Inv(job, dev)
    ensures Inv(job, Step(job, dev, i))
  {
    hide Hits;
    var r := Step(job, dev, i);
    if dev.flag == 1 {
      var h :| Holder(job, dev, h);
      assert Holder(job, r, h);
    } else if r.flag == 1 {
      assert Holder(job, r, i);
    }
  }

  lemma {:induction false} RunInv(job: Job, schedule: seq<nat>)
    ensures Inv(job, Run(job, schedule))
  {
    if |schedule| > 0 {
      RunInv(job, schedule[..|schedule| - 1]);
      StepInv(job, Run(job, schedule[..|schedule| - 1]), schedule[|schedule| - 1]);
    }
  }

  /** Under every interleaving, at every moment, at most one item has stored a counter. */
  lemma OneStore(job: Job, schedule: seq<nat>)
    ensures |Run(job, schedule).stores| <= 1
  {
    RunInv(job, schedule);
  }

  /**
   Once all items have returned, under every interleaving: the flag is set if and only if some
   counter of the dispatch is a proof, and then the stored counter is one of those.
   */
  lemma Outcome(job: Job, schedule: seq<nat>)
    requires Finished(Run(job, schedule))
    ensures var dev := Run(job, schedule);
      && (dev.flag != 0 <==> exists i :: 0 <= i < job.size && Proves(job, i))
      && (dev.flag != 0 ==> exists i :: 0 <= i < job.size && Proves(job, i) && dev.foundCounter == CounterOf(job, i))
  {
    hide Hits, Proves;
    var dev := Run(job, schedule);
    RunInv(job, schedule);
    forall i: nat | i < job.size
      ensures Hits(job, i) == Proves(job, i)
    {
      HitsIsProves(job, i);
    }
    if dev.flag == 1 {
      var h :| Holder(job, dev, h);
      assert Proves(job, h);
    }
  }

  // ---------- Waiting for the device ----------

  /** Three steps of every item: enough to return from anywhere. */
  function Tail(n: nat): seq<nat> {
    if n == 0 then [] else Tail(n - 1) + [n - 1, n - 1, n - 1]
  }

  lemma {:induction false} RunAppend(job: Job, s: seq<nat>, i: nat)
    ensures Run(job, s + [i]) == Step(job, Run(job, s), i)
  {
    assert (s + [i])[..|s + [i]| - 1] == s;
  }

  /** Whatever happened before, running every item to its end finishes the dispatch. */
  lemma {:induction false} TailFinishes(job: Job, schedule: seq<nat>, n: nat)
    requires n <= job.size
    ensures forall i :: 0 <= i < n ==> Run(job, schedule + Tail(n)).pcs[i] == Returned
  {
    hide Run, Hits;
    if n > 0 {
      var s, i := schedule + Tail(n - 1), n - 1;
      TailFinishes(job, schedule, n - 1);
      assert schedule + Tail(n) == s + [i] + [i] + [i];
      RunAppend(job, s, i);
      RunAppend(job, s + [i], i);
      RunAppend(job, s + [i] + [i], i);
    }
  }
}
