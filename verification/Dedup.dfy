/**
 Duplicate suppression in the coordinator (coordinator.rs): the task that mirrors the watched state,
 and the solution handlers, over the seen set and the latest state.
 */
module Dedup {
  import opened Bits
  import opened Fips202
  import opened Contract
  import opened Text

  type Address = b: seq<Byte> | |b| == 20 witness seq(20, _ => 0)

  // ---------- The key of a solution ----------

  function Upper(c: char): char {
    if 'a' <= c <= 'f' then ('A' as int + (c as int - 'a' as int)) as char else c
  }

  /** The i-th digit of an address as EIP-55 prints it: upper case where the hash digit is 8 or more. */
  function ChecksumChar(hex: string, hash: seq<Byte>, i: nat): char
    requires i < |hex| <= 2 * |hash|
  {
    var digit := if i % 2 == 0 then hash[i / 2] as int / 16 else hash[i / 2] as int % 16;
    if digit >= 8 then Upper(hex[i]) else hex[i]
  }

  /** The Display form of an address. */
  function AddressText(a: Address): (s: string)
    ensures |s| == 42
  {
    var hex := HexEncode(a);
    var hash := Keccak256(Ascii(hex));
    "0x" + seq(40, i requires 0 <= i < 40 => ChecksumChar(hex, hash, i))
  }

  lemma UpperDigit(n: nat)
    requires n < 16
    ensures HexValue(HEX_DIGITS[n]) == Some(n)
    ensures Upper(HEX_DIGITS[n]) == "0123456789ABCDEF"[n] && HEX_DIGITS[n] == "0123456789abcdef"[n]
  {
  }

  /** The case of its letters: upper where the hash of the lower-case text has a hexadecimal digit of 8 or more. */
  lemma AddressCase(a: Address, i: nat)
    requires i < 40
    ensures var lower := HexEncode(a); var hash := HexEncode(Keccak256(Ascii(lower)));
      && HexValue(hash[i]).Some?
      && HexValue(lower[i]).Some?
      && AddressText(a)[2 + i]
         == (if HexValue(hash[i]).value >= 8 then "0123456789ABCDEF" else "0123456789abcdef")[HexValue(lower[i]).value]
    ensures AddressText(a)[..2] == "0x"
  {
    hide Keccak256, Ascii, HexEncode, HexValue, Upper;
    var hash := Keccak256(Ascii(HexEncode(a)));
    HexAt(a, i);
    UpperDigit(if i % 2 == 0 then a[i / 2] as int / 16 else a[i / 2] as int % 16);
    HexAt(hash, i);
    HexValueOfDigit(if i % 2 == 0 then hash[i / 2] as int / 16 else hash[i / 2] as int % 16);
  }

  function Key(challenge: B256, nonce: U256, miner: Address): string {
    Marked(challenge) + ":" + ToDecimal(nonce) + ":" + AddressText(miner)
  }

  lemma UpperValue(c: char)
    ensures HexValue(Upper(c)) == HexValue(c)
  {
  }

  /** Decoding does not see the case of the digits. */
  lemma {:induction false} SameValues(s: string, t: string)
    requires |s| == |t| && forall i :: 0 <= i < |s| ==> HexValue(s[i]) == HexValue(t[i])
    ensures HexDecode(s) == HexDecode(t)
  {
    if |s| >= 2 {
      assert forall i :: 0 <= i < |s[2..]| ==> s[2..][i] == s[i + 2] && t[2..][i] == t[i + 2];
      SameValues(s[2..], t[2..]);
    }
  }

  lemma AddressReadsBack(a: Address)
    ensures HexDecode(AddressText(a)[2..]) == Some(a)
  {
    hide Keccak256;
    var hex := HexEncode(a);
    var text := AddressText(a)[2..];
    forall i | 0 <= i < 40
      ensures HexValue(text[i]) == HexValue(hex[i])
    {
      UpperValue(hex[i]);
    }
    SameValues(text, hex);
    HexRoundTrip(a);
  }

  /** The key determines challenge, nonce and miner. */
  lemma KeyInjective(c: B256, n: U256, a: Address, c': B256, n': U256, a': Address)
    requires Key(c, n, a) == Key(c', n', a')
    ensures c == c' && n == n' && a == a'
  {
    hide ToDecimal, AddressText, HexEncode, HexDecode;
    var k := Key(c, n, a);
    assert |Marked(c)| == 66 && |Marked(c')| == 66;
    assert k[..66] == Marked(c) && k[..66] == Marked(c');
    assert k[67..|k| - 43] == ToDecimal(n) && k[67..|k| - 43] == ToDecimal(n');
    assert k[|k| - 42..] == AddressText(a) && k[|k| - 42..] == AddressText(a');
    MarkedRoundTrip(c);
    MarkedRoundTrip(c');
    DecimalInjective(n, n');
    AddressReadsBack(a);
    AddressReadsBack(a');
  }

  // ---------- The seen set ----------

  datatype SeenState = SeenState(epoch: U64, keys: set<string>)

  /** The clearing of the seen set when the epoch moves. */
  function Swipe(seen: SeenState, epoch: U64): SeenState {
    if seen.epoch != epoch then SeenState(epoch, {}) else seen
  }

  /** The set behind its mutex. */
  class SeenSet {
    var epoch: U64
    var keys: set<string>

    function Value(): SeenState
      reads this
    {
      SeenState(epoch, keys)
    }

    constructor ()
      ensures Value() == SeenState(0, {})
    {
      epoch, keys := 0, {};
    }

    method MoveTo(epoch: U64)
      modifies this
      ensures Value() == Swipe(old(Value()), epoch)
    {
      if this.epoch != epoch {
        this.epoch := epoch;
        keys := {};
      }
    }

    method Insert(key: string) returns (added: bool)
      modifies this
      ensures added == (key !in old(keys))
      ensures Value() == SeenState(old(epoch), old(keys) + {key})
    {
      added := key !in keys;
      keys := keys + {key};
    }
  }

  // ---------- The machine ----------

  /** The state a handler works from, with the address it carries. */
  datatype Snapshot = Snapshot(state: WorkState, miner: Address)

  /** A solution whose key was new to the seen set, after so many clears of it. */
  datatype Admission = Admission(sol: Solution, snap: Snapshot, clears: nat)

  /** A handler holds its snapshot; once admitted, it is known by its place in the list of admissions. */
  datatype Handler = Holding(sol: Solution, snap: Snapshot) | Admitted(at: nat)

  datatype Mirror = Waiting | Got(value: Option<Snapshot>) | Swept(value: Option<Snapshot>)

  datatype State = State(latest: Option<Snapshot>, seen: SeenState, mirror: Mirror, handlers: map<nat, Handler>,
                         clears: nat, admissions: seq<Admission>, forwarded: seq<nat>)

  const INIT := State(None, SeenState(0, {}), Waiting, map[], 0, [], [])

  datatype Event =
    | Observe(value: Option<Snapshot>)
    | Sweep
    | Publish
    | Arrive(id: nat, sol: Solution)
    | Admit(id: nat)
    | Decide(id: nat)
    | Drop(id: nat)

  function KeyOf(sol: Solution, miner: Address): string {
    Key(sol.challenge, sol.nonce, miner)
  }

  function Next(s: State, e: Event): State {
    match e
    case Observe(value) => if s.mirror.Waiting? then s.(mirror := Got(value)) else s
    case Sweep =>
      if !s.mirror.Got? then s
      else
        var s' := s.(mirror := Swept(s.mirror.value));
        (match s.mirror.value
         case None => s'
         case Some(v) =>
           s'.(seen := Swipe(s.seen, v.state.epoch),
               clears := if s.seen.epoch != v.state.epoch then s.clears + 1 else s.clears))
    case Publish => if s.mirror.Swept? then s.(latest := s.mirror.value, mirror := Waiting) else s
    case Arrive(id, sol) =>
      if id !in s.handlers && s.latest.Some? then s.(handlers := s.handlers[id := Holding(sol, s.latest.value)]) else s
    case Admit(id) =>
      if id in s.handlers && s.handlers[id].Holding? then
        var h := s.handlers[id];
        var key := KeyOf(h.sol, h.snap.miner);
        if key in s.seen.keys then s.(handlers := s.handlers - {id})
        else s.(seen := s.seen.(keys := s.seen.keys + {key}),
                handlers := s.handlers[id := Admitted(|s.admissions|)],
                admissions := s.admissions + [Admission(h.sol, h.snap, s.clears)])
      else s
    case Decide(id) =>
      if id in s.handlers && s.handlers[id].Admitted? && s.handlers[id].at < |s.admissions| then
        var a := s.admissions[s.handlers[id].at];
        var stale := a.sol.epoch != a.snap.state.epoch || a.sol.challenge != a.snap.state.challenge;
        s.(handlers := s.handlers - {id},
           forwarded := if stale then s.forwarded else s.forwarded + [s.handlers[id].at])
      else s
    case Drop(id) => s.(handlers := s.handlers - {id})
  }

  function Run(events: seq<Event>): State {
    if |events| == 0 then INIT else Next(Run(events[..|events| - 1]), events[|events| - 1])
  }

  // ---------- What every run keeps ----------

  ghost predicate SameSolution(a: Admission, b: Admission) {
    a.sol.challenge == b.sol.challenge && a.sol.nonce == b.sol.nonce && a.snap.miner == b.snap.miner
  }

  function AdmissionKey(a: Admission): string {
    KeyOf(a.sol, a.snap.miner)
  }

  /** The key was admitted since the last clear. */
  ghost predicate Recent(s: State, key: string) {
    exists i :: 0 <= i < |s.admissions| && s.admissions[i].clears == s.clears && AdmissionKey(s.admissions[i]) == key
  }

  ghost predicate SeenOk(s: State) {
    && (forall i :: 0 <= i < |s.admissions| ==> s.admissions[i].clears <= s.clears)
    && (forall k :: k in s.seen.keys <==> Recent(s, k))
    && (forall i, j :: 0 <= i < j < |s.admissions| && s.admissions[i].clears == s.admissions[j].clears ==>
          AdmissionKey(s.admissions[i]) != AdmissionKey(s.admissions[j]))
  }

  ghost predicate Pending(s: State, at: nat) {
    exists id :: id in s.handlers && s.handlers[id] == Admitted(at)
  }

  /** An admission is forwarded at most once, by the one handler that holds it. */
  ghost predicate ForwardOk(s: State) {
    && (forall i :: 0 <= i < |s.forwarded| ==> s.forwarded[i] < |s.admissions| && !Pending(s, s.forwarded[i]))
    && (forall i, j :: 0 <= i < j < |s.forwarded| ==> s.forwarded[i] != s.forwarded[j])
    && (forall id :: id in s.handlers && s.handlers[id].Admitted? ==> s.handlers[id].at < |s.admissions|)
    && (forall a, b ::
          a in s.handlers && b in s.handlers && s.handlers[a].Admitted? && s.handlers[a] == s.handlers[b] ==> a == b)
    && (forall i :: 0 <= i < |s.forwarded| && s.forwarded[i] < |s.admissions| ==>
          var a := s.admissions[s.forwarded[i]];
          a.sol.epoch == a.snap.state.epoch && a.sol.challenge == a.snap.state.challenge)
  }

  lemma AdmitSeen(s: State, id: nat)
    requires SeenOk(s)
    ensures SeenOk(Next(s, Admit(id)))
  {
    hide KeyOf;
    if id in s.handlers && s.handlers[id].Holding? {
      var h := s.handlers[id];
      var key := KeyOf(h.sol, h.snap.miner);
      if key !in s.seen.keys {
        var s' := Next(s, Admit(id));
        assert AdmissionKey(s'.admissions[|s.admissions|]) == key;
        forall k ensures k in s'.seen.keys <==> Recent(s', k) {
          if Recent(s, k) {
            var i :| 0 <= i < |s.admissions| && s.admissions[i].clears == s.clears
                && AdmissionKey(s.admissions[i]) == k;
            assert s'.admissions[i] == s.admissions[i];
          }
        }
      }
    }
  }

  lemma NextSeen(s: State, e: Event)
    requires SeenOk(s)
    ensures SeenOk(Next(s, e))
  {
    hide AdmissionKey, KeyOf;
    match e
    case Admit(id) => AdmitSeen(s, id);
    case Sweep =>
      var s' := Next(s, e);
      assert forall k :: s'.clears == s.clears ==> (Recent(s', k) <==> Recent(s, k));
    case _ =>
      var s' := Next(s, e);
      assert forall k :: Recent(s', k) <==> Recent(s, k);
  }

  lemma AdmitForward(s: State, id: nat)
    requires ForwardOk(s)
    ensures ForwardOk(Next(s, Admit(id)))
  {
    hide KeyOf;
  }

  lemma DecideForward(s: State, id: nat)
    requires ForwardOk(s)
    ensures ForwardOk(Next(s, Decide(id)))
  {
  }

  lemma NextForward(s: State, e: Event)
    requires ForwardOk(s)
    ensures ForwardOk(Next(s, e))
  {
    match e
    case Admit(id) => AdmitForward(s, id);
    case Decide(id) => DecideForward(s, id);
    case _ =>
      hide Swipe;
  }

  lemma {:induction false} RunKeeps(events: seq<Event>)
    ensures SeenOk(Run(events)) && ForwardOk(Run(events))
  {
    hide Next, SeenOk, ForwardOk;
    if |events| > 0 {
      RunKeeps(events[..|events| - 1]);
      NextSeen(Run(events[..|events| - 1]), events[|events| - 1]);
      NextForward(Run(events[..|events| - 1]), events[|events| - 1]);
    } else {
      InitKeeps();
    }
  }

  lemma InitKeeps()
    ensures SeenOk(INIT) && ForwardOk(INIT)
  {
  }

  /** A solution is turned away as a duplicate exactly when the same one was admitted since the last clear. */
  lemma DuplicateExactly(events: seq<Event>, id: nat)
    requires var s := Run(events); id in s.handlers && s.handlers[id].Holding?
    ensures var s := Run(events); var h := s.handlers[id];
      id !in Next(s, Admit(id)).handlers <==>
        exists i :: 0 <= i < |s.admissions| && s.admissions[i].clears == s.clears
                    && SameSolution(s.admissions[i], Admission(h.sol, h.snap, s.clears))
  {
    hide Run, Key;
    RunKeeps(events);
    var s := Run(events);
    var h := s.handlers[id];
    forall i | 0 <= i < |s.admissions|
      ensures AdmissionKey(s.admissions[i]) == KeyOf(h.sol, h.snap.miner)
          <==> SameSolution(s.admissions[i], Admission(h.sol, h.snap, s.clears))
    {
      var a := s.admissions[i];
      if AdmissionKey(a) == KeyOf(h.sol, h.snap.miner) {
        KeyInjective(a.sol.challenge, a.sol.nonce, a.snap.miner, h.sol.challenge, h.sol.nonce, h.snap.miner);
      }
    }
  }

  /**
   Of all solutions forwarded to the submitter, two that agree in challenge, nonce and miner were
   admitted on different sides of a clear; each matched the state its handler had read.
   */
  lemma ForwardedOncePerClear(events: seq<Event>, i: nat, j: nat)
    requires i < j < |Run(events).forwarded|
    ensures var s := Run(events);
      && s.forwarded[i] < |s.admissions| && s.forwarded[j] < |s.admissions|
      && var a, b := s.admissions[s.forwarded[i]], s.admissions[s.forwarded[j]];
      && (SameSolution(a, b) ==> a.clears != b.clears)
      && a.sol.epoch == a.snap.state.epoch && a.sol.challenge == a.snap.state.challenge
  {
    hide Run, Key;
    RunKeeps(events);
    var s := Run(events);
    var a, b := s.admissions[s.forwarded[i]], s.admissions[s.forwarded[j]];
    if SameSolution(a, b) {
      assert AdmissionKey(a) == AdmissionKey(b);
    }
  }

  // ---------- Once per epoch ----------

  lemma Extend(events: seq<Event>, e: Event) returns (longer: seq<Event>)
    ensures longer == events + [e] && Run(longer) == Next(Run(events), e)
  {
    hide Next;
    longer := events + [e];
    assert longer[..|longer| - 1] == events;
  }

  lemma RunStart()
    ensures Run([]) == INIT
  {
  }

  /** One solution has been forwarded and another epoch observed, but the latest state is still the old one. */
  lemma ForwardedThenSwept(one: Snapshot, two: Snapshot, sol: Solution) returns (events: seq<Event>)
    requires one.state.epoch != two.state.epoch
    requires sol.epoch == one.state.epoch && sol.challenge == one.state.challenge
    ensures var s := Run(events);
      && s.latest == Some(one) && s.seen.keys == {} && s.handlers == map[]
      && |s.admissions| == 1 && s.admissions[0].sol == sol && s.admissions[0].snap == one && s.forwarded == [0]
  {
    hide Run, Key;
    RunStart();
    events := Extend([], Observe(Some(one)));
    events := Extend(events, Sweep);
    events := Extend(events, Publish);
    events := Extend(events, Arrive(0, sol));
    events := Extend(events, Admit(0));
    events := Extend(events, Decide(0));
    assert Run(events).forwarded == [0];
    events := Extend(events, Observe(Some(two)));
    events := Extend(events, Sweep);
  }

  /**
   "Once per epoch" is false: the set is cleared before the latest state moves on, so any solution of
   the old epoch can be forwarded again in between.
   */
  lemma ForwardedTwiceInOneEpoch(one: Snapshot, two: Snapshot, sol: Solution) returns (events: seq<Event>)
    requires one.state.epoch != two.state.epoch
    requires sol.epoch == one.state.epoch && sol.challenge == one.state.challenge
    ensures var s := Run(events);
      && s.forwarded == [0, 1] && |s.admissions| == 2
      && s.admissions[0].sol == s.admissions[1].sol && s.admissions[0].snap == s.admissions[1].snap
  {
    hide Run, Key;
    events := ForwardedThenSwept(one, two, sol);
    events := Extend(events, Arrive(1, sol));
    events := Extend(events, Admit(1));
    events := Extend(events, Decide(1));
  }

  /** Admissions happen while the handler's state is that of the seen set, and observed epochs never go back. */
  ghost predicate OrderlyStep(s: State, e: Event) {
    match e
    case Admit(id) => id in s.handlers && s.handlers[id].Holding? ==> s.handlers[id].snap.state.epoch == s.seen.epoch
    case Sweep => s.mirror.Got? && s.mirror.value.Some? ==> s.mirror.value.value.state.epoch >= s.seen.epoch
    case _ => true
  }

  ghost predicate Orderly(events: seq<Event>) {
    forall k :: 0 <= k < |events| ==> OrderlyStep(Run(events[..k]), events[k])
  }

  ghost predicate EpochsOk(s: State) {
    && (forall i :: 0 <= i < |s.admissions| ==>
          var a := s.admissions[i];
          && a.clears <= s.clears
          && if a.clears == s.clears then a.snap.state.epoch == s.seen.epoch else a.snap.state.epoch < s.seen.epoch)
    && (forall i, j ::
          0 <= i < |s.admissions| && 0 <= j < |s.admissions| && s.admissions[i].clears < s.admissions[j].clears ==>
          s.admissions[i].snap.state.epoch < s.admissions[j].snap.state.epoch)
  }

  lemma NextEpochs(s: State, e: Event)
    requires EpochsOk(s) && OrderlyStep(s, e)
    ensures EpochsOk(Next(s, e))
  {
    hide KeyOf;
  }

  lemma {:induction false} RunEpochs(events: seq<Event>)
    requires Orderly(events)
    ensures EpochsOk(Run(events))
  {
    hide Next, OrderlyStep, EpochsOk;
    if |events| > 0 {
      var before := events[..|events| - 1];
      forall k | 0 <= k < |before|
        ensures OrderlyStep(Run(before[..k]), before[k])
      {
        assert before[..k] == events[..k];
      }
      RunEpochs(before);
      NextEpochs(Run(before), events[|events| - 1]);
    } else {
      assert EpochsOk(INIT) by { EpochsStart(); }
    }
  }

  lemma EpochsStart()
    ensures EpochsOk(INIT)
  {
  }

  /** In orderly runs each solution is forwarded at most once per epoch. */
  lemma ForwardedOncePerEpoch(events: seq<Event>, i: nat, j: nat)
    requires Orderly(events) && i < j < |Run(events).forwarded|
    ensures var s := Run(events);
      && s.forwarded[i] < |s.admissions| && s.forwarded[j] < |s.admissions|
      && var a, b := s.admissions[s.forwarded[i]], s.admissions[s.forwarded[j]];
      !(SameSolution(a, b) && a.sol.epoch == b.sol.epoch)
  {
    hide Run, SameSolution, Orderly;
    RunKeeps(events);
    RunEpochs(events);
    ForwardedOncePerClear(events, i, j);
  }

  /**
   The exact point at which it fails: after an orderly run, and with no challenge shared by two epochs,
   a solution already admitted is admitted again exactly if its handler's state is no longer the seen set's.
   */
  lemma AdmittedAgainExactly(events: seq<Event>, id: nat, i: nat)
    requires Orderly(events)
    requires var s := Run(events); id in s.handlers && s.handlers[id].Holding? && i < |s.admissions|
    requires var s := Run(events); var h := s.handlers[id];
      SameSolution(s.admissions[i], Admission(h.sol, h.snap, s.clears))
    requires var s := Run(events); var h := s.handlers[id];
      forall j :: 0 <= j < |s.admissions| && SameSolution(s.admissions[j], Admission(h.sol, h.snap, s.clears)) ==>
        s.admissions[j].snap.state.epoch == h.snap.state.epoch
    ensures var s := Run(events); var h := s.handlers[id];
      id in Next(s, Admit(id)).handlers <==> h.snap.state.epoch != s.seen.epoch
  {
    hide Run, Next, SameSolution, Orderly;
    RunEpochs(events);
    DuplicateExactly(events, id);
  }
}
