/**
 The watcher of the chain state (state_watcher.rs) and the rounds that mine on what it publishes. The
 token is bumped before the new state is sent, and a round reads the state before the token.
 */
module StateWatcher {
  import opened Bits
  import opened Contract
  import opened Text
  import GpuMiner

  /** What makes a state a new one. */
  datatype Key = Key(challenge: B256, epoch: U64)

  function KeyOf(s: WorkState): Key {
    Key(s.challenge, s.epoch)
  }

  /** A polled state, with the number of changes up to it. */
  datatype Watched = Watched(state: WorkState, version: nat)

  datatype Watch = Watch(last: Key, token: nat, inHand: Option<Watched>, channel: Option<Watched>)

  function Zeros(): B256 {
    seq(32, _ => 0)
  }

  function First(): Watch {
    Watch(Key(Zeros(), TWO64 - 1), 0, None, None)
  }

  /** A successful poll, up to the bump. */
  function Note(w: Watch, s: WorkState): Watch {
    var token := if KeyOf(s) != w.last then w.token + 1 else w.token;
    w.(last := KeyOf(s), token := token, inHand := Some(Watched(s, token)))
  }

  function Send(w: Watch): Watch {
    w.(channel := w.inHand, inHand := None)
  }

  function Published(w: Watch): nat {
    if w.channel.Some? then w.channel.value.version else 0
  }

  /** The published version is the token's or one behind, and behind only between bump and send. */
  ghost predicate InStep(w: Watch) {
    && Published(w) <= w.token <= Published(w) + 1
    && (w.inHand == None ==> w.token == Published(w))
    && (w.inHand.Some? ==> w.inHand.value.version == w.token && KeyOf(w.inHand.value.state) == w.last)
    && (w.inHand == None && w.channel.Some? ==> KeyOf(w.channel.value.state) == w.last)
  }

  class StateWatcher {
    var lastChallenge: B256
    var lastEpoch: U64
    var token: nat
    var inHand: Option<Watched>
    var channel: Option<Watched>

    function Value(): Watch
      reads this
    {
      Watch(Key(lastChallenge, lastEpoch), token, inHand, channel)
    }

    constructor ()
      ensures Value() == First()
    {
      lastChallenge, lastEpoch, token, inHand, channel := Zeros(), TWO64 - 1, 0, None, None;
    }

    /** The loop, over the answers of successive polls. */
    method Run(polls: seq<Option<WorkState>>)
      requires InStep(Value()) && inHand == None
      modifies this
      ensures InStep(Value()) && inHand == None
      ensures Value() == After(old(Value()), polls)
    {
      for i := 0 to |polls|
        invariant InStep(Value()) && inHand == None
        invariant Value() == After(old(Value()), polls[..i])
      {
        assert polls[..i + 1][..i] == polls[..i];
        match polls[i] {
          case None =>
          case Some(s) =>
            if s.challenge != lastChallenge || s.epoch != lastEpoch {
              lastChallenge := s.challenge;
              lastEpoch := s.epoch;
              token := token + 1;
            }
            inHand := Some(Watched(s, token));
            channel := inHand;
            inHand := None;
        }
      }
      assert polls[..|polls|] == polls;
    }
  }

  function After(w: Watch, polls: seq<Option<WorkState>>): Watch {
    if |polls| == 0 then w
    else
      var v := After(w, polls[..|polls| - 1]);
      match polls[|polls| - 1]
      case None => v
      case Some(s) => Send(Note(v, s))
  }

  /** The channel holds what the last successful poll found, all of it, whether or not the key changed. */
  lemma {:induction false} LastPollPublished(w: Watch, polls: seq<Option<WorkState>>, i: nat)
    requires i < |polls| && polls[i].Some? && forall j :: i < j < |polls| ==> polls[j] == None
    ensures After(w, polls).channel.Some? && After(w, polls).channel.value.state == polls[i].value
    decreases |polls|
  {
    if i < |polls| - 1 {
      LastPollPublished(w, polls[..|polls| - 1], i);
    }
  }

  /** The token counts the polls that found another challenge or epoch than the one before. */
  lemma {:induction false} TokenCountsChanges(w: Watch, polls: seq<Option<WorkState>>, ws: WorkState)
    ensures var v, v' := After(w, polls), After(w, polls + [Some(ws)]);
      v'.token == v.token + if ws.challenge == v.last.challenge && ws.epoch == v.last.epoch then 0 else 1
    ensures After(w, polls + [Some(ws)]).last == Key(ws.challenge, ws.epoch)
    ensures After(w, polls + [None]) == After(w, polls)
  {
    assert (polls + [Some(ws)])[..|polls|] == polls;
    var failed: seq<Option<WorkState>> := polls + [None];
    assert failed[..|polls|] == polls;
  }

  // ---------- Watcher and rounds, interleaved ----------

  /**
   A round on one device. `late` counts the dispatches it has begun since the token moved away from
   its snapshot.
   */
  datatype Round =
    | HasState(seen: Watched)
    | Looping(seen: Watched, snap: nat, late: nat)
    | Cleared(seen: Watched, snap: nat, late: nat, at: Key)

  /** A dispatch on a device, with the watcher's last key when the token was checked for it. */
  datatype Dispatch = Dispatch(device: nat, seen: Watched, snap: nat, at: Key)

  /** A nonce found on a state. */
  datatype Found = Found(seen: Watched, nonce: U256)

  /**
   A submission under way: its solution has passed validation against a state read earlier, and then the
   challenge, asked for once more, was the solution's. `asked` is the version published at that answer.
   */
  datatype Submission =
    | Validated(found: Found, against: Watched)
    | Confirmed(found: Found, against: Watched, asked: nat)

  /** A solution that was signed for, with what the channel held at that moment. */
  datatype Signed = Signed(found: Found, against: Watched, asked: nat, now: Watched)

  /** `sent` remembers all that the channel has held, `keys` the key of every version. */
  datatype State = State(w: Watch, rounds: map<nat, Round>, dispatches: seq<Dispatch>, found: seq<Found>,
                         submissions: map<nat, Submission>, signed: seq<Signed>, sent: seq<Watched>, keys: seq<Key>)

  function Init(): State {
    State(First(), map[], [], [], map[], [], [], [First().last])
  }

  /** A solution as a round reports it, for the challenge and epoch of its own state. */
  function Report(f: Found): Solution {
    var state := f.seen.state;
    Solution(state.epoch, state.challenge, f.nonce, HashNonce(state.challenge, f.nonce))
  }

  datatype Event =
    | Poll(s: WorkState)
    | SendState
    | ReadState(d: nat)
    | ReadToken(d: nat)
    | Check(d: nat)
    | Launch(d: nat)
    | EndRound(d: nat)
    | Find(d: nat, nonce: U256)
    | TakeUp(id: nat, i: nat, k: nat)
    | Answer(id: nat, recheck: Option<B256>)
    | Sign(id: nat)
    | Abandon(id: nat)

  /**
   One step. A submission takes up a found solution and validates it against a state that it read from
   the channel, now or earlier; the answer about the challenge, the signing, and anything the watcher and
   the rounds do in between are steps of their own.
   */
  function Next(s: State, e: Event): State {
    match e
    case Poll(ws) =>
      if s.w.inHand == None then
        s.(w := Note(s.w, ws), keys := if KeyOf(ws) != s.w.last then s.keys + [KeyOf(ws)] else s.keys)
      else s
    case SendState => if s.w.inHand.Some? then s.(w := Send(s.w), sent := s.sent + [s.w.inHand.value]) else s
    case ReadState(d) =>
      if d !in s.rounds && s.w.channel.Some? then s.(rounds := s.rounds[d := HasState(s.w.channel.value)]) else s
    case ReadToken(d) =>
      if d in s.rounds && s.rounds[d].HasState?
          then s.(rounds := s.rounds[d := Looping(s.rounds[d].seen, s.w.token, 0)]) else s
    case Check(d) =>
      if d in s.rounds && s.rounds[d].Looping? then
        var r := s.rounds[d];
        s.(rounds := if s.w.token == r.snap then s.rounds[d := Cleared(r.seen, r.snap, r.late, s.w.last)]
            else s.rounds - {d})
      else s
    case Launch(d) =>
      if d in s.rounds && s.rounds[d].Cleared? then
        var r := s.rounds[d];
        s.(rounds := s.rounds[d := Looping(r.seen, r.snap, r.late + if s.w.token == r.snap then 0 else 1)],
           dispatches := s.dispatches + [Dispatch(d, r.seen, r.snap, r.at)])
      else s
    case EndRound(d) => s.(rounds := s.rounds - {d})
    case Find(d, nonce) =>
      if d in s.rounds && s.rounds[d].Looping? then
        s.(rounds := s.rounds - {d}, found := s.found + [Found(s.rounds[d].seen, nonce)])
      else s
    case TakeUp(id, i, k) =>
      if id !in s.submissions && i < |s.found| && k < |s.sent| &&
         ValidateSolution(Report(s.found[i]), s.sent[k].state) == Accepted
      then s.(submissions := s.submissions[id := Validated(s.found[i], s.sent[k])])
      else s
    case Answer(id, recheck) =>
      if id in s.submissions && s.submissions[id].Validated? then
        var x := s.submissions[id];
        if recheck == Some(x.found.seen.state.challenge)
        then s.(submissions := s.submissions[id := Confirmed(x.found, x.against, Published(s.w))])
        else s.(submissions := s.submissions - {id})
      else s
    case Sign(id) =>
      if id in s.submissions && s.submissions[id].Confirmed? && s.sent != [] then
        var x := s.submissions[id];
        s.(submissions := s.submissions - {id},
           signed := s.signed + [Signed(x.found, x.against, x.asked, s.sent[|s.sent| - 1])])
      else s
    case Abandon(id) => s.(submissions := s.submissions - {id})
  }

  function Run(events: seq<Event>): State {
    if |events| == 0 then Init() else Next(Run(events[..|events| - 1]), events[|events| - 1])
  }

  ghost predicate Genuine(keys: seq<Key>, x: Watched) {
    x.version < |keys| && KeyOf(x.state) == keys[x.version]
  }

  ghost predicate RoundOk(w: Watch, keys: seq<Key>, r: Round) {
    && Genuine(keys, r.seen) && r.seen.version <= Published(w)
    && (r.Looping? ==> r.seen.version <= r.snap <= w.token && r.late <= 1 && (r.late == 1 ==> r.snap < w.token))
    && (r.Cleared? ==> r.seen.version <= r.snap <= w.token && r.late == 0 && r.snap < |keys| && r.at == keys[r.snap])
  }

  ghost predicate DispatchOk(keys: seq<Key>, d: Dispatch) {
    Genuine(keys, d.seen) && d.seen.version <= d.snap < |keys| && d.at == keys[d.snap]
  }

  /** A state that is or was published. */
  ghost predicate Known(w: Watch, keys: seq<Key>, x: Watched) {
    Genuine(keys, x) && x.version <= Published(w)
  }

  /** What validation established, and still holds: it speaks of the state that it was given. */
  ghost predicate Valid(f: Found, against: Watched) {
    ValidateSolution(Report(f), against.state) == Accepted
  }

  ghost predicate SubmissionOk(w: Watch, keys: seq<Key>, x: Submission) {
    && Known(w, keys, x.found.seen) && Known(w, keys, x.against) && Valid(x.found, x.against)
    && (x.Confirmed? ==> x.against.version <= x.asked <= Published(w))
  }

  ghost predicate SignedOk(w: Watch, keys: seq<Key>, x: Signed) {
    && Known(w, keys, x.found.seen) && Known(w, keys, x.against) && Known(w, keys, x.now) && Valid(x.found, x.against)
    && x.against.version <= x.asked <= x.now.version
  }

  /** The channel holds the last state sent, and none before it was newer. */
  ghost predicate SentOk(w: Watch, keys: seq<Key>, sent: seq<Watched>) {
    && (forall k :: 0 <= k < |sent| ==> Known(w, keys, sent[k]))
    && (if sent == [] then w.channel == None else w.channel == Some(sent[|sent| - 1]))
  }

  ghost predicate WatchOk(w: Watch, keys: seq<Key>) {
    && InStep(w)
    && |keys| == w.token + 1 && keys[w.token] == w.last
    && (forall v :: 0 < v < |keys| ==> keys[v - 1] != keys[v])
    && (w.inHand.Some? ==> Genuine(keys, w.inHand.value))
    && (w.channel.Some? ==> Genuine(keys, w.channel.value))
  }

  ghost predicate Inv(s: State) {
    && WatchOk(s.w, s.keys)
    && (forall d :: d in s.rounds ==> RoundOk(s.w, s.keys, s.rounds[d]))
    && (forall i :: 0 <= i < |s.dispatches| ==> DispatchOk(s.keys, s.dispatches[i]))
    && SentOk(s.w, s.keys, s.sent)
    && SubmitInv(s)
  }

  ghost predicate SubmitInv(s: State) {
    && (forall i :: 0 <= i < |s.found| ==> Known(s.w, s.keys, s.found[i].seen))
    && (forall id :: id in s.submissions ==> SubmissionOk(s.w, s.keys, s.submissions[id]))
    && (forall i :: 0 <= i < |s.signed| ==> SignedOk(s.w, s.keys, s.signed[i]))
  }

  /** A poll keeps what is known of the watcher, and of every round and dispatch. */
  lemma NotePoll(w: Watch, keys: seq<Key>, ws: WorkState)
    requires WatchOk(w, keys) && w.inHand == None
    ensures var keys' := if KeyOf(ws) != w.last then keys + [KeyOf(ws)] else keys;
      && WatchOk(Note(w, ws), keys')
      && (forall r :: RoundOk(w, keys, r) ==> RoundOk(Note(w, ws), keys', r))
      && (forall d :: DispatchOk(keys, d) ==> DispatchOk(keys', d))
      && (forall x :: Known(w, keys, x) ==> Known(Note(w, ws), keys', x))
      && Published(Note(w, ws)) == Published(w) && Note(w, ws).channel == w.channel
  {
  }

  lemma SendKeeps(w: Watch, keys: seq<Key>)
    requires WatchOk(w, keys) && w.inHand.Some?
    ensures WatchOk(Send(w), keys) && Send(w).channel == w.inHand
    ensures forall r :: RoundOk(w, keys, r) ==> RoundOk(Send(w), keys, r)
    ensures forall x :: Known(w, keys, x) ==> Known(Send(w), keys, x)
    ensures Known(Send(w), keys, w.inHand.value) && Published(w) <= Published(Send(w))
  {
  }

  /** What was known of submissions stays, as long as nothing known is forgotten. */
  lemma SubmitInvKept(s: State, s': State)
    requires SubmitInv(s)
    requires s'.found == s.found && s'.submissions == s.submissions && s'.signed == s.signed
    requires Published(s.w) <= Published(s'.w) && forall x :: Known(s.w, s.keys, x) ==> Known(s'.w, s'.keys, x)
    ensures SubmitInv(s')
  {
    hide Known, Valid, Published;
  }

  lemma SubmitKeeps(s: State, e: Event)
    requires Inv(s) && (e.TakeUp? || e.Answer? || e.Sign? || e.Abandon?)
    ensures Inv(Next(s, e))
  {
    hide RoundOk, DispatchOk, WatchOk, Genuine, Note, Send, ValidateSolution, Report;
  }

  lemma RoundKeeps(s: State, e: Event)
    requires Inv(s) && (e.ReadState? || e.ReadToken? || e.Check? || e.Launch? || e.EndRound? || e.Find?)
    ensures Inv(Next(s, e))
  {
    hide Genuine, Note, Send, Valid, SubmissionOk, SignedOk;
  }

  lemma PollKeeps(s: State, ws: WorkState)
    requires Inv(s)
    ensures Inv(Next(s, Poll(ws)))
  {
    hide WatchOk, RoundOk, DispatchOk, Known, SubmitInv, Note, Published;
    if s.w.inHand == None {
      NotePoll(s.w, s.keys, ws);
      SubmitInvKept(s, Next(s, Poll(ws)));
    }
  }

  lemma SendStateKeeps(s: State)
    requires Inv(s)
    ensures Inv(Next(s, SendState))
  {
    hide WatchOk, RoundOk, DispatchOk, Known, SubmitInv, Send, Published;
    if s.w.inHand.Some? {
      SendKeeps(s.w, s.keys);
      SubmitInvKept(s, Next(s, SendState));
    }
  }

  lemma NextInv(s: State, e: Event)
    requires Inv(s)
    ensures Inv(Next(s, e))
  {
    hide Inv, Next;
    match e
    case Poll(ws) => PollKeeps(s, ws);
    case SendState => SendStateKeeps(s);
    case _ =>
      if e.TakeUp? || e.Answer? || e.Sign? || e.Abandon? {
        SubmitKeeps(s, e);
      } else {
        RoundKeeps(s, e);
      }
  }

  lemma {:induction false} RunInv(events: seq<Event>)
    ensures Inv(Run(events))
  {
    hide Next, Inv;
    if |events| > 0 {
      RunInv(events[..|events| - 1]);
      NextInv(Run(events[..|events| - 1]), events[|events| - 1]);
    } else {
      InitInv();
    }
  }

  lemma InitInv()
    ensures Inv(Init())
  {
  }

  /** At any point of a run, a poll and its send publish that poll's state, all of it. */
  lemma PollThenSend(events: seq<Event>, ws: WorkState)
    requires Run(events).w.inHand == None
    ensures var s := Run(events + [Poll(ws)] + [SendState]);
      s.w.channel.Some? && s.w.channel.value.state == ws && s.sent != [] && s.sent[|s.sent| - 1].state == ws
  {
    hide Run;
    RunExtends(events, Poll(ws));
    RunExtends(events + [Poll(ws)], SendState);
  }

  /** In every run, published version <= token <= published version + 1, with equality once the state is sent. */
  lemma TokenLeadsByOne(events: seq<Event>)
    ensures var w := Run(events).w;
      && Published(w) <= w.token <= Published(w) + 1
      && (w.token == Published(w) + 1 <==> w.inHand.Some? && w.inHand.value.version != Published(w))
  {
    RunInv(events);
  }

  /**
   No round has a state newer than its token. A round whose state has its token's version dispatches
   only where the check just before found the watcher's last challenge and epoch to be the round's own.
   */
  lemma MatchedRoundIsCurrent(events: seq<Event>, i: nat)
    requires i < |Run(events).dispatches|
    ensures var d := Run(events).dispatches[i];
      d.seen.version <= d.snap && (d.seen.version == d.snap ==> KeyOf(d.seen.state) == d.at)
  {
    RunInv(events);
    var s := Run(events);
    assert DispatchOk(s.keys, s.dispatches[i]);
  }

  /** How many dispatches a device has begun. */
  function Begun(dispatches: seq<Dispatch>, d: nat): nat {
    if |dispatches| == 0 then 0
    else Begun(dispatches[..|dispatches| - 1], d) + if dispatches[|dispatches| - 1].device == d then 1 else 0
  }

  lemma RunExtends(events: seq<Event>, e: Event)
    ensures Run(events + [e]) == Next(Run(events), e)
  {
    hide Next;
    assert (events + [e])[..|events|] == events;
  }

  /** How many dispatches the device may still begin before it reads another state. */
  function StillToCome(s: State, d: nat): nat {
    if d in s.rounds && s.rounds[d].Cleared? then 1 else 0
  }

  /** The device's round, if it still has one, was begun under a token that has since moved. */
  ghost predicate Overtaken(s: State, d: nat) {
    d in s.rounds ==> !s.rounds[d].HasState? && s.rounds[d].snap < s.w.token
  }

  lemma OvertakenStays(s: State, e: Event, d: nat)
    requires Overtaken(s, d) && e != ReadState(d)
    ensures Overtaken(Next(s, e), d)
    ensures Begun(Next(s, e).dispatches, d) + StillToCome(Next(s, e), d) <= Begun(s.dispatches, d) + StillToCome(s, d)
  {
    hide KeyOf, ValidateSolution, Report, Published;
    if e.Launch? && e.d in s.rounds && s.rounds[e.d].Cleared? {
      var all := Next(s, e).dispatches;
      assert all[..|all| - 1] == s.dispatches;
    }
  }

  /**
   After a change, and until the device reads a state again, its round begins at most the one dispatch
   it had already checked for, and none if it had not: over every continuation of every run.
   */
  lemma {:induction false} OneLateDispatch(events: seq<Event>, more: seq<Event>, d: nat)
    requires Overtaken(Run(events), d) && ReadState(d) !in more
    ensures Overtaken(Run(events + more), d)
    ensures Begun(Run(events + more).dispatches, d) + StillToCome(Run(events + more), d)
         <= Begun(Run(events).dispatches, d) + StillToCome(Run(events), d)
    decreases |more|
  {
    hide Next, Run, Overtaken, Begun, StillToCome;
    if |more| == 0 {
      assert events + more == events;
    } else {
      var init, e := more[..|more| - 1], more[|more| - 1];
      assert more == init + [e];
      assert events + more == (events + init) + [e];
      OneLateDispatch(events, init, d);
      RunExtends(events + init, e);
      OvertakenStays(Run(events + init), e, d);
    }
  }

  /** The count that each round keeps of its late dispatches never passes one, and one means that it was overtaken. */
  lemma LateCount(events: seq<Event>, d: nat)
    requires var s := Run(events); d in s.rounds && s.rounds[d].Looping?
    ensures var s := Run(events); s.rounds[d].late <= 1 && (s.rounds[d].late == 1 ==> Overtaken(s, d))
  {
    hide Run;
    RunInv(events);
    var s := Run(events);
    assert RoundOk(s.w, s.keys, s.rounds[d]);
  }

  // ---------- The search loop under the watcher ----------

  /** Tokens only grow, and a token that has not moved stands for the same challenge and epoch. */
  lemma {:induction false} TokenTells(events: seq<Event>, j: nat, k: nat)
    requires j <= k <= |events|
    ensures var s, t := Run(events[..j]).w, Run(events[..k]).w;
      s.token <= t.token && (s.token == t.token ==> s.last == t.last)
  {
    hide Next, Run;
    if j < k {
      TokenTells(events, j, k - 1);
      assert events[..k] == events[..k - 1] + [events[k - 1]];
      RunExtends(events[..k - 1], events[k - 1]);
      StepTells(Run(events[..k - 1]), events[k - 1]);
    }
  }

  lemma StepTells(s: State, e: Event)
    ensures s.w.token <= Next(s, e).w.token && (s.w.token == Next(s, e).w.token ==> s.w.last == Next(s, e).w.last)
  {
  }

  /** The token reads of a search loop's turns are those of a run, at the given moments. */
  ghost predicate ReadsTokens(events: seq<Event>, start: nat, at: seq<nat>, env: seq<GpuMiner.Turn>) {
    && start <= |events| && |at| == |env|
    && (forall m :: 0 <= m < |at| ==> start <= at[m] <= |events|)
    && (forall m :: 0 <= m < |at| ==>
          env[m].tokenMoved == (Run(events[..at[m]]).w.token != Run(events[..start]).w.token))
  }

  /**
   The same, of the search loop itself, begun under a watcher at one moment and checking its token at
   later ones. If the watcher has seen another challenge or epoch at any moment up to the check of
   turn k, even one that has changed back since, then dispatch k is not begun.
   */
  lemma NoDispatchAfterChange(events: seq<Event>, start: nat, at: seq<nat>, env: seq<GpuMiner.Turn>, lens: seq<nat>,
                              k: nat, j: nat)
    requires ReadsTokens(events, start, at, env)
    requires |lens| <= |env| && GpuMiner.Checked(env, lens)
    requires k < |env| && start <= j <= at[k] && Run(events[..j]).w.last != Run(events[..start]).w.last
    ensures |lens| <= k
  {
    hide Run;
    TokenTells(events, start, j);
    TokenTells(events, j, at[k]);
  }

  // ---------- Rounds that start stale ----------

  lemma Extend(events: seq<Event>, e: Event) returns (longer: seq<Event>)
    ensures longer == events + [e] && Run(longer) == Next(Run(events), e)
  {
    longer := events + [e];
    RunExtends(events, e);
  }

  lemma RunStart()
    ensures Run([]) == Init()
  {
  }

  /** A round has begun on `one` under the token of `two`, which is published by now. */
  ghost predicate StartedStale(s: State, one: WorkState, two: WorkState) {
    && s.rounds == map[0 := Looping(Watched(one, 1), 2, 0)]
    && s.w.token == 2 && s.w.last == KeyOf(two) && s.w.channel == Some(Watched(two, 2))
  }

  lemma StaleStart(one: WorkState, two: WorkState) returns (events: seq<Event>)
    requires KeyOf(one) != First().last && KeyOf(two) != KeyOf(one)
    ensures StartedStale(Run(events), one, two) && Run(events).dispatches == []
  {
    hide Run;
    RunStart();
    events := Extend([], Poll(one));
    events := Extend(events, SendState);
    events := Extend(events, ReadState(0));
    events := Extend(events, Poll(two));
    events := Extend(events, ReadToken(0));
    assert Run(events).rounds == map[0 := Looping(Watched(one, 1), 2, 0)];
    events := Extend(events, SendState);
  }

  /**
   A state older than the token can be mined on, for as long as no further change comes: the token is read
   between a bump and its send. Any number of dispatches is begun on `one` after `two` was published.
   */
  lemma {:induction false} StaleRound(one: WorkState, two: WorkState, n: nat) returns (events: seq<Event>)
    requires KeyOf(one) != First().last && KeyOf(two) != KeyOf(one)
    ensures StartedStale(Run(events), one, two)
    ensures Run(events).dispatches == seq(n, _ => Dispatch(0, Watched(one, 1), 2, KeyOf(two)))
  {
    hide Run;
    if n == 0 {
      events := StaleStart(one, two);
    } else {
      events := StaleRound(one, two, n - 1);
      events := Extend(events, Check(0));
      events := Extend(events, Launch(0));
      assert Run(events).rounds == map[0 := Looping(Watched(one, 1), 2, 0)];
    }
  }

  /**
   A round gets a state as new as its token exactly if, when it reads the token, the channel still
   holds the version it read and no later one waits to be sent.
   */
  lemma MatchedExactly(events: seq<Event>, d: nat)
    requires var s := Run(events); d in s.rounds && s.rounds[d].HasState?
    ensures var s := Run(events); var r := Next(s, ReadToken(d)).rounds[d];
      && r.Looping?
      && (r.seen.version == r.snap <==>
            && r.seen.version == Published(s.w)
            && (s.w.inHand == None || s.w.inHand.value.version == Published(s.w)))
  {
    hide Run;
    RunInv(events);
    var s := Run(events);
    assert RoundOk(s.w, s.keys, s.rounds[d]);
  }

  // ---------- What stops a stale solution, and what does not ----------

  /** The solution is a proof under the targets of a state. */
  ghost predicate Proves(f: Found, x: Watched) {
    && ProofIsValid(f.seen.state.challenge, f.nonce, x.state.effectiveTarget)
    && ProofIsValid(f.seen.state.challenge, f.nonce, x.state.target)
  }

  lemma ValidMeans(f: Found, x: Watched)
    ensures Valid(f, x) <==> KeyOf(f.seen.state) == KeyOf(x.state) && Proves(f, x)
  {
    hide HashNonce;
  }

  /**
   In every run, validation turns a solution away as stale exactly if the version it was found on and the
   version it is validated against have different keys, as consecutive versions always have; and it takes
   the solution up exactly if the keys agree and it is a proof under the targets of the state it was given.
   */
  lemma StaleSolutionStopped(events: seq<Event>, id: nat, i: nat, k: nat)
    requires var s := Run(events); id !in s.submissions && i < |s.found| && k < |s.sent|
    ensures var s := Run(events); var f, against := s.found[i], s.sent[k];
      var stale := ValidateSolution(Report(f), against.state) in {StaleEpoch, StaleChallenge};
      && f.seen.version < |s.keys| && against.version <= Published(s.w) < |s.keys|
      && (stale <==> s.keys[f.seen.version] != s.keys[against.version])
      && (against.version == f.seen.version + 1 ==> stale)
      && (id in Next(s, TakeUp(id, i, k)).submissions <==>
            s.keys[f.seen.version] == s.keys[against.version] && Proves(f, against))
  {
    hide Run, HashNonce;
    RunInv(events);
    var s := Run(events);
    assert Known(s.w, s.keys, s.found[i].seen) && Known(s.w, s.keys, s.sent[k]);
    ValidMeans(s.found[i], s.sent[k]);
  }

  /**
   The second guard, in every run: if the answer is the challenge of the version numbered v, whether published
   by now, waiting or long gone, a validated submission goes on exactly if that version has its own challenge. A
   change of the epoch alone passes, and so does one that comes after the answer.
   */
  lemma AnswerStops(events: seq<Event>, id: nat, v: nat)
    requires var s := Run(events); id in s.submissions && s.submissions[id].Validated? && v < |s.keys|
    ensures var s := Run(events); var x := s.submissions[id];
      && x.against.version < |s.keys|
      && (id in Next(s, Answer(id, Some(s.keys[v].challenge))).submissions <==>
            s.keys[v].challenge == s.keys[x.against.version].challenge)
  {
    hide Run, Proves, Valid, SentOk;
    RunInv(events);
    var s := Run(events);
    var x := s.submissions[id];
    assert SubmissionOk(s.w, s.keys, x);
    ValidMeans(x.found, x.against);
  }

  /**
   In every run, what was signed for is a proof under the targets, and for the challenge and epoch, of the version
   it was validated against, which was published, and its challenge was confirmed no earlier than that. It is for
   the challenge and epoch published at the signing exactly if that version and the one published then have the same
   key; so it is if they are the same version, and is not if they are consecutive.
   */
  lemma SignedExactly(events: seq<Event>, i: nat)
    requires i < |Run(events).signed|
    ensures var s := Run(events); var x := s.signed[i];
      && KeyOf(x.found.seen.state) == KeyOf(x.against.state) && Proves(x.found, x.against)
      && x.against.version <= x.asked <= x.now.version <= Published(s.w) < |s.keys|
      && (KeyOf(x.found.seen.state) == KeyOf(x.now.state) <==> s.keys[x.against.version] == s.keys[x.now.version])
      && (x.now.version == x.against.version ==> KeyOf(x.found.seen.state) == KeyOf(x.now.state))
      && (x.now.version == x.against.version + 1 ==> KeyOf(x.found.seen.state) != KeyOf(x.now.state))
  {
    hide Run, ProofIsValid;
    RunInv(events);
    var s := Run(events);
    var x := s.signed[i];
    assert SignedOk(s.w, s.keys, x);
    ValidMeans(x.found, x.against);
  }

  /**
   "What is signed for is current" is false: for all pairs of different states, and every nonce that proves the
   first, a run signs for it while the channel holds the second. Both guards were passed in time.
   */
  lemma SignedStale(one: WorkState, two: WorkState, nonce: U256) returns (events: seq<Event>)
    requires KeyOf(one) != First().last && KeyOf(two) != KeyOf(one)
    requires Proves(Found(Watched(one, 1), nonce), Watched(one, 1))
    ensures var s := Run(events); var mine := Watched(one, 1);
      && s.w.channel == Some(Watched(two, 2))
      && s.signed == [Signed(Found(mine, nonce), mine, 1, Watched(two, 2))]
  {
    hide Run, Proves, ValidateSolution, Report;
    var mine := Watched(one, 1);
    ValidMeans(Found(mine, nonce), mine);
    events := FoundOne(one, nonce);
    events := Extend(events, TakeUp(0, 0, 0));
    assert Run(events).submissions == map[0 := Validated(Found(mine, nonce), mine)];
    events := Extend(events, Answer(0, Some(one.challenge)));
    assert Run(events).submissions == map[0 := Confirmed(Found(mine, nonce), mine, 1)];
    events := Extend(events, Poll(two));
    events := Extend(events, SendState);
    events := Extend(events, Sign(0));
  }

  /** A round on the published state has found a nonce. */
  lemma FoundOne(one: WorkState, nonce: U256) returns (events: seq<Event>)
    requires KeyOf(one) != First().last
    ensures var s := Run(events);
      && s.w == Watch(KeyOf(one), 1, None, Some(Watched(one, 1))) && s.sent == [Watched(one, 1)]
      && s.found == [Found(Watched(one, 1), nonce)] && s.submissions == map[] && s.signed == []
  {
    hide Run;
    RunStart();
    events := Extend([], Poll(one));
    events := Extend(events, SendState);
    events := Extend(events, ReadState(0));
    events := Extend(events, ReadToken(0));
    events := Extend(events, Check(0));
    events := Extend(events, Launch(0));
    assert Run(events).rounds == map[0 := Looping(Watched(one, 1), 1, 0)];
    events := Extend(events, Find(0, nonce));
  }
}
