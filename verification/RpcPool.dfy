/** The pool of RPC endpoints (rpc_pool.rs): health refresh, choice of endpoint, broadcast. */
module RpcPool {
  import opened Text

  /** What an endpoint is known to be; the texts kept for display are left out. */
  datatype Health = Health(healthy: bool, latency: nat, block: nat, chain: nat, errorCount: nat)

  datatype Endpoint = Endpoint(url: string, health: Health)

  /** The answer to a check: block and chain with the time it took, or an error. */
  datatype Probe = Probe(latency: nat, block: nat, chain: nat)
  datatype Update = Update(url: string, answer: Option<Probe>)

  // ---------- The order of endpoints ----------

  /** Strictly earlier: healthy before unhealthy, then by latency. */
  predicate Before(a: Endpoint, b: Endpoint) {
    if a.health.healthy == b.health.healthy then a.health.latency < b.health.latency else a.health.healthy
  }

  ghost predicate Ordered(s: seq<Endpoint>) {
    forall i, j :: 0 <= i < j < |s| ==> !Before(s[j], s[i])
  }

  /** Insertion after everything that is not later. */
  function Insert(s: seq<Endpoint>, e: Endpoint): seq<Endpoint> {
    if |s| == 0 || !Before(e, s[|s| - 1]) then s + [e] else Insert(s[..|s| - 1], e) + [s[|s| - 1]]
  }

  /** A stable sort. */
  function Sort(s: seq<Endpoint>): seq<Endpoint> {
    if |s| == 0 then [] else Insert(Sort(s[..|s| - 1]), s[|s| - 1])
  }

  /** The endpoints of one sort key, in order. */
  function WithKey(s: seq<Endpoint>, healthy: bool, latency: nat): seq<Endpoint> {
    if |s| == 0 then []
    else
      var e := s[|s| - 1];
      WithKey(s[..|s| - 1], healthy, latency) +
        if e.health.healthy == healthy && e.health.latency == latency then [e] else []
  }

  lemma {:induction false} InsertPermutes(s: seq<Endpoint>, e: Endpoint)
    ensures multiset(Insert(s, e)) == multiset(s) + multiset{e}
  {
    if |s| > 0 && Before(e, s[|s| - 1]) {
      InsertPermutes(s[..|s| - 1], e);
      assert s == s[..|s| - 1] + [s[|s| - 1]];
    }
  }

  lemma {:induction false} InsertOrders(s: seq<Endpoint>, e: Endpoint)
    requires Ordered(s)
    ensures Ordered(Insert(s, e))
  {
    if |s| > 0 && Before(e, s[|s| - 1]) {
      var init, last := s[..|s| - 1], s[|s| - 1];
      InsertOrders(init, e);
      InsertPermutes(init, e);
      forall x | x in Insert(init, e)
        ensures !Before(last, x)
      {
        assert x in multiset(Insert(init, e));
        assert x in multiset(init) || x == e;
      }
    }
  }

  lemma WithKeyLast(s: seq<Endpoint>, e: Endpoint, h: bool, l: nat)
    ensures WithKey(s + [e], h, l) == WithKey(s, h, l) +
        if e.health.healthy == h && e.health.latency == l then [e] else []
  {
    assert (s + [e])[..|s|] == s;
  }

  lemma {:induction false} InsertIsStable(s: seq<Endpoint>, e: Endpoint, h: bool, l: nat)
    ensures WithKey(Insert(s, e), h, l) == WithKey(s + [e], h, l)
  {
    hide WithKey;
    if |s| > 0 && Before(e, s[|s| - 1]) {
      var init, last := s[..|s| - 1], s[|s| - 1];
      InsertIsStable(init, e, h, l);
      assert s == init + [last] && Insert(s, e) == Insert(init, e) + [last];
      hide Insert;
      WithKeyLast(Insert(init, e), last, h, l);
      WithKeyLast(init, e, h, l);
      WithKeyLast(init, last, h, l);
      WithKeyLast(s, e, h, l);
    }
  }

  /** The sort orders, permutes, and keeps endpoints of equal rank in their order. */
  lemma {:induction false} SortIsStable(s: seq<Endpoint>)
    ensures Ordered(Sort(s)) && multiset(Sort(s)) == multiset(s)
    ensures forall h, l :: WithKey(Sort(s), h, l) == WithKey(s, h, l)
  {
    if |s| > 0 {
      var init, last := s[..|s| - 1], s[|s| - 1];
      SortIsStable(init);
      InsertOrders(Sort(init), last);
      InsertPermutes(Sort(init), last);
      assert s == init + [last];
      forall h, l
        ensures WithKey(Sort(s), h, l) == WithKey(s, h, l)
      {
        InsertIsStable(Sort(init), last, h, l);
        WithKeyLast(Sort(init), last, h, l);
        WithKeyLast(init, last, h, l);
      }
    }
  }

  // ---------- Refreshing ----------

  function MaxOf(a: nat, b: nat): nat {
    if a < b then b else a
  }

  /** The highest block any endpoint answered with. */
  function Freshest(updates: seq<Update>): nat {
    if |updates| == 0 then 0
    else
      var rest := Freshest(updates[..|updates| - 1]);
      match updates[|updates| - 1].answer
      case Some(p) => MaxOf(rest, p.block)
      case None => rest
  }

  lemma {:induction false} FreshestIsMax(updates: seq<Update>)
    ensures forall i :: 0 <= i < |updates| && updates[i].answer.Some? ==>
        updates[i].answer.value.block <= Freshest(updates)
    ensures Freshest(updates) == 0
         || exists i :: 0 <= i < |updates| && updates[i].answer.Some?
              && updates[i].answer.value.block == Freshest(updates)
  {
    if |updates| > 0 {
      var init := updates[..|updates| - 1];
      FreshestIsMax(init);
      if Freshest(updates) == Freshest(init) && Freshest(init) != 0 {
        var i :| 0 <= i < |init| && init[i].answer.Some? && init[i].answer.value.block == Freshest(init);
        assert updates[i] == init[i];
      } else if Freshest(updates) != 0 {
        assert updates[|updates| - 1].answer.Some? && updates[|updates| - 1].answer.value.block == Freshest(updates);
      }
    }
  }

  ghost predicate Asked(updates: seq<Update>, url: string) {
    exists u :: u in updates && u.url == url
  }

  /** The first update for a URL. */
  function Lookup(updates: seq<Update>, url: string): (r: Option<Update>)
    ensures r.Some? ==> r.value in updates && r.value.url == url
    ensures r.None? ==> forall u :: u in updates ==> u.url != url
    ensures r.Some? ==> exists i :: 0 <= i < |updates| && r.value == updates[i] && !Asked(updates[..i], url)
  {
    if |updates| == 0 then None
    else if updates[0].url == url then Some(updates[0])
    else Lookup(updates[1..], url)
  }

  datatype Settings = Settings(chainId: nat, maxBlockLag: nat)

  function Lag(freshest: nat, block: nat): nat {
    if freshest < block then 0 else freshest - block
  }

  /** The health of an endpoint after a refresh. */
  function Renew(cfg: Settings, updates: seq<Update>, ep: Endpoint): Endpoint {
    match Lookup(updates, ep.url)
    case None => ep
    case Some(Update(_, Some(p))) =>
      var healthy := p.chain == cfg.chainId && Lag(Freshest(updates), p.block) <= cfg.maxBlockLag;
      ep.(health := Health(healthy, p.latency, p.block, p.chain, 0))
    case Some(Update(_, None)) =>
      ep.(health := ep.health.(healthy := false, errorCount := ep.health.errorCount + 1))
  }

  function RenewAll(cfg: Settings, updates: seq<Update>, eps: seq<Endpoint>): (r: seq<Endpoint>)
    ensures |r| == |eps|
  {
    seq(|eps|, i requires 0 <= i < |eps| => Renew(cfg, updates, eps[i]))
  }

  /** Every endpoint was asked, as the code does. */
  ghost predicate AllAsked(updates: seq<Update>, eps: seq<Endpoint>) {
    forall i :: 0 <= i < |eps| ==> exists j :: 0 <= j < |updates| && updates[j].url == eps[i].url
  }

  /** What the first answer for the URL measured. */
  ghost predicate MeasuredAs(updates: seq<Update>, url: string, p: Probe) {
    Lookup(updates, url) == Some(Update(url, Some(p)))
  }

  /** Endpoint and answer that make it healthy. */
  ghost predicate Fit(cfg: Settings, updates: seq<Update>, url: string) {
    exists p ::
      && MeasuredAs(updates, url, p)
      && p.chain == cfg.chainId
      && forall j :: 0 <= j < |updates| && updates[j].answer.Some? ==>
           updates[j].answer.value.block <= p.block + cfg.maxBlockLag
  }

  /** Column by column: an answer is stored as it was measured, an error counted, and silence changes nothing. */
  lemma RenewStores(cfg: Settings, updates: seq<Update>, ep: Endpoint)
    ensures var h, h' := ep.health, Renew(cfg, updates, ep).health;
      && Renew(cfg, updates, ep).url == ep.url
      && (forall p :: MeasuredAs(updates, ep.url, p) ==>
            h'.latency == p.latency && h'.block == p.block && h'.chain == p.chain && h'.errorCount == 0)
      && (Lookup(updates, ep.url) == Some(Update(ep.url, None)) ==>
            && !h'.healthy && h'.errorCount == h.errorCount + 1
            && h'.latency == h.latency && h'.block == h.block && h'.chain == h.chain)
      && (Lookup(updates, ep.url) == None ==> h' == h)
  {
    hide Freshest;
  }

  lemma RenewFit(cfg: Settings, updates: seq<Update>, ep: Endpoint)
    requires Lookup(updates, ep.url).Some?
    ensures Renew(cfg, updates, ep).url == ep.url
    ensures Renew(cfg, updates, ep).health.healthy <==> Fit(cfg, updates, ep.url)
    ensures Renew(cfg, updates, ep).health.healthy ==> Renew(cfg, updates, ep).health.chain == cfg.chainId
  {
    FreshestIsMax(updates);
    var u := Lookup(updates, ep.url).value;
    if u.answer.Some? {
      var p := u.answer.value;
      assert MeasuredAs(updates, ep.url, p);
      if Fit(cfg, updates, ep.url) {
        assert Freshest(updates) <= p.block + cfg.maxBlockLag;
      }
    }
  }

  /** refresh_group on the vector. */
  function Refreshed(cfg: Settings, updates: seq<Update>, eps: seq<Endpoint>): seq<Endpoint> {
    Sort(RenewAll(cfg, updates, eps))
  }

  /** How many endpoints are healthy. */
  function Healthy(eps: seq<Endpoint>): (n: nat)
    ensures n <= |eps|
  {
    if |eps| == 0 then 0 else Healthy(eps[..|eps| - 1]) + if eps[|eps| - 1].health.healthy then 1 else 0
  }

  /** In an ordered vector the healthy endpoints come first. */
  lemma {:induction false} HealthyPrefix(eps: seq<Endpoint>)
    requires Ordered(eps)
    ensures forall i :: 0 <= i < |eps| ==> (eps[i].health.healthy <==> i < Healthy(eps))
  {
    if |eps| > 0 {
      HealthyPrefix(eps[..|eps| - 1]);
      if eps[|eps| - 1].health.healthy {
        forall i | 0 <= i < |eps| - 1
          ensures eps[i].health.healthy
        {
          assert !Before(eps[|eps| - 1], eps[i]);
        }
        if |eps| > 1 {
          assert eps[..|eps| - 1][|eps| - 2].health.healthy;
        }
      }
    }
  }

  lemma RenewAllFit(cfg: Settings, updates: seq<Update>, eps: seq<Endpoint>, e: Endpoint)
    requires AllAsked(updates, eps) && e in RenewAll(cfg, updates, eps)
    ensures e.health.healthy <==> Fit(cfg, updates, e.url)
    ensures forall p :: MeasuredAs(updates, e.url, p) ==> e.health.latency == p.latency && e.health.block == p.block
    ensures exists i :: 0 <= i < |eps| && e == Renew(cfg, updates, eps[i])
  {
    var i :| 0 <= i < |eps| && e == Renew(cfg, updates, eps[i]);
    var j :| 0 <= j < |updates| && updates[j].url == eps[i].url;
    assert updates[j] in updates;
    RenewFit(cfg, updates, eps[i]);
    RenewStores(cfg, updates, eps[i]);
  }

  /**
   A refresh permutes the endpoints, each with its renewed health. Those that answered first for their
   URL on the expected chain, no further than the allowed lag behind any answer, and only those, form
   a prefix, sorted by latency; ties keep their order.
   */
  lemma RefreshOrders(cfg: Settings, updates: seq<Update>, eps: seq<Endpoint>)
    requires AllAsked(updates, eps)
    ensures var r := Refreshed(cfg, updates, eps); var n := Healthy(r);
      && multiset(r) == multiset(RenewAll(cfg, updates, eps)) && |r| == |eps| && Ordered(r)
      && (forall i :: 0 <= i < |r| ==> (i < n <==> Fit(cfg, updates, r[i].url)))
      && (forall i, p :: 0 <= i < |r| && MeasuredAs(updates, r[i].url, p) ==>
            r[i].health.latency == p.latency && r[i].health.block == p.block)
      && (forall i, j :: 0 <= i < j < n ==> r[i].health.latency <= r[j].health.latency)
      && (forall h, l :: WithKey(r, h, l) == WithKey(RenewAll(cfg, updates, eps), h, l))
  {
    hide Fit, RenewAll, Sort, WithKey, MeasuredAs;
    var all := RenewAll(cfg, updates, eps);
    SortIsStable(all);
    var r := Refreshed(cfg, updates, eps);
    assert |r| == |multiset(r)| == |multiset(all)| == |all|;
    HealthyPrefix(r);
    forall i | 0 <= i < |r|
      ensures r[i].health.healthy <==> Fit(cfg, updates, r[i].url)
      ensures forall p :: MeasuredAs(updates, r[i].url, p) ==>
                r[i].health.latency == p.latency && r[i].health.block == p.block
    {
      assert r[i] in multiset(r);
      RenewAllFit(cfg, updates, eps, r[i]);
    }
    forall i, j | 0 <= i < j < Healthy(r)
      ensures r[i].health.latency <= r[j].health.latency
    {
      assert !Before(r[j], r[i]);
    }
  }

  // ---------- Broadcasting ----------

  /** A node's reply, its error text already recognised or not as naming a known transaction. */
  datatype Reply = Taken(hash: string) | Known | Refused(reason: string)

  datatype Outcome = Outcome(txHash: string, alreadyKnown: nat, accepted: nat, errors: seq<string>)

  function Count(replies: seq<Reply>, what: Reply -> bool): nat {
    if |replies| == 0 then 0 else Count(replies[..|replies| - 1], what) + if what(replies[|replies| - 1]) then 1 else 0
  }

  function IsTaken(r: Reply): bool { r.Taken? }
  function IsKnown(r: Reply): bool { r.Known? }

  /** The reasons of the refusals, in order. */
  function Reasons(replies: seq<Reply>): seq<string> {
    if |replies| == 0 then []
    else
      var last := replies[|replies| - 1];
      Reasons(replies[..|replies| - 1]) + if last.Refused? then [last.reason] else []
  }

  /** Every reply is counted exactly once. */
  lemma {:induction false} RepliesAddUp(replies: seq<Reply>)
    ensures Count(replies, IsTaken) + Count(replies, IsKnown) + |Reasons(replies)| == |replies|
  {
    if |replies| > 0 {
      RepliesAddUp(replies[..|replies| - 1]);
    }
  }

  /** The places of the replies that are so. */
  ghost function Places(replies: seq<Reply>, what: Reply -> bool): set<int> {
    set i | 0 <= i < |replies| && what(replies[i])
  }

  lemma PlacesLast(replies: seq<Reply>, what: Reply -> bool)
    requires |replies| > 0
    ensures var n := |replies| - 1;
      && Places(replies, what) == Places(replies[..n], what) + (if what(replies[n]) then {n} else {})
      && n !in Places(replies[..n], what)
  {
  }

  lemma {:induction false} CountIs(replies: seq<Reply>, what: Reply -> bool)
    ensures Count(replies, what) == |Places(replies, what)|
  {
    if |replies| > 0 {
      hide Places;
      PlacesLast(replies, what);
      CountIs(replies[..|replies| - 1], what);
    } else {
      assert Places(replies, what) == {};
    }
  }

  /** What is counted: the replies that took the transaction, and those that knew it. */
  lemma CountsAre(replies: seq<Reply>)
    ensures Count(replies, IsTaken) == |set i | 0 <= i < |replies| && replies[i].Taken?|
    ensures Count(replies, IsKnown) == |set i | 0 <= i < |replies| && replies[i].Known?|
  {
    CountIs(replies, IsTaken);
    CountIs(replies, IsKnown);
    assert Places(replies, IsTaken) == set i | 0 <= i < |replies| && replies[i].Taken?;
    assert Places(replies, IsKnown) == set i | 0 <= i < |replies| && replies[i].Known?;
  }

  /** The reason of a refusal stands behind those of the refusals before it. */
  lemma {:induction false} ReasonAt(replies: seq<Reply>, i: nat)
    requires i < |replies| && replies[i].Refused?
    ensures |Reasons(replies[..i])| < |Reasons(replies)|
    ensures Reasons(replies)[|Reasons(replies[..i])|] == replies[i].reason
  {
    var init := replies[..|replies| - 1];
    if i < |replies| - 1 {
      ReasonAt(init, i);
      assert init[..i] == replies[..i];
    }
  }

  function TextOf(r: Reply): string
    requires !r.Refused?
  {
    if r.Taken? then r.hash else "already_known"
  }

  /** The URLs of the endpoints that are healthy, or of all where `any` holds. */
  function Chosen(eps: seq<Endpoint>, any: bool): seq<string> {
    if |eps| == 0 then []
    else Chosen(eps[..|eps| - 1], any) + if any || eps[|eps| - 1].health.healthy then [eps[|eps| - 1].url] else []
  }

  lemma {:induction false} ChosenSize(eps: seq<Endpoint>)
    ensures |Chosen(eps, false)| == Healthy(eps) && |Chosen(eps, true)| == |eps|
  {
    if |eps| > 0 {
      ChosenSize(eps[..|eps| - 1]);
    }
  }

  /** The healthy endpoints, or every endpoint where none is healthy. */
  function Targets(eps: seq<Endpoint>): seq<string> {
    if Chosen(eps, false) == [] then Chosen(eps, true) else Chosen(eps, false)
  }

  /** The text is that of the first reply, among the first n, that is no refusal. */
  ghost predicate FirstText(replies: seq<Reply>, n: nat, text: string)
    requires n <= |replies|
  {
    exists k :: 0 <= k < n && !replies[k].Refused? && text == TextOf(replies[k]) && forall j :: 0 <= j < k ==>
        replies[j].Refused?
  }

  /** In an ordered pool, a healthy endpoint of least latency; without a healthy one, the first. */
  ghost predicate Best(eps: seq<Endpoint>, k: nat) {
    && k < |eps|
    && (Healthy(eps) == 0 ==> k == 0)
    && (Healthy(eps) > 0 ==> eps[k].health.healthy)
    && (Healthy(eps) > 0 && Ordered(eps) ==>
          forall j :: 0 <= j < |eps| && eps[j].health.healthy ==> eps[k].health.latency <= eps[j].health.latency)
  }

  /** Which URL is tried when: the k-th is that of the k-th healthy endpoint, or if none is, of the k-th endpoint. */
  lemma {:induction false} TriedAt(eps: seq<Endpoint>, i: nat)
    requires i < |eps|
    ensures Healthy(eps) == 0 ==> |Targets(eps)| == |eps| && Targets(eps)[i] == eps[i].url
    ensures eps[i].health.healthy ==>
              Healthy(eps[..i]) < |Targets(eps)| == Healthy(eps) && Targets(eps)[Healthy(eps[..i])] == eps[i].url
  {
    ChosenSize(eps);
    SomeHealthy(eps);
    ChosenSize(eps[..i]);
    ChosenAt(eps, true, i);
    if eps[i].health.healthy {
      ChosenAt(eps, false, i);
    }
  }

  lemma {:induction false} ChosenAt(eps: seq<Endpoint>, any: bool, i: nat)
    requires i < |eps| && (any || eps[i].health.healthy)
    ensures |Chosen(eps[..i], any)| < |Chosen(eps, any)|
    ensures Chosen(eps, any)[|Chosen(eps[..i], any)|] == eps[i].url
  {
    var init := eps[..|eps| - 1];
    if i < |eps| - 1 {
      ChosenAt(init, any, i);
      assert init[..i] == eps[..i];
    }
  }

  /** Every healthy endpoint is tried, or, if there is none, every endpoint. */
  lemma TriedCount(eps: seq<Endpoint>)
    ensures |Targets(eps)| == if Healthy(eps) > 0 then Healthy(eps) else |eps|
  {
    ChosenSize(eps);
  }

  /** If any endpoint is fit, this one is, and none that is fit was measured at less latency. */
  ghost predicate LeastFit(cfg: Settings, updates: seq<Update>, eps: seq<Endpoint>, k: nat)
    requires k < |eps|
  {
    forall j, p :: 0 <= j < |eps| && Fit(cfg, updates, eps[j].url) && MeasuredAs(updates, eps[j].url, p) ==>
      Fit(cfg, updates, eps[k].url) && exists q :: MeasuredAs(updates, eps[k].url, q) && q.latency <= p.latency
  }

  lemma FitMeasured(cfg: Settings, updates: seq<Update>, url: string) returns (p: Probe)
    requires Fit(cfg, updates, url)
    ensures MeasuredAs(updates, url, p)
  {
    p :| MeasuredAs(updates, url, p) && p.chain == cfg.chainId;
  }

  lemma BestIsLeastFit(cfg: Settings, updates: seq<Update>, eps: seq<Endpoint>, k: nat)
    requires AllAsked(updates, eps) && Best(Refreshed(cfg, updates, eps), k)
    ensures k < |Refreshed(cfg, updates, eps)| && LeastFit(cfg, updates, Refreshed(cfg, updates, eps), k)
  {
    hide Refreshed, Fit, AllAsked, Ordered, MeasuredAs;
    RefreshOrders(cfg, updates, eps);
    var r := Refreshed(cfg, updates, eps);
    HealthyPrefix(r);
    if Fit(cfg, updates, r[k].url) {
      var q := FitMeasured(cfg, updates, r[k].url);
      assert r[k].health.latency == q.latency;
    }
  }

  class RpcPool {
    var read: seq<Endpoint>
    var submit: seq<Endpoint>
    const cfg: Settings

    constructor (read: seq<Endpoint>, submit: seq<Endpoint>, cfg: Settings)
      ensures this.read == read && this.submit == submit && this.cfg == cfg
    {
      this.read, this.submit, this.cfg := read, submit, cfg;
    }

    /** refresh_group, for the endpoints that are read from. */
    method RefreshRead(updates: seq<Update>)
      modifies this`read
      ensures read == Refreshed(cfg, updates, old(read))
    {
      hide Lookup, Sort;
      var freshest := 0;
      for i := 0 to |updates|
        invariant freshest == Freshest(updates[..i])
      {
        assert updates[..i + 1][..i] == updates[..i];
        if updates[i].answer.Some? && freshest < updates[i].answer.value.block {
          freshest := updates[i].answer.value.block;
        }
      }
      assert updates[..|updates|] == updates;
      for i := 0 to |read|
        invariant |read| == |old(read)|
        invariant forall j :: 0 <= j < i ==> read[j] == Renew(cfg, updates, old(read)[j])
        invariant forall j :: i <= j < |read| ==> read[j] == old(read)[j]
      {
        var ep := read[i];
        match Lookup(updates, ep.url) {
          case None =>
          case Some(Update(_, Some(p))) =>
            var health := Health(p.chain == cfg.chainId, p.latency, p.block, p.chain, 0);
            if Lag(freshest, p.block) > cfg.maxBlockLag {
              health := health.(healthy := false);
            }
            read := read[i := ep.(health := health)];
          case Some(Update(_, None)) =>
            read := read[i := ep.(health := ep.health.(healthy := false, errorCount := ep.health.errorCount + 1))];
        }
      }
      assert read == RenewAll(cfg, updates, old(read));
      read := Sort(read);
    }

    /** The first healthy endpoint, else the first one. */
    method BestReadUrl() returns (r: Option<string>)
      ensures r == None <==> |read| == 0
      ensures r.Some? ==> exists k: nat :: Best(read, k) && r.value == read[k].url
    {
      SomeHealthy(read);
      if Ordered(read) {
        HealthyPrefix(read);
      }
      for k := 0 to |read|
        invariant forall j :: 0 <= j < k ==> !read[j].health.healthy
      {
        if read[k].health.healthy {
          assert Best(read, k);
          return Some(read[k].url);
        }
      }
      assert |read| > 0 ==> Best(read, 0);
      return if |read| == 0 then None else Some(read[0].url);
    }

    /**
     A refresh, and then the choice of an endpoint: one that is fit by the answers just collected, and of
     those with the least latency; or, if none is, any endpoint there is.
     */
    method RefreshAndPick(updates: seq<Update>) returns (r: Option<string>)
      requires AllAsked(updates, read)
      modifies this`read
      ensures read == Refreshed(cfg, updates, old(read))
      ensures r == None <==> |read| == 0
      ensures r.Some? ==> exists k :: 0 <= k < |read| && r.value == read[k].url && LeastFit(cfg, updates, read, k)
    {
      hide AllAsked, Refreshed, Healthy, Ordered, LeastFit;
      ghost var was := read;
      RefreshRead(updates);
      r := BestReadUrl();
      if r.Some? {
        ghost var k: nat :| Best(read, k) && r.value == read[k].url;
        BestIsLeastFit(cfg, updates, was, k);
      }
    }

    /** The replies come one per URL tried, in order. */
    method BroadcastRawTx(replies: seq<Reply>) returns (r: Option<Outcome>)
      requires |replies| == |Targets(submit)|
      ensures r.Some? ==> r.value.accepted + r.value.alreadyKnown + |r.value.errors| == |Targets(submit)|
      ensures r.Some? ==> r.value.accepted == Count(replies, IsTaken) && r.value.alreadyKnown == Count(replies, IsKnown)
      ensures r.Some? ==> r.value.errors == Reasons(replies)
      ensures r.Some? <==> Count(replies, IsTaken) + Count(replies, IsKnown) > 0
      ensures r.Some? ==> FirstText(replies, |replies|, r.value.txHash)
    {
      var accepted: Option<string> := None;
      var known, taken, errors := 0, 0, [];
      for i := 0 to |replies|
        invariant taken == Count(replies[..i], IsTaken) && known == Count(replies[..i], IsKnown)
        invariant errors == Reasons(replies[..i])
        invariant accepted.Some? <==> taken + known > 0
        invariant accepted == None ==> forall j :: 0 <= j < i ==> replies[j].Refused?
        invariant accepted.Some? ==> FirstText(replies, i, accepted.value)
      {
        assert replies[..i + 1][..i] == replies[..i];
        match replies[i] {
          case Taken(hash) =>
            taken := taken + 1;
            if accepted == None {
              accepted := Some(hash);
            }
          case Known =>
            known := known + 1;
            if accepted == None {
              accepted := Some("already_known");
            }
          case Refused(reason) =>
            errors := errors + [reason];
        }
      }
      assert replies[..|replies|] == replies;
      RepliesAddUp(replies);
      if accepted == None {
        return None;
      }
      return Some(Outcome(accepted.value, known, taken, errors));
    }
  }

  lemma {:induction false} SomeHealthy(eps: seq<Endpoint>)
    ensures Healthy(eps) > 0 <==> exists k :: 0 <= k < |eps| && eps[k].health.healthy
  {
    if |eps| > 0 {
      SomeHealthy(eps[..|eps| - 1]);
      assert forall k :: 0 <= k < |eps| - 1 ==> eps[k] == eps[..|eps| - 1][k];
    }
  }
}
