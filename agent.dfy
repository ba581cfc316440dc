/**
 * One reconciliation pass of the agent (src/main.rs): compare each desired
 * (name, addresses) pair with the cache, overwrite the cache entry before
 * dispatching, and dispatch one record update per address; each update
 * builds its parameters from the address and runs the provider protocol,
 * and its outcome is only logged.
 */
module Agent {
  import opened Wrappers
  import opened Net
  import opened Porkbun
  import opened PorkbunServer
  import opened PorkbunClient

  type Cache = map<string, seq<IpAddr>>

  /** One spawned update: a logical name and one of its addresses. */
  datatype Dispatch = Dispatch(name: string, ip: IpAddr)

  /** `DNSCache`: the last address list the agent acted on, per name. */
  class DnsCache {
    var entries: Cache

    constructor ()
      ensures entries == map[]
    {
      entries := map[];
    }
  }

  /** The cached list, with a missing entry read as the empty list (`or_default`). */
  function Cached(c: Cache, name: string): seq<IpAddr> {
    if name in c then c[name] else []
  }

  /** One dispatch per address, in list order. */
  function Fanout(name: string, ips: seq<IpAddr>): (d: seq<Dispatch>)
    ensures |d| == |ips|
    ensures forall i :: 0 <= i < |d| ==> d[i] == Dispatch(name, ips[i])
  {
    seq(|ips|, i requires 0 <= i < |ips| => Dispatch(name, ips[i]))
  }

  /** The cache after a pass over `desired`: each pair leaves its list as the name's entry. */
  function CacheAfter(c: Cache, desired: seq<(string, seq<IpAddr>)>): Cache
    decreases |desired|
  {
    if desired == [] then c
    else
      var last := desired[|desired| - 1];
      CacheAfter(c, desired[..|desired| - 1])[last.0 := last.1]
  }

  /** The dispatches of a pass with a cache: the pairs whose list differs from the entry at that point. */
  function CachedDispatches(c: Cache, desired: seq<(string, seq<IpAddr>)>): seq<Dispatch>
    decreases |desired|
  {
    if desired == [] then []
    else
      var init, last := desired[..|desired| - 1], desired[|desired| - 1];
      CachedDispatches(c, init)
      + (if Cached(CacheAfter(c, init), last.0) == last.1 then [] else Fanout(last.0, last.1))
  }

  /** The dispatches of a pass without a cache: every address of every pair. */
  function UncachedDispatches(desired: seq<(string, seq<IpAddr>)>): seq<Dispatch>
    decreases |desired|
  {
    if desired == [] then []
    else
      var last := desired[|desired| - 1];
      UncachedDispatches(desired[..|desired| - 1]) + Fanout(last.0, last.1)
  }

  /** How each specification function extends by one more pair. */
  lemma PassStep(c: Cache, desired: seq<(string, seq<IpAddr>)>, k: nat)
    requires k < |desired|
    ensures CacheAfter(c, desired[..k + 1]) == CacheAfter(c, desired[..k])[desired[k].0 := desired[k].1]
    ensures CachedDispatches(c, desired[..k + 1]) == CachedDispatches(c, desired[..k])
      + (if Cached(CacheAfter(c, desired[..k]), desired[k].0) == desired[k].1 then [] else Fanout(desired[k].0, desired[k].1))
    ensures UncachedDispatches(desired[..k + 1]) == UncachedDispatches(desired[..k]) + Fanout(desired[k].0, desired[k].1)
  {
    assert desired[..k + 1][..k] == desired[..k];
  }

  /** The inner loop of `update_once`: one spawned update per address, appended in order. */
  method Spawn(handles: seq<Dispatch>, name: string, ips: seq<IpAddr>) returns (spawned: seq<Dispatch>)
    ensures spawned == handles + Fanout(name, ips)
  {
    spawned := handles;
    for j := 0 to |ips|
      invariant spawned == handles + Fanout(name, ips[..j])
    {
      assert ips[..j + 1] == ips[..j] + [ips[j]];
      spawned := spawned + [Dispatch(name, ips[j])];
    }
    assert ips[..|ips|] == ips;
  }

  /** `update_once`, with the spawned tasks returned as the list of dispatches in spawn order. */
  method UpdateOnce(desired: seq<(string, seq<IpAddr>)>, cache: DnsCache?) returns (dispatched: seq<Dispatch>)
    modifies cache
    ensures cache != null ==> cache.entries == CacheAfter(old(cache.entries), desired)
    ensures cache != null ==> dispatched == CachedDispatches(old(cache.entries), desired)
    ensures cache == null ==> dispatched == UncachedDispatches(desired)
  {
    ghost var start: Cache := if cache != null then cache.entries else map[];
    dispatched := [];
    for k := 0 to |desired|
      invariant cache != null ==> cache.entries == CacheAfter(start, desired[..k])
      invariant cache != null ==> dispatched == CachedDispatches(start, desired[..k])
      invariant cache == null ==> dispatched == UncachedDispatches(desired[..k])
    {
      var name, ips := desired[k].0, desired[k].1;
      PassStep(start, desired, k);
      if cache != null {
        var cachedIps := Cached(cache.entries, name);
        cache.entries := cache.entries[name := cachedIps];
        if cachedIps == ips {
          continue;
        }
        cache.entries := cache.entries[name := ips];
      }
      dispatched := Spawn(dispatched, name, ips);
    }
    assert desired[..|desired|] == desired;
  }

  // ---------------------------------------------------------------------
  // Properties of a pass.

  /** The list of the last pair for `name`, if some pair has that name. */
  function LastFor(desired: seq<(string, seq<IpAddr>)>, name: string): (r: Option<seq<IpAddr>>)
    ensures r.None? <==> forall i :: 0 <= i < |desired| ==> desired[i].0 != name
    ensures r.Some? ==> exists i :: 0 <= i < |desired| && desired[i] == (name, r.value) &&
                          (forall j :: i < j < |desired| ==> desired[j].0 != name)
    decreases |desired|
  {
    if desired == [] then None
    else if desired[|desired| - 1].0 == name then Some(desired[|desired| - 1].1)
    else LastFor(desired[..|desired| - 1], name)
  }

  predicate DistinctNames(desired: seq<(string, seq<IpAddr>)>) {
    forall i, j :: 0 <= i < j < |desired| ==> desired[i].0 != desired[j].0
  }

  /**
   * After a pass the entry of every name seen holds the last list given for
   * it; every other entry, present or absent, is as before.
   */
  lemma {:induction false} CacheAfterEntries(c: Cache, desired: seq<(string, seq<IpAddr>)>, name: string)
    ensures LastFor(desired, name).Some? ==>
      name in CacheAfter(c, desired) && CacheAfter(c, desired)[name] == LastFor(desired, name).value
    ensures LastFor(desired, name).None? ==>
      (name in CacheAfter(c, desired) <==> name in c) &&
      (name in c ==> CacheAfter(c, desired)[name] == c[name])
    decreases |desired|
  {
    if desired != [] {
      CacheAfterEntries(c, desired[..|desired| - 1], name);
    }
  }

  /** Running a pass again over the same pairs, with distinct names, dispatches nothing and changes nothing. */
  lemma RepeatPassIsQuiet(c: Cache, desired: seq<(string, seq<IpAddr>)>)
    requires DistinctNames(desired)
    ensures CachedDispatches(CacheAfter(c, desired), desired) == []
    ensures CacheAfter(CacheAfter(c, desired), desired) == CacheAfter(c, desired)
  {
    QuietPrefix(c, desired, |desired|);
    assert desired[..|desired|] == desired;
  }

  lemma {:induction false} QuietPrefix(c: Cache, desired: seq<(string, seq<IpAddr>)>, k: nat)
    requires DistinctNames(desired) && k <= |desired|
    ensures CachedDispatches(CacheAfter(c, desired), desired[..k]) == []
    ensures CacheAfter(CacheAfter(c, desired), desired[..k]) == CacheAfter(c, desired)
    decreases k
  {
    if k > 0 {
      var c2 := CacheAfter(c, desired);
      var name, ips := desired[k - 1].0, desired[k - 1].1;
      QuietPrefix(c, desired, k - 1);
      PassStep(c2, desired, k - 1);
      EntryOfDistinct(c, desired, k - 1);
      assert Cached(CacheAfter(c2, desired[..k - 1]), name) == ips;
      assert c2[name := ips] == c2;
    }
  }

  /** With distinct names, a pass leaves each pair's list as that name's entry. */
  lemma EntryOfDistinct(c: Cache, desired: seq<(string, seq<IpAddr>)>, k: nat)
    requires DistinctNames(desired) && k < |desired|
    ensures desired[k].0 in CacheAfter(c, desired) && CacheAfter(c, desired)[desired[k].0] == desired[k].1
  {
    CacheAfterEntries(c, desired, desired[k].0);
    var r := LastFor(desired, desired[k].0);
    var i :| 0 <= i < |desired| && desired[i] == (desired[k].0, r.value) &&
             (forall j :: i < j < |desired| ==> desired[j].0 != desired[k].0);
    assert i == k;
  }

  /** Two pairs for the same name with different lists dispatch both lists on every pass. */
  lemma SharedNameRedispatches(c: Cache, name: string, a: IpAddr, b: IpAddr)
    requires a != b
    ensures var desired := [(name, [a]), (name, [b])];
      CachedDispatches(CacheAfter(c, desired), desired) == [Dispatch(name, a), Dispatch(name, b)]
  {
    var desired := [(name, [a]), (name, [b])];
    assert desired[..0] == [];
    assert desired[..2] == desired;
    PassStep(c, desired, 0);
    PassStep(c, desired, 1);
    var c2 := CacheAfter(c, desired);
    assert c2 == c[name := [a]][name := [b]];
    assert [a] != [b] by { assert [a][0] != [b][0]; }
    PassStep(c2, desired, 0);
    PassStep(c2, desired, 1);
    assert Fanout(name, [a]) == [Dispatch(name, a)];
    assert Fanout(name, [b]) == [Dispatch(name, b)];
  }

  /** A name with no entry and no addresses dispatches nothing yet gains the entry `[]`. */
  lemma EmptyListIsCachedNotDispatched(c: Cache, name: string)
    requires name !in c
    ensures CachedDispatches(c, [(name, [])]) == []
    ensures CacheAfter(c, [(name, [])]) == c[name := []]
  {
    var desired: seq<(string, seq<IpAddr>)> := [(name, [])];
    assert desired[..0] == [];
  }

  /** Every dispatch of a pass with a cache is an address of a pair with that name. */
  lemma {:induction false} DispatchesComeFromPairs(c: Cache, desired: seq<(string, seq<IpAddr>)>, d: Dispatch)
    requires d in CachedDispatches(c, desired)
    ensures exists i :: 0 <= i < |desired| && desired[i].0 == d.name && d.ip in desired[i].1
    decreases |desired|
  {
    var init, last := desired[..|desired| - 1], desired[|desired| - 1];
    if d in CachedDispatches(c, init) {
      DispatchesComeFromPairs(c, init, d);
      var i :| 0 <= i < |init| && init[i].0 == d.name && d.ip in init[i].1;
      assert desired[i] == init[i];
    } else {
      var f := Fanout(last.0, last.1);
      var j :| 0 <= j < |f| && f[j] == d;
      assert d.ip == last.1[j];
    }
  }

  /** Without a cache a pass dispatches exactly the addresses of all pairs. */
  lemma {:induction false} UncachedDispatchesAll(desired: seq<(string, seq<IpAddr>)>, d: Dispatch)
    ensures d in UncachedDispatches(desired) <==>
      exists i :: 0 <= i < |desired| && desired[i].0 == d.name && d.ip in desired[i].1
    decreases |desired|
  {
    if desired != [] {
      var init, last := desired[..|desired| - 1], desired[|desired| - 1];
      UncachedDispatchesAll(init, d);
      var f := Fanout(last.0, last.1);
      assert d in f <==> last.0 == d.name && d.ip in last.1 by {
        if d in f {
          var j :| 0 <= j < |f| && f[j] == d;
        }
        if last.0 == d.name && d.ip in last.1 {
          var j :| 0 <= j < |last.1| && last.1[j] == d.ip;
          assert f[j] == d;
        }
      }
      if exists i :: 0 <= i < |desired| && desired[i].0 == d.name && d.ip in desired[i].1 {
        var i :| 0 <= i < |desired| && desired[i].0 == d.name && d.ip in desired[i].1;
        if i < |init| {
          assert init[i] == desired[i];
        }
      }
      if exists i :: 0 <= i < |init| && init[i].0 == d.name && d.ip in init[i].1 {
        var i :| 0 <= i < |init| && init[i].0 == d.name && d.ip in init[i].1;
        assert desired[i] == init[i];
      }
    }
  }

  /** When no name of the pass has an entry yet and names are distinct, the cache changes nothing about what is dispatched. */
  lemma {:induction false} FreshNamesDispatchEverything(c: Cache, desired: seq<(string, seq<IpAddr>)>)
    requires DistinctNames(desired)
    requires forall i :: 0 <= i < |desired| ==> desired[i].0 !in c
    ensures CachedDispatches(c, desired) == UncachedDispatches(desired)
    decreases |desired|
  {
    if desired != [] {
      var init, last := desired[..|desired| - 1], desired[|desired| - 1];
      FreshNamesDispatchEverything(c, init);
      CacheAfterEntries(c, init, last.0);
      assert LastFor(init, last.0).None?;
    }
  }

  // ---------------------------------------------------------------------
  // One update.

  const UpdateTtl: string := "600"

  /** `update_dns`'s parameters: type by address family, the address text, ttl 600, no prio. */
  function UpdateParams(domain: string, name: string, ip: IpAddr): (p: Params)
    ensures p.domain == domain && p.name == name
    ensures p.recordType == (if ip.V4? then A else AAAA)
    ensures p.content == IpText(ip)
    ensures p.ttl == Some(UpdateTtl) && p.prio == None
  {
    Params(domain, if ip.V4? then A else AAAA, name, IpText(ip), Some(UpdateTtl), None)
  }

  /**
   * A record up to date for one address is modified for any other address
   * (when at least one of the two is IPv4), so a changed address always
   * leads to an edit.
   */
  lemma ChangedAddressIsModified(r: Record, domain: string, name: string, x: IpAddr, y: IpAddr)
    requires x != y && (x.V4? || y.V4?)
    requires !IsModified(r, UpdateParams(domain, name, x))
    ensures IsModified(r, UpdateParams(domain, name, y))
  {
    if x.V4? && y.V4? && IpText(x) == IpText(y) {
      Ipv4TextInjective(x.octets4, y.octets4);
    }
  }

  /** What `update_dns` logs: the three outcomes, none of them an error to its caller. */
  datatype UpdateOutcome = Updated(id: string) | AlreadyUpToDate(id: string) | Failed(error: Error)

  /** The outcome `update_dns` logs: an error, or the record's id with whether it was changed. */
  function Logged(r: Result<(string, bool), Error>): (o: UpdateOutcome)
    ensures o.Failed? <==> r.Err?
    ensures r.Err? ==> o.error == r.error
    ensures r.Ok? ==> o.id == r.value.0 && (o.Updated? <==> r.value.1)
  {
    match r
    case Ok((id, true)) => Updated(id)
    case Ok((id, false)) => AlreadyUpToDate(id)
    case Err(e) => Failed(e)
  }

  method UpdateDns(server: Provider, domain: string, name: string, ip: IpAddr, read: Fault, write: Fault)
    returns (outcome: UpdateOutcome)
    modifies server`store, server`nextId, server`log
    ensures var e := CreateOrEditSpec(old(server.Now()), server.numericIds, UpdateParams(domain, name, ip), read, write);
      outcome == Logged(e.result) && server.Now() == e.after && server.log == old(server.log) + e.calls
  {
    var params := UpdateParams(domain, name, ip);
    var r := CreateOrEdit(server, params, read, write);
    match r {
      case Ok((id, true)) => outcome := Updated(id);
      case Ok((id, false)) => outcome := AlreadyUpToDate(id);
      case Err(e) => outcome := Failed(e);
    }
  }

  /** After an edit for the agent's parameters, a second update reports up to date exactly when the record's prio was "0". */
  lemma AgentEditSettlesIffDefaultPrio(s: State, numericIds: bool, domain: string, name: string, ip: IpAddr)
    requires name != ""
    requires var p := UpdateParams(domain, name, ip);
      Fetched(s, p) != [] && IsModified(Localize(Fetched(s, p)[0], domain), p)
    ensures var p := UpdateParams(domain, name, ip);
      var first := Localize(Fetched(s, p)[0], domain);
      var e := CreateOrEditSpec(s, numericIds, p, Healthy, Healthy);
      var again := CreateOrEditSpec(e.after, numericIds, p, Healthy, Healthy);
      again.result == Ok((first.id, first.prio != DefaultPrio))
  {
    SecondRunAfterEdit(s, numericIds, UpdateParams(domain, name, ip));
  }

  /** The dispatched updates of a pass run one after another, each on the state the previous left. */
  datatype Run = Run(outcomes: seq<UpdateOutcome>, after: State, calls: seq<Call>)

  /** One more update, run on the state `prior` left. */
  function UpdateStep(prior: Run, numericIds: bool, domain: string, d: Dispatch, faults: (Fault, Fault)): (r: Run)
    ensures |r.outcomes| == |prior.outcomes| + 1
  {
    var e := CreateOrEditSpec(prior.after, numericIds, UpdateParams(domain, d.name, d.ip), faults.0, faults.1);
    Run(prior.outcomes + [Logged(e.result)], e.after, prior.calls + e.calls)
  }

  function RunSpec(s: State, numericIds: bool, domain: string, dispatched: seq<Dispatch>, network: seq<(Fault, Fault)>): (r: Run)
    requires |network| == |dispatched|
    ensures |r.outcomes| == |dispatched|
    decreases |dispatched|
  {
    if dispatched == [] then Run([], s, [])
    else
      var n := |dispatched| - 1;
      UpdateStep(RunSpec(s, numericIds, domain, dispatched[..n], network[..n]), numericIds, domain, dispatched[n], network[n])
  }

  lemma RunSpecStep(s: State, numericIds: bool, domain: string, dispatched: seq<Dispatch>, network: seq<(Fault, Fault)>, k: nat)
    requires |network| == |dispatched| && k < |dispatched|
    ensures RunSpec(s, numericIds, domain, dispatched[..k + 1], network[..k + 1]) ==
      UpdateStep(RunSpec(s, numericIds, domain, dispatched[..k], network[..k]), numericIds, domain, dispatched[k], network[k])
  {
    assert dispatched[..k + 1][..k] == dispatched[..k];
    assert network[..k + 1][..k] == network[..k];
  }

  lemma AppendAssociates(a: seq<Call>, b: seq<Call>, c: seq<Call>)
    ensures a + b + c == a + (b + c)
  {
  }

  /**
   * `join_all` over the spawned updates, taken in spawn order: every
   * dispatch yields its own outcome whether or not the others failed.
   */
  method RunUpdates(server: Provider, domain: string, dispatched: seq<Dispatch>, network: seq<(Fault, Fault)>)
    returns (outcomes: seq<UpdateOutcome>)
    requires |network| == |dispatched|
    modifies server`store, server`nextId, server`log
    ensures var r := RunSpec(old(server.Now()), server.numericIds, domain, dispatched, network);
      outcomes == r.outcomes && server.Now() == r.after && server.log == old(server.log) + r.calls
  {
    ghost var s0 := server.Now();
    ghost var log0 := server.log;
    outcomes := [];
    for k := 0 to |dispatched|
      invariant var r := RunSpec(s0, server.numericIds, domain, dispatched[..k], network[..k]);
        outcomes == r.outcomes && server.Now() == r.after && server.log == log0 + r.calls
    {
      ghost var prior := RunSpec(s0, server.numericIds, domain, dispatched[..k], network[..k]);
      RunSpecStep(s0, server.numericIds, domain, dispatched, network, k);
      ghost var e := CreateOrEditSpec(prior.after, server.numericIds,
                                      UpdateParams(domain, dispatched[k].name, dispatched[k].ip), network[k].0, network[k].1);
      var o := UpdateDns(server, domain, dispatched[k].name, dispatched[k].ip, network[k].0, network[k].1);
      ghost var next := UpdateStep(prior, server.numericIds, domain, dispatched[k], network[k]);
      assert next == Run(prior.outcomes + [Logged(e.result)], e.after, prior.calls + e.calls);
      assert o == Logged(e.result) && server.Now() == e.after;
      AppendAssociates(log0, prior.calls, e.calls);
      outcomes := outcomes + [o];
    }
    assert dispatched[..|dispatched|] == dispatched;
    assert network[..|network|] == network;
  }
}
