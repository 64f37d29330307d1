/** For which sets of requests the pack store's cache keys are good enough. */
module PackStoreRequests {
  import opened Wrappers
  import opened Text
  import opened Registry
  import opened PackStore
  import opened PackStoreProtocol

  /** The part of a pack key that comes from the request. */
  function Asked(r: Request): string { r.key + ":" + VersionLabel(r.version) }

  predicate SameAsk(r: Request, r': Request) { r.key == r'.key && Presence(r.version) == Presence(r'.version) }

  /** No two different requests of the set are written alike in a pack key. */
  ghost predicate Unambiguous(requests: iset<Request>) {
    forall r, r' | r in requests && r' in requests && !Blank(r.key) && !Blank(r'.key) ::
      Asked(r) == Asked(r') ==> SameAsk(r, r')
  }

  ghost predicate AsksFrom(steps: seq<Step>, requests: iset<Request>) {
    forall i | 0 <= i < |steps| && steps[i].Ask? :: steps[i].request in requests
  }

  /** Between writes every fetch of a request from the set is answered right, whatever the system, the rows
      and the run of bumps that count and requests from the set. */
  ghost predicate AlwaysRight(tenantId: nat, requests: iset<Request>) {
    forall sys, rs, bust, steps, s, req |
      CountedRun(Config(sys, tenantId), Initial(rs, bust), steps, s) && !Writing(s) && AsksFrom(steps, requests)
      && req in requests && !Blank(req.key) ::
      Fetch(sys, tenantId, s.rs, s.bust, s.cache, req).0 == FetchUncached(sys, s.rs, req)
  }

  // ----- unambiguous requests are answered right

  ghost predicate AskedState(s: State, requests: iset<Request>) {
    && (forall id | id in s.readers :: s.readers[id].request in requests && !Blank(s.readers[id].request.key))
    && (forall k | k in s.cache :: s.cache[k].request in requests && !Blank(s.cache[k].request.key))
  }

  lemma StepKeepsAsked(c: Config, s: State, step: Step, requests: iset<Request>)
    requires AskedState(s, requests) && Enabled(c, s, step) && (step.Ask? ==> step.request in requests)
    ensures AskedState(Apply(c, s, step), requests)
  {
    hide FetchUncached, PackKey, Blank;
  }

  lemma {:induction false} RunKeepsAsked(c: Config, s: State, steps: seq<Step>, t: State, requests: iset<Request>)
    requires AskedState(s, requests) && AsksFrom(steps, requests) && CountedRun(c, s, steps, t)
    ensures AskedState(t, requests)
    decreases |steps|
  {
    if steps != [] {
      assert AsksFrom(steps[1..], requests);
      StepKeepsAsked(c, s, steps[0], requests);
      hide AskedState, Apply, AsksFrom;
      RunKeepsAsked(c, Apply(c, s, steps[0]), steps[1..], t, requests);
    }
  }

  lemma FetchRight(sys: System, tenantId: nat, rs: Releases, bust: nat, cache: Cache, req: Request,
    requests: iset<Request>)
    requires Unambiguous(requests) && Fresh(sys, tenantId, rs, bust, cache) && req in requests && !Blank(req.key)
    requires forall k | k in cache :: cache[k].request in requests && !Blank(cache[k].request.key)
    ensures Fetch(sys, tenantId, rs, bust, cache, req).0 == FetchUncached(sys, rs, req)
  {
    hide FetchUncached, PackKey, Blank;
    var key := PackKey(tenantId, req, bust);
    if key in cache {
      var e := cache[key];
      PackKeyCollisions(tenantId, e.request, e.bust, tenantId, req, bust);
      assert Asked(e.request) == Asked(req);
      hide Unambiguous, Asked;
      SameAnswer(sys, rs, e.request, req);
    }
  }

  lemma UnambiguousIsRight(c: Config, rs: Releases, bust: nat, steps: seq<Step>, s: State, req: Request,
    requests: iset<Request>)
    requires Unambiguous(requests) && CountedRun(c, Initial(rs, bust), steps, s) && !Writing(s)
        && AsksFrom(steps, requests)
    requires req in requests && !Blank(req.key)
    ensures Fetch(c.sys, c.tenantId, s.rs, s.bust, s.cache, req).0 == FetchUncached(c.sys, s.rs, req)
  {
    var start := Initial(rs, bust);
    assert AskedState(start, requests);
    hide Fetch, FetchUncached, Unambiguous, Blank, CountedRun, AsksFrom;
    RunKeepsAsked(c, start, steps, s, requests);
    StartInv(c, rs, bust);
    RunKeepsInv(c, start, steps, s);
    FetchRight(c.sys, c.tenantId, s.rs, s.bust, s.cache, req, requests);
  }

  lemma StartInv(c: Config, rs: Releases, bust: nat)
    ensures Inv(c, Initial(rs, bust))
  {
    hide FetchUncached, PackKey;
  }

  // ----- ambiguous ones are not

  /** A pack shipped under a request's key, and its version when it names one. */
  function PackFor(r: Request): Profile {
    map[Key := Str(r.key), ProfileStatus := Str("active"),
        Version := if Presence(r.version).Some? then Str(r.version.value) else Null]
  }

  function Shipping(h: Host, r: Request): System { System(h, [PackFor(r)], map[]) }

  lemma OnlyPack(h: Host, r: Request, key: string)
    ensures Matching([PackFor(r)], key) == if key == r.key then [PackFor(r)] else []
  {
    assert [PackFor(r)][1..] == [];
    hide Blank;
  }

  lemma ShippedFound(h: Host, r: Request)
    requires !Blank(r.key)
    ensures
      var found := FetchUncached(Shipping(h, r), [], r);
      found == Some(Record(PackFor(r), SystemPack, None, None)) && Answer(found) == Some((PackFor(r), SystemPack, None))
  {
    OnlyPack(h, r, r.key);
    hide Matching, Blank, LatestProfile, FallbackProfile;
    assert IsActive(PackFor(r)) && (Presence(r.version).Some? ==> HasVersion(PackFor(r), r.version.value));
    assert PackFor(r) != map[] by { assert Key in PackFor(r); }
  }

  /** Any other request with the same pack key finds something else. */
  lemma ShippedNotFound(h: Host, r: Request, r': Request)
    requires !Blank(r.key) && !Blank(r'.key)
        && (r.key != r'.key || (Presence(r.version).None? && Presence(r'.version).Some?))
    ensures Answer(FetchUncached(Shipping(h, r), [], r')) != Some((PackFor(r), SystemPack, None))
  {
    OnlyPack(h, r, r'.key);
    hide Matching, Blank, FallbackProfile;
    assert LatestEligible([], r'.key).None?;
    if r.key == r'.key {
      UnversionedPack(h, r, r'.version.value);
    }
  }

  lemma UnversionedPack(h: Host, r: Request, version: string)
    requires Presence(r.version).None? && !Blank(version)
    ensures FindSystem(Shipping(h, r), r.key, Some(version)).None?
  {
    OnlyPack(h, r, r.key);
    assert !HasVersion(PackFor(r), version);
    var named := p => HasVersion(p, Some(version).value);
    FirstWhereIn([PackFor(r)], named);
    assert FirstWhere([PackFor(r)], named).None?;
    hide Matching, Blank, HasVersion, LatestProfile, PackFor, FirstWhere;
  }

  lemma NoBumpsCount(c: Config, s: State, steps: seq<Step>, t: State)
    requires Run(c, s, steps, t) && forall i | 0 <= i < |steps| :: !steps[i].Bump?
    ensures CountedRun(c, s, steps, t)
    decreases |steps|
  {
    if steps != [] {
      NoBumpsCount(c, Apply(c, s, steps[0]), steps[1..], t);
    }
  }

  function OneReader(r: Request): seq<Step> { [Ask(0, r, 0), LookUp(0), Compute(0), Store(0)] }

  lemma MixedUp(h: Host, tenantId: nat, r: Request, r': Request)
    requires !Blank(r.key) && !Blank(r'.key) && Asked(r) == Asked(r')
    requires r.key != r'.key || (Presence(r.version).None? && Presence(r'.version).Some?)
    ensures exists s ::
      && CountedRun(Config(Shipping(h, r), tenantId), Initial([], 0), OneReader(r), s) && !Writing(s)
      && Fetch(Shipping(h, r), tenantId, s.rs, s.bust, s.cache, r').0 != FetchUncached(Shipping(h, r), s.rs, r')
  {
    var c, start := Config(Shipping(h, r), tenantId), Initial([], 0);
    RunNothing(c, start);
    ReaderDone(c, start, start, [], r);
    ShippedFound(h, r);
    ShippedNotFound(h, r, r');
    PackKeyCollisions(tenantId, r, 0, tenantId, r', 0);
    hide FetchUncached, PackKey, Blank, Run, CountedRun, Shipping, PackFor;
    var key := PackKey(tenantId, r, 0);
    var s := start.(cache := map[key := Entry(FetchUncached(c.sys, [], r), r, 0)]);
    assert [] + OneReader(r) == OneReader(r);
    NoBumpsCount(c, start, OneReader(r), s);
    assert PackKey(tenantId, r', 0) in s.cache;
  }

  lemma AmbiguousIsWrong(h: Host, tenantId: nat, requests: iset<Request>, r: Request, r': Request)
    requires r in requests && r' in requests && !Blank(r.key) && !Blank(r'.key) && Asked(r) == Asked(r')
        && !SameAsk(r, r')
    ensures !AlwaysRight(tenantId, requests)
  {
    var first, second := WhichFirst(r, r');
    MixedUp(h, tenantId, first, second);
    assert AsksFrom(OneReader(first), requests);
    hide Fetch, CountedRun, OneReader, Shipping, FetchUncached, Blank;
    var sys := Shipping(h, first);
    var s :| CountedRun(Config(sys, tenantId), Initial([], 0), OneReader(first), s) && !Writing(s)
      && Fetch(sys, tenantId, s.rs, s.bust, s.cache, second).0 != FetchUncached(sys, s.rs, second);
  }

  /** Two requests for one key written alike: one names the version latest and the other none. */
  lemma SuffixAlike(r: Request, r': Request)
    requires Asked(r) == Asked(r') && r.key == r'.key && Presence(r.version) != Presence(r'.version)
    ensures Presence(r.version).None? != Presence(r'.version).None?
  {
    var prefix := r.key + ":";
    assert Asked(r)[|prefix|..] == VersionLabel(r.version) && Asked(r')[|prefix|..] == VersionLabel(r'.version);
    hide Blank;
  }

  /** Of two requests written alike, the one to ship a pack for. */
  lemma WhichFirst(r: Request, r': Request) returns (first: Request, second: Request)
    requires Asked(r) == Asked(r') && !SameAsk(r, r')
    ensures (first, second) == (r, r') || (first, second) == (r', r)
    ensures first.key != second.key || (Presence(first.version).None? && Presence(second.version).Some?)
  {
    hide Blank, Asked;
    first := if r.key != r'.key || Presence(r.version).None? then r else r';
    second := if first == r then r' else r;
    if r.key == r'.key { SuffixAlike(r, r'); }
  }

  /** A set of requests is always answered right iff its pack keys tell its requests apart. */
  lemma AlwaysRightIff(h: Host, tenantId: nat, requests: iset<Request>)
    ensures AlwaysRight(tenantId, requests) <==> Unambiguous(requests)
  {
    hide Fetch, CountedRun, FetchUncached, Blank, Asked, SameAsk;
    if Unambiguous(requests) {
      forall sys, rs, bust, steps, s, req |
        CountedRun(Config(sys, tenantId), Initial(rs, bust), steps, s) && !Writing(s) && AsksFrom(steps, requests)
        && req in requests && !Blank(req.key)
        ensures Fetch(sys, tenantId, s.rs, s.bust, s.cache, req).0 == FetchUncached(sys, s.rs, req)
      {
        UnambiguousIsRight(Config(sys, tenantId), rs, bust, steps, s, req, requests);
      }
    } else {
      var r, r' :| r in requests && r' in requests && !Blank(r.key) && !Blank(r'.key) && Asked(r) == Asked(r')
          && !SameAsk(r, r');
      AmbiguousIsWrong(h, tenantId, requests, r, r');
    }
  }
}
