/** Courses pinned to requests: surroundings in which a resolution shows what the pack store answers. */
module ResolverPins {
  import opened Wrappers
  import opened Text
  import opened PackStore
  import opened Resolver
  import L = Lifecycle

  /** Pack store on, and one course pinned to each request. */
  function PinnedTo(reqs: seq<Request>): Surroundings {
    var courses := map i: nat | i < |reqs| :: i := Course(Some(reqs[i].key), reqs[i].version, None);
    Surroundings(Flags(true, true, false), courses, map[], [], None, None)
  }

  function OfCourse(i: nat): Query { Query(None, Some(i), None) }

  function Pin(req: Request): Candidate { Candidate(CourseSettings, req.key, req.version) }

  lemma PinnedChain(db: L.Db, reqs: seq<Request>, q: Query)
    ensures
      var site := Site(db, PinnedTo(reqs));
      Candidates(site, q)
      == CourseCandidates(site.around, q) + Maybe(TenantDefault, db.settings.defaultKey, db.settings.defaultVersion)
         + [FALLBACK]
  {
    hide CourseCandidates, FALLBACK, EffectiveYear;
    var site := Site(db, PinnedTo(reqs));
    assert forall scope, year :: Applying([], scope, q, year) == [];
    assert SchoolCandidates(site.around, q) == [] && Maybe(DistrictDefault, None, None) == [];
  }

  lemma PinLeads(db: L.Db, reqs: seq<Request>, i: nat)
    requires i < |reqs| && !Blank(reqs[i].key)
    ensures
      var chain := Candidates(Site(db, PinnedTo(reqs)), OfCourse(i));
      chain != [] && chain[0] == Pin(reqs[i]) && forall c | c in chain[1..] :: c.level != CourseSettings
  {
    PinnedChain(db, reqs, OfCourse(i));
    hide Blank;
    var rest := Maybe(TenantDefault, db.settings.defaultKey, db.settings.defaultVersion) + [FALLBACK];
    assert Candidates(Site(db, PinnedTo(reqs)), OfCourse(i)) == [Pin(reqs[i])] + rest;
  }

  ghost predicate DefaultAsked(requests: iset<Request>, settings: L.Settings) {
    Given(settings.defaultKey) ==> Request(settings.defaultKey.value, Presence(settings.defaultVersion)) in requests
  }

  lemma PinsAsk(requests: iset<Request>, db: L.Db, reqs: seq<Request>)
    requires DefaultAsked(requests, db.settings) && RequestOf(FALLBACK) in requests
    requires forall r | r in reqs :: RequestOf(Pin(r)) in requests
    ensures SiteAsks(requests, Site(db, PinnedTo(reqs)))
  {
    hide Blank, FALLBACK;
    var site := Site(db, PinnedTo(reqs));
    forall q
      ensures ChainAsks(requests, Candidates(site, q))
    {
      PinnedChain(db, reqs, q);
      assert q.course.Some? && q.course.value < |reqs| ==> reqs[q.course.value] in reqs;
    }
  }

  /** The resolution is that of a pinned course whose request was answered so. */
  predicate Shows(r: Resolved, found: Option<Record>) {
    var answer := Answer(found);
    if answer.None? then r.level != CourseSettings
    else
      r.level == CourseSettings
      && (r.profile, r.source, r.releaseId) == (answer.value.0, Some(answer.value.1), answer.value.2)
  }

  lemma ShownApart(r: Resolved, found: Option<Record>, r': Resolved, found': Option<Record>)
    requires Shows(r, found) && Shows(r', found') && Answer(found) != Answer(found')
    ensures r != r'
  {
  }

  lemma PinUncached(sys: System, db: L.Db, reqs: seq<Request>, i: nat)
    requires i < |reqs| && !Blank(reqs[i].key)
    ensures Shows(ResolveUncached(sys, Site(db, PinnedTo(reqs)), OfCourse(i)), FetchUncached(sys, db.rs, reqs[i]))
  {
    PinLeads(db, reqs, i);
    SameAnswer(sys, db.rs, RequestOf(Pin(reqs[i])), reqs[i]);
    hide FetchUncached, Candidates, Blank, FirstReason, FallbackProfile;
    var site := Site(db, PinnedTo(reqs));
    var chain := Candidates(site, OfCourse(i));
    assert Lookup(sys, site, chain[0]).Some? <==> Answer(FetchUncached(sys, db.rs, reqs[i])).Some?;
    var j := FirstPassing(sys, site, chain);
    if j.Some? {
      LookupCandidate(sys, site, chain[j.value]);
      assert j.value > 0 ==> chain[j.value] in chain[1..];
    }
  }

  lemma {:induction false} ChosenFrom(sys: System, tenantId: nat, site: Site, cs: seq<Candidate>,
    reason: Option<Reason>, cache: Cache)
    ensures
      var choice := Choose(sys, tenantId, site, cs, reason, cache);
      && (choice.selected.Some? ==> choice.selected.value.candidate in cs)
      && forall k | k in cache :: k in choice.cache && choice.cache[k] == cache[k]
  {
    hide Acceptable, Ask, Blank;
    if cs != [] {
      AskGrows(sys, tenantId, site, cache, cs[0]);
      var after := Ask(sys, tenantId, site, cache, cs[0]).1;
      ChosenFrom(sys, tenantId, site, cs[1..], reason, cache);
      ChosenFrom(sys, tenantId, site, cs[1..], OrReason(reason, MissingReason(cs[0])), after);
      ChosenFrom(sys, tenantId, site, cs[1..], OrReason(reason, InvalidState), after);
    }
  }

  /** What the pack store answers a request through its cache. */
  function Through(sys: System, tenantId: nat, db: L.Db, cache: Cache, req: Request): Option<Record> {
    var key := PackKey(tenantId, req, db.settings.packBust);
    if key in cache then cache[key].value else FetchUncached(sys, db.rs, req)
  }

  lemma AskPin(sys: System, tenantId: nat, db: L.Db, reqs: seq<Request>, req: Request, cache: Cache)
    requires !Blank(req.key)
    ensures
      var (found, after) := Ask(sys, tenantId, Site(db, PinnedTo(reqs)), cache, Pin(req));
      var key, answer := PackKey(tenantId, req, db.settings.packBust), Through(sys, tenantId, db, cache, req);
      && key in after && after[key].value == answer
      && found == (if Answer(answer).None? then None
                   else Some(Selected(Pin(req), answer.value.payload, answer.value.source, answer.value.releaseId)))
  {
    var pin := Pin(req);
    SameAnswer(sys, db.rs, RequestOf(pin), req);
    assert PackKey(tenantId, RequestOf(pin), db.settings.packBust) == PackKey(tenantId, req, db.settings.packBust);
    hide FetchUncached, Blank, PackKey;
  }

  /** When the first candidate is passed over, the rest is resolved from what it leaves cached. */
  lemma PassedOver(sys: System, tenantId: nat, site: Site, q: Query, cache: Cache, c: Candidate)
    requires Candidates(site, q) != [] && Candidates(site, q)[0] == c && !Blank(c.key)
    requires Ask(sys, tenantId, site, cache, c).0.None?
    ensures
      var rest, after := Candidates(site, q)[1..], Ask(sys, tenantId, site, cache, c).1;
      var (r, packs) := ResolveThrough(sys, tenantId, site, q, cache);
      && (r.level == SystemFallback || exists o :: o in rest && r.level == o.level)
      && forall k | k in after :: k in packs && packs[k] == after[k]
  {
    hide Candidates, FetchUncached, Blank, PackKey, FallbackProfile, Acceptable;
    var chain := Candidates(site, q);
    var after := Ask(sys, tenantId, site, cache, c).1;
    var reason := Some(MissingReason(c));
    ChosenFrom(sys, tenantId, site, chain[1..], reason, after);
    hide Ask;
    var choice := Choose(sys, tenantId, site, chain[1..], reason, after);
    assert Choose(sys, tenantId, site, chain, None, cache) == choice;
    hide Choose;
    AskGrows(sys, tenantId, site, choice.cache, FALLBACK);
    AskGrows(sys, tenantId, site, Ask(sys, tenantId, site, choice.cache, FALLBACK).1, FALLBACK);
    assert FALLBACK.level == SystemFallback;
  }

  lemma AskGrows(sys: System, tenantId: nat, site: Site, cache: Cache, c: Candidate)
    ensures
      var (found, after) := Ask(sys, tenantId, site, cache, c);
      (found.Some? ==> found.value.candidate == c) && forall k | k in cache :: k in after && after[k] == cache[k]
  {
    hide FetchUncached, PackKey, FindSystem, Blank;
  }

  /** Resolving a pinned course shows what the store answers its request, and leaves that answer cached. */
  lemma PinThrough(sys: System, tenantId: nat, db: L.Db, reqs: seq<Request>, i: nat, cache: Cache)
    requires i < |reqs| && !Blank(reqs[i].key)
    ensures
      var (r, packs) := ResolveThrough(sys, tenantId, Site(db, PinnedTo(reqs)), OfCourse(i), cache);
      var key := PackKey(tenantId, reqs[i], db.settings.packBust);
      && Shows(r, Through(sys, tenantId, db, cache, reqs[i]))
      && key in packs && packs[key].value == Through(sys, tenantId, db, cache, reqs[i])
  {
    PinLeads(db, reqs, i);
    AskPin(sys, tenantId, db, reqs, reqs[i], cache);
    hide Candidates, Blank, PackKey, Ask, Through;
    var site := Site(db, PinnedTo(reqs));
    if Answer(Through(sys, tenantId, db, cache, reqs[i])).None? {
      PassedOver(sys, tenantId, site, OfCourse(i), cache, Pin(reqs[i]));
    }
  }
}
