/** For which references stored about courses, schools and tenants resolution through the caches is right. */
module ResolverRequests {
  import opened Wrappers
  import opened Text
  import opened Registry
  import opened PackStore
  import opened PackStoreRequests
  import opened Resolver
  import opened ResolverRuns
  import opened ResolverPins
  import L = Lifecycle

  /** The requests resolution makes when all it finds are these references, as stored, and the fallback. */
  ghost function Requested(refs: iset<Request>): iset<Request> {
    (iset r | r in refs :: Request(r.key, Presence(r.version))) + iset{RequestOf(FALLBACK)}
  }

  /** After any run whose changes are flushed, and whose sites hold no other references, resolving through
      the caches gives what resolving without them gives. */
  ghost predicate AlwaysResolved(tenantId: nat, refs: iset<Request>) {
    forall sys: System, site: Site, es: seq<Event>, d: Deployment, q: Query |
      L.Numbered(site.db) && Run(sys, tenantId, Start(site), es, d)
      && RunAsks(Requested(refs), sys, tenantId, Start(site), es) && !d.unflushed ::
      ResolveCached(sys, tenantId, d, q).0 == ResolveUncached(sys, d.site, q)
  }

  const EMPTY_DB := L.Db([], L.Settings(None, None, false, 0, 0), 0)

  /** Two courses pinned to requests with one pack key, of which one is shipped. */
  function Confused(first: Request, second: Request): Site { Site(EMPTY_DB, PinnedTo([first, second])) }

  lemma ConfusedThrough(h: Host, tenantId: nat, first: Request, second: Request)
    requires !Blank(first.key) && !Blank(second.key) && Asked(first) == Asked(second)
    requires first.key != second.key || (Presence(first.version).None? && Presence(second.version).Some?)
    ensures
      var sys, site := Shipping(h, first), Confused(first, second);
      var packs := ResolveThrough(sys, tenantId, site, OfCourse(0), map[]).1;
      ResolveThrough(sys, tenantId, site, OfCourse(1), packs).0 != ResolveUncached(sys, site, OfCourse(1))
  {
    var sys, site, reqs := Shipping(h, first), Confused(first, second), [first, second];
    ShippedFound(h, first);
    ShippedNotFound(h, first, second);
    PackKeyCollisions(tenantId, first, 0, tenantId, second, 0);
    hide ResolveThrough, ResolveUncached, Blank, PackKey, FetchUncached, Shipping, PinnedTo, Asked, PackFor;
    PinThrough(sys, tenantId, EMPTY_DB, reqs, 0, map[]);
    var packs := ResolveThrough(sys, tenantId, site, OfCourse(0), map[]).1;
    PinThrough(sys, tenantId, EMPTY_DB, reqs, 1, packs);
    PinUncached(sys, EMPTY_DB, reqs, 1);
    ShownApart(ResolveThrough(sys, tenantId, site, OfCourse(1), packs).0,
        Through(sys, tenantId, EMPTY_DB, packs, second),
      ResolveUncached(sys, site, OfCourse(1)), FetchUncached(sys, [], second));
  }

  /** A second course is resolved through what the first one left in the pack store's cache. */
  lemma SecondCourse(sys: System, tenantId: nat, site: Site, i: nat, j: nat)
    requires i != j
    ensures
      var d := Next(sys, tenantId, Start(site), Resolve(OfCourse(i)));
      var packs := ResolveThrough(sys, tenantId, site, OfCourse(i), map[]).1;
      && d.site == site && !d.unflushed
      && ResolveCached(sys, tenantId, d, OfCourse(j)).0 == ResolveThrough(sys, tenantId, site, OfCourse(j), packs).0
  {
    hide ResolveThrough, EffectiveYear, ResolverKey;
    var d := Next(sys, tenantId, Start(site), Resolve(OfCourse(i)));
    var bust := site.db.settings.resolverBust;
    if KeyNow(tenantId, site, OfCourse(j)) in d.kept {
      ResolverKeysDistinct(tenantId, None, Some(i), EffectiveYear(site.around, OfCourse(i)), bust,
        tenantId, None, Some(j), EffectiveYear(site.around, OfCourse(j)), bust);
    }
  }

  lemma OneEvent(requests: iset<Request>, sys: System, tenantId: nat, site: Site, q: Query)
    requires SiteAsks(requests, site)
    ensures
      var d := Next(sys, tenantId, Start(site), Resolve(q));
      && Run(sys, tenantId, Start(site), [Resolve(q)], d)
      && (d.site == site ==> RunAsks(requests, sys, tenantId, Start(site), [Resolve(q)]))
  {
    hide SiteAsks, ResolveCached;
    var d := Next(sys, tenantId, Start(site), Resolve(q));
    assert [Resolve(q)][1..] == [] && Run(sys, tenantId, d, [], d);
  }

  /** Resolving the first course makes the second one's resolution wrong. */
  lemma ConfusedRun(h: Host, tenantId: nat, refs: iset<Request>, first: Request, second: Request)
    requires first in Requested(refs) && second in Requested(refs)
    requires !Blank(first.key) && !Blank(second.key) && Asked(first) == Asked(second)
    requires first.key != second.key || (Presence(first.version).None? && Presence(second.version).Some?)
    ensures !AlwaysResolved(tenantId, refs)
  {
    hide ResolveThrough, ResolveUncached, ResolveCached, Next, Confused, Requested, Shipping, SiteAsks, Blank, Asked,
      Run, RunAsks, L.Numbered;
    var sys, site := Shipping(h, first), Confused(first, second);
    ConfusedThrough(h, tenantId, first, second);
    ConfusedAsks(refs, first, second);
    ConfusedNumbered(first, second);
    SecondCourse(sys, tenantId, site, 0, 1);
    OneEvent(Requested(refs), sys, tenantId, site, OfCourse(0));
    var d := Next(sys, tenantId, Start(site), Resolve(OfCourse(0)));
    assert ResolveCached(sys, tenantId, d, OfCourse(1)).0 != ResolveUncached(sys, d.site, OfCourse(1));
  }

  lemma ConfusedNumbered(first: Request, second: Request)
    ensures L.Numbered(Confused(first, second).db)
  {
  }

  lemma ConfusedAsks(refs: iset<Request>, first: Request, second: Request)
    requires first in Requested(refs) && second in Requested(refs)
    ensures SiteAsks(Requested(refs), Confused(first, second))
  {
    hide Blank;
    PinsAsk(Requested(refs), EMPTY_DB, [first, second]);
  }

  /** Exactly the sets of references whose requests have different pack keys are always resolved right. */
  lemma AlwaysResolvedIff(h: Host, tenantId: nat, refs: iset<Request>)
    ensures AlwaysResolved(tenantId, refs) <==> Unambiguous(Requested(refs))
  {
    hide Run, RunAsks, ResolveCached, ResolveUncached, Requested, Blank, Asked, SameAsk;
    if Unambiguous(Requested(refs)) {
      forall sys: System, site: Site, es: seq<Event>, d: Deployment, q: Query |
        L.Numbered(site.db) && Run(sys, tenantId, Start(site), es, d)
        && RunAsks(Requested(refs), sys, tenantId, Start(site), es) && !d.unflushed
        ensures ResolveCached(sys, tenantId, d, q).0 == ResolveUncached(sys, d.site, q)
      {
        ResolveIsUncachedAfterFlush(Requested(refs), sys, tenantId, site, es, d, q);
      }
    } else {
      var first, second := Ambiguity(Requested(refs));
      ConfusedRun(h, tenantId, refs, first, second);
    }
  }

  lemma Ambiguity(requests: iset<Request>) returns (first: Request, second: Request)
    requires !Unambiguous(requests)
    ensures first in requests && second in requests && !Blank(first.key) && !Blank(second.key)
    ensures Asked(first) == Asked(second)
    ensures first.key != second.key || (Presence(first.version).None? && Presence(second.version).Some?)
  {
    hide Blank, Asked;
    var r, r' :| r in requests && r' in requests && !Blank(r.key) && !Blank(r'.key) && Asked(r) == Asked(r')
      && !SameAsk(r, r');
    first, second := WhichFirst(r, r');
  }

  // ----- conditions on the stored data

  ghost predicate Held(refs: iset<Request>, key: Option<string>, version: Option<string>) {
    Given(key) ==> Request(key.value, version) in refs
  }

  /** Every reference the site stores is of the set. */
  ghost predicate HoldsOnly(refs: iset<Request>, site: Site) {
    && Held(refs, site.db.settings.defaultKey, site.db.settings.defaultVersion)
    && Held(refs, site.around.districtKey, site.around.districtVersion)
    && (forall c | c in site.around.courses ::
          Held(refs, site.around.courses[c].profileKey, site.around.courses[c].profileVersion))
    && (forall s | s in site.around.schools ::
          Held(refs, site.around.schools[s].profileKey, site.around.schools[s].profileVersion))
    && (forall i | 0 <= i < |site.around.assignments| ::
          Request(site.around.assignments[i].key, site.around.assignments[i].version) in refs)
  }

  ghost predicate ChainHeld(refs: iset<Request>, cs: seq<Candidate>) {
    forall c | c in cs :: Request(c.key, c.version) in refs || c == FALLBACK
  }

  lemma {:induction false} ApplyingFrom(assignments: seq<Assignment>, scope: Scope, q: Query, year: Option<nat>)
    ensures forall a | a in Applying(assignments, scope, q, year) :: a in assignments
  {
    if assignments != [] {
      ApplyingFrom(assignments[1..], scope, q, year);
    }
  }

  lemma AssignmentsHeld(refs: iset<Request>, site: Site, level: Level, scope: Scope, q: Query)
    requires HoldsOnly(refs, site)
    ensures ChainHeld(refs, AssignmentCandidates(site, level, scope, q))
  {
    hide EffectiveYear, FALLBACK;
    var year := EffectiveYear(site.around, q);
    ApplyingFrom(site.around.assignments, scope, q, year);
    var found := Applying(site.around.assignments, scope, q, year);
    forall a | a in found ensures Request(a.key, a.version) in refs {
      var i :| 0 <= i < |site.around.assignments| && site.around.assignments[i] == a;
    }
    hide Applying;
    assert forall i | 0 <= i < |found| :: found[i] in found;
  }

  /** A site that stores references of the set only asks for their requests only. */
  lemma HeldIsAsked(refs: iset<Request>, site: Site)
    requires HoldsOnly(refs, site)
    ensures SiteAsks(Requested(refs), site)
  {
    hide Blank;
    forall q
      ensures ChainAsks(Requested(refs), Candidates(site, q))
    {
      ChainIsHeld(refs, site, q);
      hide Candidates;
    }
  }

  lemma ChainIsHeld(refs: iset<Request>, site: Site, q: Query)
    requires HoldsOnly(refs, site)
    ensures ChainHeld(refs, Candidates(site, q))
  {
    AssignmentsHeld(refs, site, CourseAssignment, CourseScope, q);
    AssignmentsHeld(refs, site, SchoolAssignment, SchoolScope, q);
    AssignmentsHeld(refs, site, YearFreeze, YearScope, q);
    AssignmentsHeld(refs, site, TenantAssignment, TenantScope, q);
    hide AssignmentCandidates, FALLBACK, EffectiveYear, Blank;
  }

  /** References without a colon in the key and without the version called latest will do. */
  lemma PlainAreUnambiguous(refs: iset<Request>)
    requires forall r | r in refs :: Plain(r)
    ensures Unambiguous(Requested(refs))
  {
    hide Blank;
    assert forall r | r in Requested(refs) :: Plain(r);
    forall r, r' | r in Requested(refs) && r' in Requested(refs) && Asked(r) == Asked(r')
      ensures SameAsk(r, r')
    {
      PackKeyCollisions(0, r, 0, 0, r', 0);
      PlainKeysDistinct(0, r, 0, 0, r', 0);
    }
  }
}
