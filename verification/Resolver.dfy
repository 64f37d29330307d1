/** Which curriculum profile is in force: the candidate chain, the choice among its candidates, and
    the resolver's own cache on top of the pack store's. */
module Resolver {
  import opened Wrappers
  import opened Text
  import opened Registry
  import opened PackStore
  import opened PackStoreRequests
  import L = Lifecycle

  // ----- data the resolver reads

  datatype Course = Course(profileKey: Option<string>, profileVersion: Option<string>, academicYear: Option<nat>)

  datatype School = School(profileKey: Option<string>, profileVersion: Option<string>)

  datatype Scope = CourseScope | SchoolScope | YearScope | TenantScope

  datatype Assignment = Assignment(
    scope: Scope, school: Option<nat>, course: Option<nat>, year: Option<nat>,
    active: bool, isFrozen: bool, key: string, version: Option<string>)

  datatype Flags = Flags(lifecycle: bool, packStore: bool, pinning: bool)

  /** Everything besides the release rows and tenant settings; assignments are in `latest_first` order. */
  datatype Surroundings = Surroundings(
    flags: Flags, courses: map<nat, Course>, schools: map<nat, School>, assignments: seq<Assignment>,
    districtKey: Option<string>, districtVersion: Option<string>)

  datatype Site = Site(db: L.Db, around: Surroundings)

  datatype Query = Query(school: Option<nat>, course: Option<nat>, year: Option<nat>)

  /** `academic_year ||= course&.academic_year` */
  function EffectiveYear(around: Surroundings, q: Query): Option<nat> {
    if q.year.Some? || q.course.None? || q.course.value !in around.courses then q.year
    else around.courses[q.course.value].academicYear
  }

  // ----- the candidate chain

  /** The level fixes a candidate's `selected_from` and `source`. */
  datatype Level =
    | CourseSettings | CourseAssignment | SchoolOverride | SchoolAssignment | YearFreeze
    | TenantAssignment | TenantDefault | DistrictDefault | SystemFallback

  datatype Candidate = Candidate(level: Level, key: string, version: Option<string>)

  predicate Given(key: Option<string>) { key.Some? && !Blank(key.value) }

  function Maybe(level: Level, key: Option<string>, version: Option<string>): seq<Candidate> {
    if Given(key) then [Candidate(level, key.value, version)] else []
  }

  predicate AssignmentApplies(a: Assignment, scope: Scope, q: Query, year: Option<nat>) {
    && a.active && a.scope == scope
    && match scope
       case CourseScope => q.course.Some? && a.course == q.course && (a.year.None? || a.year == year)
       case SchoolScope => q.school.Some? && a.school == q.school && (a.year.None? || a.year == year)
       case YearScope => year.Some? && a.year == year && a.isFrozen
       case TenantScope => a.school.None? && a.course.None? && a.year.None?
  }

  function Applying(assignments: seq<Assignment>, scope: Scope, q: Query, year: Option<nat>): seq<Assignment> {
    if assignments == [] then [] else
    (if AssignmentApplies(assignments[0], scope, q, year) then [assignments[0]] else [])
    + Applying(assignments[1..], scope, q, year)
  }

  function AssignmentCandidates(site: Site, level: Level, scope: Scope, q: Query): seq<Candidate> {
    if !site.around.flags.pinning && !site.db.settings.assignmentEnabled then [] else
    var found := Applying(site.around.assignments, scope, q, EffectiveYear(site.around, q));
    var limited := if |found| > 2 then found[..2] else found;
    seq(|limited|, i requires 0 <= i < |limited| => Candidate(level, limited[i].key, limited[i].version))
  }

  const FALLBACK := Candidate(SystemFallback, DEFAULT_PROFILE_KEY, None)

  function CourseCandidates(around: Surroundings, q: Query): seq<Candidate> {
    if q.course.Some? && q.course.value in around.courses then
      var c := around.courses[q.course.value];
      Maybe(CourseSettings, c.profileKey, c.profileVersion)
    else []
  }

  function SchoolCandidates(around: Surroundings, q: Query): seq<Candidate> {
    if q.school.Some? && q.school.value in around.schools then
      var s := around.schools[q.school.value];
      Maybe(SchoolOverride, s.profileKey, s.profileVersion)
    else []
  }

  function Candidates(site: Site, q: Query): seq<Candidate> {
    CourseCandidates(site.around, q)
    + AssignmentCandidates(site, CourseAssignment, CourseScope, q)
    + SchoolCandidates(site.around, q)
    + AssignmentCandidates(site, SchoolAssignment, SchoolScope, q)
    + AssignmentCandidates(site, YearFreeze, YearScope, q)
    + AssignmentCandidates(site, TenantAssignment, TenantScope, q)
    + Maybe(TenantDefault, site.db.settings.defaultKey, site.db.settings.defaultVersion)
    + Maybe(DistrictDefault, site.around.districtKey, site.around.districtVersion)
    + [FALLBACK]
  }

  // ----- choosing

  datatype Reason = MissingVersion | MissingKey | InvalidState | PackValidationError

  datatype Selected = Selected(candidate: Candidate, profile: Profile, source: Source, releaseId: Option<nat>)

  /** `resolve_profile_for_candidate` given the pack store's answer for the candidate. */
  function FromRecord(sys: System, site: Site, c: Candidate, answer: Option<Record>): Option<Selected> {
    if Blank(c.key) then None
    else if site.around.flags.packStore then
      if answer.None? || answer.value.payload == map[] then None
      else Some(Selected(c, answer.value.payload, answer.value.source, answer.value.releaseId))
    else
      var p := FindSystem(sys, c.key, c.version);
      if p.None? || p.value == map[] then None else Some(Selected(c, p.value, SystemPack, None))
  }

  function VersionOf(p: Profile): Json {
    Either(Nested(p, Versioning, "version"), Get(p, Version))
  }

  predicate ReleaseEligible(rs: Releases, key: string, version: Json) {
    version.Str? && Find(rs, key, version.s).Some? ==> Eligible(rs[Find(rs, key, version.s).value].status)
  }

  /** The lifecycle check that applies only while the pack store is off. */
  predicate Acceptable(site: Site, s: Selected) {
    site.around.flags.packStore || !site.around.flags.lifecycle
    || ReleaseEligible(site.db.rs, s.candidate.key, VersionOf(s.profile))
  }

  function MissingReason(c: Candidate): Reason {
    if Presence(c.version).Some? then MissingVersion else MissingKey
  }

  function OrReason(first: Option<Reason>, then_: Reason): Option<Reason> {
    if first.Some? then first else Some(then_)
  }

  /** The state of a resolution under way: the pack store's cache is threaded through it. */
  datatype Choice = Choice(selected: Option<Selected>, reason: Option<Reason>, cache: Cache)

  function Ask(sys: System, tenantId: nat, site: Site, cache: Cache, c: Candidate): (Option<Selected>, Cache) {
    if Blank(c.key) || !site.around.flags.packStore then (FromRecord(sys, site, c, None), cache)
    else
      var (answer, after) :=
        Fetch(sys, tenantId, site.db.rs, site.db.settings.packBust, cache, Request(c.key, Presence(c.version)));
      (FromRecord(sys, site, c, answer), after)
  }

  function Choose(sys: System, tenantId: nat, site: Site, cs: seq<Candidate>, reason: Option<Reason>,
    cache: Cache): Choice {
    if cs == [] then Choice(None, OrReason(reason, MissingKey), cache)
    else if Blank(cs[0].key) then Choose(sys, tenantId, site, cs[1..], reason, cache)
    else
      var (found, after) := Ask(sys, tenantId, site, cache, cs[0]);
      if found.None? then Choose(sys, tenantId, site, cs[1..], OrReason(reason, MissingReason(cs[0])), after)
      else if !Acceptable(site, found.value) then
        Choose(sys, tenantId, site, cs[1..], OrReason(reason, InvalidState), after)
      else Choice(found, reason, after)
  }

  /** A resolution without its trace id and timestamp; the remaining keys of the real hash are
      read off the profile. */
  datatype Resolved = Resolved(
    profile: Profile, level: Level, source: Option<Source>, releaseId: Option<nat>,
    reason: Option<Reason>, chain: seq<Candidate>)

  function ResolveThrough(sys: System, tenantId: nat, site: Site, q: Query, cache: Cache): (Resolved, Cache) {
    var chain := Candidates(site, q);
    var choice := Choose(sys, tenantId, site, chain, None, cache);
    var (first, cache1) :=
      if choice.selected.Some? then (choice.selected, choice.cache)
      else Ask(sys, tenantId, site, choice.cache, FALLBACK);
    if first.Some? then
      (Resolved(first.value.profile, first.value.candidate.level, Some(first.value.source), first.value.releaseId,
        choice.reason, chain), cache1)
    else
      var (second, cache2) := Ask(sys, tenantId, site, cache1, FALLBACK);
      var reason := OrReason(choice.reason, PackValidationError);
      if second.Some? then
        (Resolved(second.value.profile, SystemFallback, Some(second.value.source), second.value.releaseId,
          reason, chain), cache2)
      else (Resolved(FallbackProfile(sys), SystemFallback, None, None, reason, chain), cache2)
  }

  // ----- reference: resolution without any cache

  function Lookup(sys: System, site: Site, c: Candidate): Option<Selected> {
    FromRecord(sys, site, c, FetchUncached(sys, site.db.rs, Request(c.key, Presence(c.version))))
  }

  predicate Passes(sys: System, site: Site, c: Candidate) {
    Lookup(sys, site, c).Some? && Acceptable(site, Lookup(sys, site, c).value)
  }

  /** The first candidate with a key that resolves to an acceptable profile. */
  function FirstPassing(sys: System, site: Site, cs: seq<Candidate>): (r: Option<nat>)
    ensures r.Some? ==> r.value < |cs| && Passes(sys, site, cs[r.value]) && !Blank(cs[r.value].key)
    ensures forall i | 0 <= i < (if r.Some? then r.value else |cs|) :: !Passes(sys, site, cs[i])
  {
    if cs == [] then None
    else if Passes(sys, site, cs[0]) then Some(0)
    else
      var rest := FirstPassing(sys, site, cs[1..]);
      assert forall i | 1 <= i < |cs| :: cs[i] == cs[1..][i - 1];
      if rest.None? then None else Some(rest.value + 1)
  }

  /** The reason recorded by the first skipped candidate that had a key. */
  function FirstReason(sys: System, site: Site, cs: seq<Candidate>): Option<Reason> {
    if cs == [] then None
    else if Blank(cs[0].key) then FirstReason(sys, site, cs[1..])
    else if Lookup(sys, site, cs[0]).None? then Some(MissingReason(cs[0]))
    else if !Acceptable(site, Lookup(sys, site, cs[0]).value) then Some(InvalidState)
    else None
  }

  function ResolveUncached(sys: System, site: Site, q: Query): Resolved {
    var chain := Candidates(site, q);
    var i := FirstPassing(sys, site, chain);
    if i.Some? then
      var s := Lookup(sys, site, chain[i.value]).value;
      Resolved(s.profile, s.candidate.level, Some(s.source), s.releaseId, FirstReason(sys, site, chain), chain)
    else
      var reason := OrReason(FirstReason(sys, site, chain), MissingKey);
      var last := Lookup(sys, site, FALLBACK);
      if last.Some? then
        Resolved(last.value.profile, SystemFallback, Some(last.value.source), last.value.releaseId, reason, chain)
      else Resolved(FallbackProfile(sys), SystemFallback, None, None, reason, chain)
  }

  // ----- the loop refines the reference

  /** The request that resolution makes for a candidate. */
  function RequestOf(c: Candidate): Request { Request(c.key, Presence(c.version)) }

  ghost predicate ChainAsks(requests: iset<Request>, cs: seq<Candidate>) {
    forall c | c in cs && !Blank(c.key) :: RequestOf(c) in requests
  }

  /** With the pack store on, resolution asks it for requests of the set only. */
  ghost predicate SiteAsks(requests: iset<Request>, site: Site) {
    site.around.flags.packStore ==> forall q :: ChainAsks(requests, Candidates(site, q))
  }

  /** The pack store's cache as the resolver may rely on it: made of requests from the set, and answering
      as the rows do under the current counter. */
  ghost predicate Trusted(requests: iset<Request>, sys: System, tenantId: nat, site: Site, cache: Cache) {
    forall k | k in cache ::
      && k == PackKey(tenantId, cache[k].request, cache[k].bust)
      && cache[k].request in requests && !Blank(cache[k].request.key)
      && (cache[k].bust == site.db.settings.packBust ==>
            Answer(cache[k].value) == Answer(FetchUncached(sys, site.db.rs, cache[k].request)))
  }

  lemma TrustedFetch(requests: iset<Request>, sys: System, tenantId: nat, site: Site, cache: Cache, req: Request)
    requires Unambiguous(requests) && Trusted(requests, sys, tenantId, site, cache)
    requires req in requests && !Blank(req.key)
    ensures
      var (answer, after) := Fetch(sys, tenantId, site.db.rs, site.db.settings.packBust, cache, req);
      Answer(answer) == Answer(FetchUncached(sys, site.db.rs, req)) && Trusted(requests, sys, tenantId, site, after)
  {
    hide FetchUncached, PackKey, Blank, Answer;
    var key := PackKey(tenantId, req, site.db.settings.packBust);
    if key in cache {
      var e := cache[key];
      PackKeyCollisions(tenantId, e.request, e.bust, tenantId, req, site.db.settings.packBust);
      assert Asked(e.request) == Asked(req);
      hide Asked;
      SameAnswer(sys, site.db.rs, e.request, req);
    }
  }

  lemma AskIsLookup(requests: iset<Request>, sys: System, tenantId: nat, site: Site, cache: Cache, c: Candidate)
    requires Unambiguous(requests) && Trusted(requests, sys, tenantId, site, cache)
    requires site.around.flags.packStore && !Blank(c.key) ==> RequestOf(c) in requests
    ensures
      var (found, after) := Ask(sys, tenantId, site, cache, c);
      found == Lookup(sys, site, c) && Trusted(requests, sys, tenantId, site, after)
  {
    hide FetchUncached, Trusted, FindSystem, Blank, Unambiguous, Fetch;
    if site.around.flags.packStore && !Blank(c.key) {
      TrustedFetch(requests, sys, tenantId, site, cache, RequestOf(c));
    }
  }

  lemma {:induction false} ChooseIsFirstPassing(requests: iset<Request>, sys: System, tenantId: nat, site: Site,
    cs: seq<Candidate>, reason: Option<Reason>, cache: Cache)
    requires Unambiguous(requests) && Trusted(requests, sys, tenantId, site, cache)
    requires site.around.flags.packStore ==> ChainAsks(requests, cs)
    ensures
      var choice := Choose(sys, tenantId, site, cs, reason, cache);
      var i := FirstPassing(sys, site, cs);
      var first := if reason.Some? then reason else FirstReason(sys, site, cs);
      && Trusted(requests, sys, tenantId, site, choice.cache)
      && choice.selected == (if i.Some? then Lookup(sys, site, cs[i.value]) else None)
      && choice.reason == (if i.Some? then first else OrReason(first, MissingKey))
  {
    hide Lookup, Ask, Trusted, Acceptable, Unambiguous;
    if cs != [] {
      assert site.around.flags.packStore ==> ChainAsks(requests, cs[1..]);
      BlankFails(sys, site, cs[0]);
      AskIsLookup(requests, sys, tenantId, site, cache, cs[0]);
      var (found, after) := Ask(sys, tenantId, site, cache, cs[0]);
      if Blank(cs[0].key) {
        ChooseIsFirstPassing(requests, sys, tenantId, site, cs[1..], reason, cache);
      } else if found.None? {
        ChooseIsFirstPassing(requests, sys, tenantId, site, cs[1..], OrReason(reason, MissingReason(cs[0])), after);
      } else if !Acceptable(site, found.value) {
        ChooseIsFirstPassing(requests, sys, tenantId, site, cs[1..], OrReason(reason, InvalidState), after);
      }
    }
  }

  lemma BlankFails(sys: System, site: Site, c: Candidate)
    ensures Blank(c.key) ==> Lookup(sys, site, c).None?
  {
  }

  lemma FallbackLast(site: Site, q: Query)
    ensures FALLBACK in Candidates(site, q)
  {
    hide AssignmentCandidates, CourseCandidates, SchoolCandidates, Maybe, FALLBACK;
  }

  /** Resolution through a trusted cache is resolution without one, and leaves the cache trusted. */
  lemma ResolveThroughIsUncached(requests: iset<Request>, sys: System, tenantId: nat, site: Site, q: Query,
    cache: Cache)
    requires Unambiguous(requests) && Trusted(requests, sys, tenantId, site, cache)
    requires site.around.flags.packStore ==> ChainAsks(requests, Candidates(site, q))
    ensures
      var (r, after) := ResolveThrough(sys, tenantId, site, q, cache);
      r == ResolveUncached(sys, site, q) && Trusted(requests, sys, tenantId, site, after)
  {
    FallbackLast(site, q);
    LookupCandidate(sys, site, FALLBACK);
    assert FALLBACK.level == SystemFallback;
    hide Candidates, Choose, Ask, Lookup, Trusted, FirstReason, FALLBACK, Unambiguous;
    var chain := Candidates(site, q);
    ChooseIsFirstPassing(requests, sys, tenantId, site, chain, None, cache);
    var choice := Choose(sys, tenantId, site, chain, None, cache);
    AskIsLookup(requests, sys, tenantId, site, choice.cache, FALLBACK);
    AskIsLookup(requests, sys, tenantId, site, Ask(sys, tenantId, site, choice.cache, FALLBACK).1, FALLBACK);
  }

  // ----- what a resolution adds to the pack store's cache

  ghost predicate FiledNow(requests: iset<Request>, sys: System, tenantId: nat, site: Site, key: string, e: Entry) {
    && key == PackKey(tenantId, e.request, e.bust) && e.bust == site.db.settings.packBust
    && e.request in requests && !Blank(e.request.key) && e.value == FetchUncached(sys, site.db.rs, e.request)
  }

  ghost predicate Extends(requests: iset<Request>, sys: System, tenantId: nat, site: Site, before: Cache,
    after: Cache) { && (forall k | k in before :: k in after && after[k] == before[k])
    && (forall k | k in after :: k in before || FiledNow(requests, sys, tenantId, site, k, after[k]))
  }

  lemma ExtendsFurther(requests: iset<Request>, sys: System, tenantId: nat, site: Site, a: Cache, b: Cache, c: Cache)
    requires Extends(requests, sys, tenantId, site, a, b) && Extends(requests, sys, tenantId, site, b, c)
    ensures Extends(requests, sys, tenantId, site, a, c)
  {
    hide FiledNow;
  }

  lemma AskExtends(requests: iset<Request>, sys: System, tenantId: nat, site: Site, cache: Cache, c: Candidate)
    requires site.around.flags.packStore && !Blank(c.key) ==> RequestOf(c) in requests
    ensures Extends(requests, sys, tenantId, site, cache, Ask(sys, tenantId, site, cache, c).1)
  {
    hide FetchUncached, PackKey, FromRecord, Blank;
  }

  lemma {:induction false} ChooseExtends(requests: iset<Request>, sys: System, tenantId: nat, site: Site,
    cs: seq<Candidate>, reason: Option<Reason>, cache: Cache)
    requires site.around.flags.packStore ==> ChainAsks(requests, cs)
    ensures Extends(requests, sys, tenantId, site, cache, Choose(sys, tenantId, site, cs, reason, cache).cache)
  {
    if cs == [] {
      assert Extends(requests, sys, tenantId, site, cache, cache);
    } else {
      assert site.around.flags.packStore ==> ChainAsks(requests, cs[1..]);
      AskExtends(requests, sys, tenantId, site, cache, cs[0]);
      hide Ask, Acceptable, Extends, ChainAsks, Blank;
      var (found, after) := Ask(sys, tenantId, site, cache, cs[0]);
      var rest := cs[1..];
      if Blank(cs[0].key) {
        ChooseExtends(requests, sys, tenantId, site, rest, reason, cache);
      } else if found.None? || !Acceptable(site, found.value) {
        var next := OrReason(reason, if found.None? then MissingReason(cs[0]) else InvalidState);
        ChooseExtends(requests, sys, tenantId, site, rest, next, after);
        var last := Choose(sys, tenantId, site, rest, next, after).cache;
        ExtendsFurther(requests, sys, tenantId, site, cache, after, last);
      }
    }
  }

  lemma ResolveExtends(requests: iset<Request>, sys: System, tenantId: nat, site: Site, q: Query, cache: Cache)
    requires site.around.flags.packStore ==> ChainAsks(requests, Candidates(site, q))
    ensures Extends(requests, sys, tenantId, site, cache, ResolveThrough(sys, tenantId, site, q, cache).1)
  {
    FallbackLast(site, q);
    hide Extends, Choose, Ask, Candidates, FALLBACK, FallbackProfile, Blank;
    var chain := Candidates(site, q);
    ChooseExtends(requests, sys, tenantId, site, chain, None, cache);
    var one := Choose(sys, tenantId, site, chain, None, cache).cache;
    AskExtends(requests, sys, tenantId, site, one, FALLBACK);
    var two := Ask(sys, tenantId, site, one, FALLBACK).1;
    AskExtends(requests, sys, tenantId, site, two, FALLBACK);
    var three := Ask(sys, tenantId, site, two, FALLBACK).1;
    ExtendsFurther(requests, sys, tenantId, site, cache, one, two);
    ExtendsFurther(requests, sys, tenantId, site, cache, two, three);
  }

  // ----- precedence

  /** Resolution respects precedence: the profile comes from the first candidate that passes; a reason
      is recorded iff some candidate with a key was skipped on the way; when none passes the built-in
      fallback is still returned. */
  lemma ResolutionRespectsPrecedence(sys: System, site: Site, q: Query)
    ensures
      var r := ResolveUncached(sys, site, q);
      var i := FirstPassing(sys, site, r.chain);
      && r.chain == Candidates(site, q)
      && (i.Some? ==>
           && Passes(sys, site, r.chain[i.value])
           && (forall j | 0 <= j < i.value :: !Passes(sys, site, r.chain[j]))
           && r.level == r.chain[i.value].level
           && (r.reason.None? <==> forall j | 0 <= j < i.value :: Blank(r.chain[j].key)))
      && (i.None? ==>
           && (forall j | 0 <= j < |r.chain| :: !Passes(sys, site, r.chain[j]))
           && r.level == SystemFallback && r.reason.Some?)
  {
    hide Candidates, Acceptable;
    var chain := Candidates(site, q);
    ReasonIffSkipped(sys, site, chain);
    var i := FirstPassing(sys, site, chain);
    if i.Some? {
      LookupCandidate(sys, site, chain[i.value]);
    }
  }

  lemma LookupCandidate(sys: System, site: Site, c: Candidate)
    ensures Lookup(sys, site, c).Some? ==> Lookup(sys, site, c).value.candidate == c
  {
  }

  lemma {:induction false} ReasonIffSkipped(sys: System, site: Site, cs: seq<Candidate>)
    ensures
      var i := FirstPassing(sys, site, cs);
      i.Some? ==> (FirstReason(sys, site, cs).None? <==> forall j | 0 <= j < i.value :: Blank(cs[j].key))
  {
    hide Lookup, Acceptable;
    if cs != [] {
      BlankFails(sys, site, cs[0]);
      ReasonIffSkipped(sys, site, cs[1..]);
      var i := FirstPassing(sys, site, cs);
      if i.Some? && i.value > 0 {
        if forall j | 0 <= j < i.value :: Blank(cs[j].key) {
          forall j | 0 <= j < i.value - 1 ensures Blank(cs[1..][j].key) { assert Blank(cs[j + 1].key); }
        }
        if Blank(cs[0].key) && forall j | 0 <= j < i.value - 1 :: Blank(cs[1..][j].key) {
          forall j | 0 <= j < i.value ensures Blank(cs[j].key) {
            if j > 0 { assert cs[j] == cs[1..][j - 1]; }
          }
        }
      }
    }
  }

  /** Precedence of the levels, the strongest first. */
  function Precedence(level: Level): nat {
    match level
    case CourseSettings => 0
    case CourseAssignment => 1
    case SchoolOverride => 2
    case SchoolAssignment => 3
    case YearFreeze => 4
    case TenantAssignment => 5
    case TenantDefault => 6
    case DistrictDefault => 7
    case SystemFallback => 8
  }

  predicate AtLevel(cs: seq<Candidate>, level: Level) { forall c | c in cs :: c.level == level }

  predicate Ordered(cs: seq<Candidate>) {
    forall i, j | 0 <= i < j < |cs| :: Precedence(cs[i].level) <= Precedence(cs[j].level)
  }

  predicate UpTo(cs: seq<Candidate>, rank: nat) { forall c | c in cs :: Precedence(c.level) <= rank }

  lemma OrderedAppend(cs: seq<Candidate>, above: Level, more: seq<Candidate>, level: Level)
    requires Ordered(cs) && UpTo(cs, Precedence(above)) && AtLevel(more, level)
        && Precedence(above) <= Precedence(level)
    ensures Ordered(cs + more) && UpTo(cs + more, Precedence(level))
  {
    forall i, j | 0 <= i < j < |cs + more|
      ensures Precedence((cs + more)[i].level) <= Precedence((cs + more)[j].level)
    {
      assert i < |cs| ==> cs[i] in cs;
      assert j >= |cs| ==> more[j - |cs|] in more;
      assert i >= |cs| ==> more[i - |cs|] in more;
    }
  }

  /** The part of the chain down to the school's own setting. */
  function UpperChain(site: Site, q: Query): seq<Candidate> {
    CourseCandidates(site.around, q)
    + AssignmentCandidates(site, CourseAssignment, CourseScope, q)
    + SchoolCandidates(site.around, q)
  }

  lemma UpperOrdered(site: Site, q: Query)
    ensures Ordered(UpperChain(site, q)) && UpTo(UpperChain(site, q), Precedence(SchoolOverride))
  {
    LevelsNamed(site, q);
    hide AssignmentCandidates, CourseCandidates, SchoolCandidates, Ordered, UpTo, AtLevel;
    var c0 := CourseCandidates(site.around, q);
    OneLevel(c0, CourseSettings);
    var c1 := AssignmentCandidates(site, CourseAssignment, CourseScope, q);
    OrderedAppend(c0, CourseSettings, c1, CourseAssignment);
    OrderedAppend(c0 + c1, CourseAssignment, SchoolCandidates(site.around, q), SchoolOverride);
  }

  lemma OneLevel(cs: seq<Candidate>, level: Level)
    requires AtLevel(cs, level)
    ensures Ordered(cs) && UpTo(cs, Precedence(level))
  {
    assert forall i | 0 <= i < |cs| :: cs[i] in cs;
  }

  /** The chain goes from the strongest level to the weakest and always ends in the system fallback. */
  lemma ChainOrdered(site: Site, q: Query)
    ensures
      var chain := Candidates(site, q);
      Ordered(chain) && chain != [] && chain[|chain| - 1] == FALLBACK
  {
    LevelsNamed(site, q);
    UpperOrdered(site, q);
    OneLevel([FALLBACK], SystemFallback);
    assert AtLevel([FALLBACK], SystemFallback);
    hide AssignmentCandidates, CourseCandidates, SchoolCandidates, Maybe, Ordered, UpTo, AtLevel, FALLBACK;
    var c2 := UpperChain(site, q);
    var c3 := c2 + AssignmentCandidates(site, SchoolAssignment, SchoolScope, q);
    OrderedAppend(c2, SchoolOverride, AssignmentCandidates(site, SchoolAssignment, SchoolScope, q), SchoolAssignment);
    var c4 := c3 + AssignmentCandidates(site, YearFreeze, YearScope, q);
    OrderedAppend(c3, SchoolAssignment, AssignmentCandidates(site, YearFreeze, YearScope, q), YearFreeze);
    var c5 := c4 + AssignmentCandidates(site, TenantAssignment, TenantScope, q);
    OrderedAppend(c4, YearFreeze, AssignmentCandidates(site, TenantAssignment, TenantScope, q), TenantAssignment);
    var tenant := Maybe(TenantDefault, site.db.settings.defaultKey, site.db.settings.defaultVersion);
    OrderedAppend(c5, TenantAssignment, tenant, TenantDefault);
    var district := Maybe(DistrictDefault, site.around.districtKey, site.around.districtVersion);
    OrderedAppend(c5 + tenant, TenantDefault, district, DistrictDefault);
    OrderedAppend(c5 + tenant + district, DistrictDefault, [FALLBACK], SystemFallback);
    assert Candidates(site, q) == c5 + tenant + district + [FALLBACK];
  }

  lemma LevelsNamed(site: Site, q: Query)
    ensures AtLevel(CourseCandidates(site.around, q), CourseSettings)
        && AtLevel(SchoolCandidates(site.around, q), SchoolOverride)
    ensures forall level, scope :: AtLevel(AssignmentCandidates(site, level, scope, q), level)
    ensures forall level, key, version :: AtLevel(Maybe(level, key, version), level)
  {
    hide Applying, Given;
  }

  /** A profile pinned in the course settings wins over everything else whenever it resolves. */
  lemma CourseSettingWins(sys: System, site: Site, q: Query)
    requires q.course.Some? && q.course.value in site.around.courses
        && Given(site.around.courses[q.course.value].profileKey)
    ensures
      var course := site.around.courses[q.course.value];
      var pinned := Candidate(CourseSettings, course.profileKey.value, course.profileVersion);
      var r := ResolveUncached(sys, site, q);
      Passes(sys, site, pinned) ==>
        r.level == CourseSettings && r.reason == None && Lookup(sys, site, pinned).value.profile == r.profile
  {
    PinnedLeads(site, q);
    var course := site.around.courses[q.course.value];
    var pinned := Candidate(CourseSettings, course.profileKey.value, course.profileVersion);
    LookupCandidate(sys, site, pinned);
    hide Candidates, Lookup, Acceptable, Blank;
  }

  lemma PinnedLeads(site: Site, q: Query)
    requires q.course.Some? && q.course.value in site.around.courses
        && Given(site.around.courses[q.course.value].profileKey)
    ensures
      var course := site.around.courses[q.course.value];
      Candidates(site, q) != []
      && Candidates(site, q)[0] == Candidate(CourseSettings, course.profileKey.value, course.profileVersion)
      && !Blank(course.profileKey.value)
  {
    hide AssignmentCandidates, SchoolCandidates, Blank, FALLBACK;
    assert CourseCandidates(site.around, q) != [];
  }

  // ----- the resolver's cache

  function IdPart(id: Option<nat>): string { if id.None? then "none" else Digits(id.value) }

  function ResolverKey(tenantId: nat, school: Option<nat>, course: Option<nat>, year: Option<nat>, bust: nat): string {
    "curriculum_resolver_v2:" + Digits(tenantId) + [':'] + IdPart(school) + [':'] + IdPart(course)
    + [':'] + IdPart(year) + [':'] + Digits(bust)
  }

  lemma IdPartInjective(a: Option<nat>, b: Option<nat>)
    ensures ':' !in IdPart(a)
    ensures IdPart(a) == IdPart(b) ==> a == b
  {
    if a.Some? { NoColonInDigits(a.value); ReadDigitsOfDigits(a.value); }
    if b.Some? { ReadDigitsOfDigits(b.value); }
    assert "none"[0] == 'n' && !IsDigit('n');
  }

  /** Resolver keys, unlike pack keys, never collide. */
  lemma ResolverKeysDistinct(t: nat, school: Option<nat>, course: Option<nat>, year: Option<nat>, b: nat,
    t': nat, school': Option<nat>, course': Option<nat>, year': Option<nat>, b': nat)
    requires ResolverKey(t, school, course, year, b) == ResolverKey(t', school', course', year', b')
    ensures t == t' && school == school' && course == course' && year == year' && b == b'
  {
    hide IdPart, Digits;
    var name := "curriculum_resolver_v2:";
    var ns, ns' := name + Digits(t), name + Digits(t');
    var p1, p1' := ns + [':'] + IdPart(school), ns' + [':'] + IdPart(school');
    var p2, p2' := p1 + [':'] + IdPart(course), p1' + [':'] + IdPart(course');
    var p3, p3' := p2 + [':'] + IdPart(year), p2' + [':'] + IdPart(year');
    NoColonInDigits(b);
    NoColonInDigits(b');
    IdPartInjective(year, year');
    IdPartInjective(year', year);
    IdPartInjective(course, course');
    IdPartInjective(course', course);
    IdPartInjective(school, school');
    IdPartInjective(school', school);
    SplitAtLast(p3, Digits(b), p3', Digits(b'), ':');
    SplitAtLast(p2, IdPart(year), p2', IdPart(year'), ':');
    SplitAtLast(p1, IdPart(course), p1', IdPart(course'), ':');
    SplitAtLast(ns, IdPart(school), ns', IdPart(school'), ':');
    AfterPrefix(name, Digits(t), Digits(t'));
    ReadDigitsOfDigits(t);
    ReadDigitsOfDigits(t');
    ReadDigitsOfDigits(b);
    ReadDigitsOfDigits(b');
  }

  lemma AfterPrefix(prefix: string, a: string, b: string)
    requires prefix + a == prefix + b
    ensures a == b
  {
    assert (prefix + a)[|prefix|..] == a && (prefix + b)[|prefix|..] == b;
  }

  lemma SameResolution(sys: System, site: Site, q: Query, q': Query)
    requires q.school == q'.school && q.course == q'.course
    requires EffectiveYear(site.around, q) == EffectiveYear(site.around, q')
    ensures ResolveUncached(sys, site, q) == ResolveUncached(sys, site, q')
  {
    SameApplying(site.around.assignments, CourseScope, q, q', EffectiveYear(site.around, q));
    SameApplying(site.around.assignments, SchoolScope, q, q', EffectiveYear(site.around, q));
    SameApplying(site.around.assignments, YearScope, q, q', EffectiveYear(site.around, q));
    SameApplying(site.around.assignments, TenantScope, q, q', EffectiveYear(site.around, q));
    hide EffectiveYear, Applying, FirstPassing, FirstReason, Lookup;
    assert Candidates(site, q) == Candidates(site, q');
  }

  lemma {:induction false} SameApplying(assignments: seq<Assignment>, scope: Scope, q: Query, q': Query,
    year: Option<nat>)
    requires q.school == q'.school && q.course == q'.course
    ensures Applying(assignments, scope, q, year) == Applying(assignments, scope, q', year)
  {
    if assignments != [] {
      SameApplying(assignments[1..], scope, q, q', year);
    }
  }

  // ----- resolution through both caches

  /** A resolver entry with its history. */
  datatype Kept = Kept(resolved: Resolved, query: Query, year: Option<nat>, bust: nat)

  /** A deployment: data and both caches. `unflushed` records that something an answer may depend
      on changed since the last publish, deprecate, freeze or rollback. */
  datatype Deployment = Deployment(site: Site, packs: Cache, kept: map<string, Kept>, unflushed: bool)

  function KeyNow(tenantId: nat, site: Site, q: Query): string {
    ResolverKey(tenantId, q.school, q.course, EffectiveYear(site.around, q), site.db.settings.resolverBust)
  }

  /** `resolve`: the answer and the two caches afterwards. */
  function ResolveCached(sys: System, tenantId: nat, d: Deployment, q: Query): (Resolved, Deployment) {
    var bust := d.site.db.settings.resolverBust;
    var year := EffectiveYear(d.site.around, q);
    var s := KeyNow(tenantId, d.site, q);
    if s in d.kept then (d.kept[s].resolved, d)
    else
      var (r, packs) := ResolveThrough(sys, tenantId, d.site, q, d.packs);
      (r, d.(packs := packs, kept := d.kept[s := Kept(r, q, year, bust)]))
  }

  /** The resolver over a pack cache. */
  class ResolverService {
    const packs: PackCache
    var kept: map<string, Kept>

    constructor (packs: PackCache)
      ensures this.packs == packs && kept == map[]
    {
      this.packs := packs;
      kept := map[];
    }

    method BuildCandidates(site: Site, q: Query) returns (chain: seq<Candidate>)
      ensures chain == Candidates(site, q)
      ensures Ordered(chain) && chain != [] && chain[|chain| - 1] == FALLBACK
    {
      ChainOrdered(site, q);
      hide Ordered, AssignmentCandidates, CourseCandidates, SchoolCandidates, Maybe;
      chain := CourseCandidates(site.around, q);
      chain := chain + AssignmentCandidates(site, CourseAssignment, CourseScope, q);
      chain := chain + SchoolCandidates(site.around, q);
      chain := chain + AssignmentCandidates(site, SchoolAssignment, SchoolScope, q);
      chain := chain + AssignmentCandidates(site, YearFreeze, YearScope, q);
      chain := chain + AssignmentCandidates(site, TenantAssignment, TenantScope, q);
      chain := chain + Maybe(TenantDefault, site.db.settings.defaultKey, site.db.settings.defaultVersion);
      chain := chain + Maybe(DistrictDefault, site.around.districtKey, site.around.districtVersion);
      chain := chain + [FALLBACK];
    }

    method AskStore(site: Site, c: Candidate) returns (found: Option<Selected>)
      modifies packs`entries
      ensures (found, packs.entries) == Ask(packs.sys, packs.tenantId, site, old(packs.entries), c)
    {
      if Blank(c.key) || !site.around.flags.packStore {
        found := FromRecord(packs.sys, site, c, None);
      } else {
        var answer := packs.FetchPack(site.db.rs, site.db.settings.packBust, Request(c.key, Presence(c.version)));
        found := FromRecord(packs.sys, site, c, answer);
      }
    }

    method ChooseCandidate(site: Site, cs: seq<Candidate>) returns (selected: Option<Selected>, reason: Option<Reason>)
      modifies packs`entries
      ensures Choice(selected, reason, packs.entries)
           == Choose(packs.sys, packs.tenantId, site, cs, None, old(packs.entries))
    {
      reason := None;
      var i := 0;
      while i < |cs|
        invariant 0 <= i <= |cs|
        invariant Choose(packs.sys, packs.tenantId, site, cs[i..], reason, packs.entries)
               == Choose(packs.sys, packs.tenantId, site, cs, None, old(packs.entries))
      {
        hide Ask, Acceptable, Blank;
        var c := cs[i];
        assert cs[i..][0] == c && cs[i..][1..] == cs[i + 1..];
        if !Blank(c.key) {
          var found := AskStore(site, c);
          if found.None? {
            reason := OrReason(reason, MissingReason(c));
          } else if !Acceptable(site, found.value) {
            reason := OrReason(reason, InvalidState);
          } else {
            return found, reason;
          }
        }
        i := i + 1;
      }
      return None, OrReason(reason, MissingKey);
    }

    method ResolveProfile(site: Site, q: Query, ghost unflushed: bool) returns (r: Resolved)
      modifies this`kept, packs`entries
      ensures
        var before := Deployment(site, old(packs.entries), old(kept), unflushed);
        (r, Deployment(site, packs.entries, kept, unflushed)) == ResolveCached(packs.sys, packs.tenantId, before, q)
    {
      hide Ask, Choose, Candidates, EffectiveYear, ResolverKey;
      var bust := site.db.settings.resolverBust;
      var year := EffectiveYear(site.around, q);
      var s := ResolverKey(packs.tenantId, q.school, q.course, year, bust);
      if s in kept {
        return kept[s].resolved;
      }
      var chain := BuildCandidates(site, q);
      var selected, reason := ChooseCandidate(site, chain);
      if selected.None? {
        selected := AskStore(site, FALLBACK);
      }
      if selected.Some? {
        r := Resolved(selected.value.profile, selected.value.candidate.level, Some(selected.value.source),
          selected.value.releaseId, reason, chain);
      } else {
        reason := OrReason(reason, PackValidationError);
        var fallback := AskStore(site, FALLBACK);
        r := if fallback.Some?
          then Resolved(fallback.value.profile, SystemFallback, Some(fallback.value.source), fallback.value.releaseId,
            reason, chain)
          else Resolved(FallbackProfile(packs.sys), SystemFallback, None, None, reason, chain);
      }
      kept := kept[s := Kept(r, q, year, bust)];
    }
  }
}
