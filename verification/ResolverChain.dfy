/** Which settings, assignments and defaults reach the candidate chain. */
module ResolverChain {
  import opened Wrappers
  import opened Text
  import opened Registry
  import opened PackStore
  import opened Resolver
  import L = Lifecycle

  /** The candidates of one level, in the order of the chain. */
  function From(cs: seq<Candidate>, level: Level): seq<Candidate> {
    if cs == [] then [] else
    From(cs[..|cs| - 1], level) + if cs[|cs| - 1].level == level then [cs[|cs| - 1]] else []
  }

  /** The candidates are those of the first two rows, in the order of the rows, that meet a condition. */
  ghost predicate FirstTwo(rows: seq<Assignment>, meets: Assignment -> bool, level: Level, cs: seq<Candidate>) {
    exists at: seq<nat> :: Picks(rows, meets, at) && Picked(rows, at, level, cs)
  }

  /** The indices of the first two rows, in order, that meet a condition. */
  ghost predicate Picks(rows: seq<Assignment>, meets: Assignment -> bool, at: seq<nat>) {
    && |at| <= 2
    && (forall k | 0 <= k < |at| :: at[k] < |rows| && meets(rows[at[k]]))
    && (forall k, l | 0 <= k < l < |at| :: at[k] < at[l])
    && (forall i | 0 <= i < |rows| && meets(rows[i]) :: i in at || (|at| == 2 && at[1] < i))
  }

  ghost predicate Picked(rows: seq<Assignment>, at: seq<nat>, level: Level, cs: seq<Candidate>) {
    && |cs| == |at|
    && (forall k | 0 <= k < |at| ::
          at[k] < |rows| && cs[k] == Candidate(level, rows[at[k]].key, rows[at[k]].version))
  }

  // ----- parts of a chain

  lemma {:induction false} FromConcat(a: seq<Candidate>, b: seq<Candidate>, level: Level)
    ensures From(a + b, level) == From(a, level) + From(b, level)
  {
    if b == [] {
      assert a + b == a;
    } else {
      assert (a + b)[..|a + b| - 1] == a + b[..|b| - 1];
      FromConcat(a, b[..|b| - 1], level);
    }
  }

  lemma AtLevelInit(cs: seq<Candidate>, own: Level)
    requires AtLevel(cs, own) && cs != []
    ensures AtLevel(cs[..|cs| - 1], own) && cs[|cs| - 1].level == own
  {
    assert cs[|cs| - 1] in cs;
    forall i | 0 <= i < |cs| - 1 ensures cs[i].level == own {
      assert cs[i] in cs;
    }
  }

  lemma {:induction false} FromOne(cs: seq<Candidate>, own: Level, level: Level)
    requires AtLevel(cs, own)
    ensures From(cs, level) == if own == level then cs else []
  {
    if cs != [] {
      AtLevelInit(cs, own);
      hide AtLevel;
      FromOne(cs[..|cs| - 1], own, level);
      assert cs == cs[..|cs| - 1] + [cs[|cs| - 1]];
    }
  }

  /** A further part of a chain. */
  lemma FromPart(before: seq<Candidate>, part: seq<Candidate>, own: Level, level: Level)
    requires AtLevel(part, own)
    ensures own != level ==> From(before + part, level) == From(before, level)
    ensures own == level && From(before, level) == [] ==> From(before + part, level) == part
  {
    FromConcat(before, part, level);
    FromOne(part, own, level);
    hide From, AtLevel;
  }

  // ----- assignments

  ghost predicate InRange(rows: seq<Assignment>, at: seq<nat>) { forall k | 0 <= k < |at| :: at[k] < |rows| }

  ghost predicate Increasing(at: seq<nat>) { forall k, l | 0 <= k < l < |at| :: at[k] < at[l] }

  ghost predicate Complete(rows: seq<Assignment>, meets: Assignment -> bool, at: seq<nat>) {
    forall i | 0 <= i < |rows| && meets(rows[i]) :: i in at
  }

  /** `at` holds the indices of the rows that meet a condition, in order. */
  ghost predicate AllThat(rows: seq<Assignment>, meets: Assignment -> bool, at: seq<nat>) {
    && InRange(rows, at) && Increasing(at) && Complete(rows, meets, at)
    && forall r | r in Rows(rows, at) :: meets(r)
  }

  function Rows(rows: seq<Assignment>, at: seq<nat>): (r: seq<Assignment>)
    requires InRange(rows, at)
    ensures |r| == |at| && forall k | 0 <= k < |at| :: r[k] == rows[at[k]]
  {
    seq(|at|, k requires 0 <= k < |at| => rows[at[k]])
  }

  function Shifted(at: seq<nat>): (r: seq<nat>)
    ensures |r| == |at| && forall k | 0 <= k < |at| :: r[k] == at[k] + 1
  {
    seq(|at|, k requires 0 <= k < |at| => at[k] + 1)
  }

  lemma ShiftedComplete(rows: seq<Assignment>, meets: Assignment -> bool, rest: seq<nat>)
    requires rows != [] && Complete(rows[1..], meets, rest)
    ensures Complete(rows, meets, [0] + Shifted(rest))
    ensures !meets(rows[0]) ==> Complete(rows, meets, Shifted(rest))
  {
    forall i | 0 <= i < |rows| && meets(rows[i])
      ensures i in [0] + Shifted(rest) && (i > 0 ==> i in Shifted(rest))
    {
      if i > 0 {
        assert rows[1..][i - 1] == rows[i];
        var k :| 0 <= k < |rest| && rest[k] == i - 1;
        assert Shifted(rest)[k] == i && ([0] + Shifted(rest))[k + 1] == i;
      } else {
        assert ([0] + Shifted(rest))[0] == 0;
      }
    }
  }

  lemma ShiftedIncreasing(rest: seq<nat>)
    requires Increasing(rest)
    ensures Increasing(Shifted(rest)) && Increasing([0] + Shifted(rest))
  {
  }

  lemma ShiftedRows(rows: seq<Assignment>, rest: seq<nat>)
    requires rows != [] && InRange(rows[1..], rest)
    ensures InRange(rows, Shifted(rest)) && InRange(rows, [0] + Shifted(rest))
    ensures Rows(rows, Shifted(rest)) == Rows(rows[1..], rest)
    ensures Rows(rows, [0] + Shifted(rest)) == [rows[0]] + Rows(rows[1..], rest)
  {
    assert forall k | 0 <= k < |rest| :: rows[rest[k] + 1] == rows[1..][rest[k]];
  }

  /** One more row in front. */
  lemma AllThatStep(rows: seq<Assignment>, meets: Assignment -> bool, rest: seq<nat>) returns (at: seq<nat>)
    requires rows != [] && AllThat(rows[1..], meets, rest)
    ensures AllThat(rows, meets, at) && InRange(rows, at)
    ensures Rows(rows, at) == (if meets(rows[0]) then [rows[0]] else []) + Rows(rows[1..], rest)
  {
    ShiftedComplete(rows, meets, rest);
    ShiftedIncreasing(rest);
    ShiftedRows(rows, rest);
    hide InRange, Increasing, Complete;
    at := (if meets(rows[0]) then [0] else []) + Shifted(rest);
    assert [] + Shifted(rest) == Shifted(rest) && [] + Rows(rows[1..], rest) == Rows(rows[1..], rest);
  }

  lemma {:induction false} ApplyingAll(rows: seq<Assignment>, scope: Scope, q: Query, year: Option<nat>,
    meets: Assignment -> bool) returns (at: seq<nat>)
    requires forall a :: meets(a) <==> AssignmentApplies(a, scope, q, year)
    ensures AllThat(rows, meets, at) && InRange(rows, at) && Applying(rows, scope, q, year) == Rows(rows, at)
  {
    if rows == [] {
      at := [];
    } else {
      var rest := ApplyingAll(rows[1..], scope, q, year, meets);
      hide AssignmentApplies, AllThat, InRange;
      at := AllThatStep(rows, meets, rest);
    }
  }

  lemma AssignmentsPicked(site: Site, level: Level, scope: Scope, q: Query, meets: Assignment -> bool)
    requires site.around.flags.pinning || site.db.settings.assignmentEnabled
    requires forall a :: meets(a) <==> AssignmentApplies(a, scope, q, EffectiveYear(site.around, q))
    ensures FirstTwo(site.around.assignments, meets, level, AssignmentCandidates(site, level, scope, q))
  {
    hide AssignmentApplies, EffectiveYear, Applying, AllThat, Picks;
    var rows := site.around.assignments;
    var all := ApplyingAll(rows, scope, q, EffectiveYear(site.around, q), meets);
    var at := if |all| > 2 then all[..2] else all;
    FrontPicks(rows, meets, all, at);
    CandidatesPicked(site, level, scope, q, all, at);
    hide Picked, AssignmentCandidates, InRange, Rows;
  }

  lemma CandidatesPicked(site: Site, level: Level, scope: Scope, q: Query, all: seq<nat>, at: seq<nat>)
    requires site.around.flags.pinning || site.db.settings.assignmentEnabled
    requires InRange(site.around.assignments, all) && at == if |all| > 2 then all[..2] else all
    requires Applying(site.around.assignments, scope, q, EffectiveYear(site.around, q))
          == Rows(site.around.assignments, all)
    ensures Picked(site.around.assignments, at, level, AssignmentCandidates(site, level, scope, q))
  {
    hide AssignmentApplies, EffectiveYear, Applying;
  }

  lemma FrontPicks(rows: seq<Assignment>, meets: Assignment -> bool, all: seq<nat>, at: seq<nat>)
    requires AllThat(rows, meets, all) && at == if |all| > 2 then all[..2] else all
    ensures Picks(rows, meets, at)
  {
    forall i | 0 <= i < |rows| && meets(rows[i])
      ensures i in at || (|at| == 2 && at[1] < i)
    {
      var k :| 0 <= k < |all| && all[k] == i;
      assert k < |at| ==> at[k] == i;
    }
  }

  lemma NoRows(meets: Assignment -> bool, level: Level)
    ensures FirstTwo([], meets, level, [])
  {
    assert Picks([], meets, []) && Picked([], [], level, []);
  }

  /** Only the two switches let assignments in. */
  lemma AssignmentsReached(site: Site, level: Level, scope: Scope, q: Query, meets: Assignment -> bool)
    requires forall a :: meets(a) <==> AssignmentApplies(a, scope, q, EffectiveYear(site.around, q))
    ensures
      var on := site.around.flags.pinning || site.db.settings.assignmentEnabled;
      FirstTwo(if on then site.around.assignments else [], meets, level, AssignmentCandidates(site, level, scope, q))
  {
    hide AssignmentApplies, EffectiveYear, FirstTwo;
    if site.around.flags.pinning || site.db.settings.assignmentEnabled {
      AssignmentsPicked(site, level, scope, q, meets);
    } else {
      NoRows(meets, level);
    }
  }

  // ----- the whole chain

  /** The effective academic year: the one asked for, else the course's own. */
  lemma YearAsked(around: Surroundings, q: Query)
    ensures q.year.Some? ==> EffectiveYear(around, q) == q.year
    ensures q.year.None? && q.course.Some? && q.course.value in around.courses ==>
              EffectiveYear(around, q) == around.courses[q.course.value].academicYear
    ensures q.year.None? && (q.course.None? || q.course.value !in around.courses) ==> EffectiveYear(around, q) == None
  {
  }

  lemma ChainParts(site: Site, q: Query, level: Level)
    ensures
      From(Candidates(site, q), level)
      == match level
         case CourseSettings => CourseCandidates(site.around, q)
         case CourseAssignment => AssignmentCandidates(site, CourseAssignment, CourseScope, q)
         case SchoolOverride => SchoolCandidates(site.around, q)
         case SchoolAssignment => AssignmentCandidates(site, SchoolAssignment, SchoolScope, q)
         case YearFreeze => AssignmentCandidates(site, YearFreeze, YearScope, q)
         case TenantAssignment => AssignmentCandidates(site, TenantAssignment, TenantScope, q)
         case TenantDefault => Maybe(TenantDefault, site.db.settings.defaultKey, site.db.settings.defaultVersion)
         case DistrictDefault => Maybe(DistrictDefault, site.around.districtKey, site.around.districtVersion)
         case SystemFallback => [FALLBACK]
  {
    LevelsNamed(site, q);
    assert FALLBACK.level == SystemFallback;
    hide AssignmentCandidates, CourseCandidates, SchoolCandidates, Maybe, FALLBACK, AtLevel;
    var c0 := CourseCandidates(site.around, q);
    var c1 := AssignmentCandidates(site, CourseAssignment, CourseScope, q);
    var c2 := SchoolCandidates(site.around, q);
    var c3 := AssignmentCandidates(site, SchoolAssignment, SchoolScope, q);
    var c4 := AssignmentCandidates(site, YearFreeze, YearScope, q);
    var c5 := AssignmentCandidates(site, TenantAssignment, TenantScope, q);
    var c6 := Maybe(TenantDefault, site.db.settings.defaultKey, site.db.settings.defaultVersion);
    var c7 := Maybe(DistrictDefault, site.around.districtKey, site.around.districtVersion);
    assert AtLevel([FALLBACK], SystemFallback) by { FallbackLevel(); }
    assert [] + c0 == c0 && From([], level) == [];
    hide From;
    FromPart([], c0, CourseSettings, level);
    FromPart(c0, c1, CourseAssignment, level);
    FromPart(c0 + c1, c2, SchoolOverride, level);
    FromPart(c0 + c1 + c2, c3, SchoolAssignment, level);
    FromPart(c0 + c1 + c2 + c3, c4, YearFreeze, level);
    FromPart(c0 + c1 + c2 + c3 + c4, c5, TenantAssignment, level);
    FromPart(c0 + c1 + c2 + c3 + c4 + c5, c6, TenantDefault, level);
    FromPart(c0 + c1 + c2 + c3 + c4 + c5 + c6, c7, DistrictDefault, level);
    FromPart(c0 + c1 + c2 + c3 + c4 + c5 + c6 + c7, [FALLBACK], SystemFallback, level);
  }

  lemma FallbackLevel()
    ensures AtLevel([FALLBACK], SystemFallback)
  {
  }

  /** The single candidates: course setting, school setting, the two defaults, and the built-in profile. */
  lemma SettingsReached(site: Site, q: Query)
    ensures
      var chain, around, settings := Candidates(site, q), site.around, site.db.settings;
      && From(chain, CourseSettings)
         == (if q.course.Some? && q.course.value in around.courses
                && around.courses[q.course.value].profileKey.Some?
                && !Blank(around.courses[q.course.value].profileKey.value)
             then [Candidate(CourseSettings, around.courses[q.course.value].profileKey.value,
                             around.courses[q.course.value].profileVersion)]
             else [])
      && From(chain, SchoolOverride)
         == (if q.school.Some? && q.school.value in around.schools
                && around.schools[q.school.value].profileKey.Some?
                && !Blank(around.schools[q.school.value].profileKey.value)
             then [Candidate(SchoolOverride, around.schools[q.school.value].profileKey.value,
                             around.schools[q.school.value].profileVersion)]
             else [])
      && From(chain, TenantDefault)
         == (if settings.defaultKey.Some? && !Blank(settings.defaultKey.value)
             then [Candidate(TenantDefault, settings.defaultKey.value, settings.defaultVersion)] else [])
      && From(chain, DistrictDefault)
         == (if around.districtKey.Some? && !Blank(around.districtKey.value)
             then [Candidate(DistrictDefault, around.districtKey.value, around.districtVersion)] else [])
      && From(chain, SystemFallback) == [Candidate(SystemFallback, "american_common_core_v1", None)]
  {
    forall level { ChainParts(site, q, level); }
    hide AssignmentCandidates, From, Candidates, Blank;
  }

  // What an active row must be about to apply, as the columns say it.

  function AboutCourse(course: Option<nat>, year: Option<nat>): Assignment -> bool {
    (a: Assignment) =>
      a.active && a.scope == CourseScope && a.course.Some? && a.course == course && (a.year == None || a.year == year)
  }

  function AboutSchool(school: Option<nat>, year: Option<nat>): Assignment -> bool {
    (a: Assignment) =>
      a.active && a.scope == SchoolScope && a.school.Some? && a.school == school && (a.year == None || a.year == year)
  }

  function FrozenFor(year: Option<nat>): Assignment -> bool {
    (a: Assignment) => a.active && a.scope == YearScope && a.year.Some? && a.year == year && a.isFrozen
  }

  function AboutTenant(): Assignment -> bool {
    (a: Assignment) => a.active && a.scope == TenantScope && a.school == None && a.course == None && a.year == None
  }

  /** The assignments in the chain: none unless pinning or the tenant's flag is on, and then at each of the four
      levels those of the first two active rows of the scope about the course, about the school, frozen for the
      year, or about nothing in particular; a course's or school's also for no year or for the effective one. */
  lemma AssignmentsInChain(site: Site, q: Query, year: Option<nat>)
    requires
      year == if q.year.Some? then q.year
              else if q.course.Some? && q.course.value in site.around.courses
              then site.around.courses[q.course.value].academicYear else None
    ensures
      var chain := Candidates(site, q);
      var on := site.around.flags.pinning || site.db.settings.assignmentEnabled;
      var rows := if on then site.around.assignments else [];
      && FirstTwo(rows, AboutCourse(q.course, year), CourseAssignment, From(chain, CourseAssignment))
      && FirstTwo(rows, AboutSchool(q.school, year), SchoolAssignment, From(chain, SchoolAssignment))
      && FirstTwo(rows, FrozenFor(year), YearFreeze, From(chain, YearFreeze))
      && FirstTwo(rows, AboutTenant(), TenantAssignment, From(chain, TenantAssignment))
  {
    YearAsked(site.around, q);
    forall level { ChainParts(site, q, level); }
    hide AssignmentCandidates, From, Candidates, FirstTwo, EffectiveYear;
    AssignmentsReached(site, CourseAssignment, CourseScope, q, AboutCourse(q.course, year));
    AssignmentsReached(site, SchoolAssignment, SchoolScope, q, AboutSchool(q.school, year));
    AssignmentsReached(site, YearFreeze, YearScope, q, FrozenFor(year));
    AssignmentsReached(site, TenantAssignment, TenantScope, q, AboutTenant());
  }

  // ----- what a candidate resolves to

  /** A candidate without a visible key resolves to nothing. With the pack store on another resolves to what the store
      finds for its key and version; with it off to the shipped pack of that key and version; an empty profile does
      not count. */
  lemma CandidateResolves(sys: System, site: Site, c: Candidate)
    ensures
      var version := if c.version.Some? && !Blank(c.version.value) then c.version else None;
      var stored, shipped := FetchUncached(sys, site.db.rs, Request(c.key, version)), FindSystem(sys, c.key, version);
      Lookup(sys, site, c)
      == if Blank(c.key) then None
         else if site.around.flags.packStore then
           (if stored.Some? && stored.value.payload != map[]
            then Some(Selected(c, stored.value.payload, stored.value.source, stored.value.releaseId)) else None)
         else if shipped.Some? && shipped.value != map[] then Some(Selected(c, shipped.value, SystemPack, None))
         else None
  {
    SameShipped(sys, c.key, c.version);
    hide FetchUncached, FindSystem, Blank;
  }

  lemma SameShipped(sys: System, key: string, version: Option<string>)
    ensures FindSystem(sys, key, Presence(version)) == FindSystem(sys, key, version)
  {
    hide Matching, LatestProfile, Blank;
  }

  /** With the pack store off and the lifecycle on, a pack whose version is a release of the tenant's is acceptable only
      while that release is published or frozen; anything else is acceptable. */
  lemma AcceptableIff(site: Site, s: Selected)
    requires Indexed(site.db.rs)
    ensures
      var p, rs := s.profile, site.db.rs;
      var nested := if Get(p, Versioning).Obj? then Get(Get(p, Versioning).fields, "version") else Null;
      var v := if nested == Null || nested == Bool(false) then Get(p, Version) else nested;
      Acceptable(site, s) <==>
        || site.around.flags.packStore || !site.around.flags.lifecycle
        || (forall i | 0 <= i < |rs| && rs[i].key == s.candidate.key && v == Str(rs[i].version) ::
              rs[i].status == Published || rs[i].status == Frozen)
  {
    var rs := site.db.rs;
    var v := VersionOf(s.profile);
    if v.Str? {
      var at := Find(rs, s.candidate.key, v.s);
      forall i | 0 <= i < |rs| && Named(rs[i], s.candidate.key, v.s)
        ensures at == Some(i)
      {
        var k := at.value;
        assert i == k || i < k || k < i;
      }
    }
  }

  /** The reason recorded when nothing was before it: the first candidate with a key was skipped for a missing version,
      a missing key or the state of its release. */
  lemma ReasonOfFirst(sys: System, site: Site, c: Candidate, rest: seq<Candidate>)
    ensures
      FirstReason(sys, site, [c] + rest)
      == if Blank(c.key) then FirstReason(sys, site, rest)
         else if Lookup(sys, site, c).None? then
           Some(if c.version.Some? && !Blank(c.version.value) then MissingVersion else MissingKey)
         else if !Acceptable(site, Lookup(sys, site, c).value) then Some(InvalidState)
         else None
    ensures FirstReason(sys, site, []) == None
  {
    assert ([c] + rest)[1..] == rest;
    hide Lookup, Acceptable, Blank;
  }

  /** A resolution shows what the first passing candidate resolves to. When none passes it shows the default pack, or
      without one the profile of last resort, and why: the first reason there was, or a missing key. */
  lemma ResolutionShows(sys: System, site: Site, q: Query)
    ensures
      var r, chain := ResolveUncached(sys, site, q), Candidates(site, q);
      var i := FirstPassing(sys, site, chain);
      var last := Lookup(sys, site, Candidate(SystemFallback, "american_common_core_v1", None));
      var first := FirstReason(sys, site, chain);
      && r.chain == chain
      && (i.Some? ==>
           var s := Lookup(sys, site, chain[i.value]);
           && s == Some(Selected(chain[i.value], r.profile, r.source.value, r.releaseId)) && r.source.Some?
           && r.reason == first)
      && (i.None? ==>
           && r.level == SystemFallback && r.reason == (if first.Some? then first else Some(MissingKey))
           && (last.Some? ==> r.profile == last.value.profile && r.source == Some(last.value.source)
                              && r.releaseId == last.value.releaseId)
           && (last.None? ==> r.profile == FallbackProfile(sys) && r.source == None && r.releaseId == None))
  {
    var chain := Candidates(site, q);
    var i := FirstPassing(sys, site, chain);
    if i.Some? { LookupCandidate(sys, site, chain[i.value]); }
    assert FALLBACK == Candidate(SystemFallback, "american_common_core_v1", None);
    hide Candidates, Lookup, FirstReason, FallbackProfile, Acceptable;
  }
}
