/** The order of the code, the resolver's counter first: which operations a resolution between the two
    bumps can spoil, and which not. */
module ResolverOrder {
  import opened Wrappers
  import opened Text
  import opened PackStore
  import opened PackStoreRequests
  import opened Resolver
  import opened ResolverRuns
  import opened ResolverPins
  import opened ResolverRequests
  import opened ResolverProtocol
  import L = Lifecycle

  // ----- writes that change no answer are harmless

  /** No request of the set is answered differently. */
  ghost predicate AnsweredAlike(requests: iset<Request>, sys: System, rs: Releases, rs': Releases) {
    forall r | r in requests && !Blank(r.key) :: Answer(FetchUncached(sys, rs, r)) == Answer(FetchUncached(sys, rs', r))
  }

  ghost predicate StepQuiet(requests: iset<Request>, c: Config, s: State, step: Step) {
    step.Write? ==> AnsweredAlike(requests, c.sys, s.site.db.rs, step.db.rs)
  }

  ghost predicate RunQuiet(requests: iset<Request>, c: Config, s: State, steps: seq<Step>)
    decreases |steps|
  {
    steps != [] && Enabled(c, s, steps[0]) ==>
      StepQuiet(requests, c, s, steps[0]) && RunQuiet(requests, c, Apply(c, s, steps[0]), steps[1..])
  }

  /** Every pack entry is right, whatever counter it is under. */
  ghost predicate AllRight(requests: iset<Request>, c: Config, s: State) {
    forall k | k in s.packs ::
      && k == PackKey(c.tenantId, s.packs[k].request, s.packs[k].bust)
      && s.packs[k].request in requests && !Blank(s.packs[k].request.key)
      && Answer(s.packs[k].value) == Answer(FetchUncached(c.sys, s.site.db.rs, s.packs[k].request))
  }

  /** Resolutions are right except while rows are written. */
  predicate KeptSettled(c: Config, s: State) {
    && KeptFiled(c.tenantId, s.kept, s.site.db.settings.resolverBust)
    && KeptFresh(c.sys, Deployment(s.site, s.packs, s.kept, s.phase == Writing))
  }

  ghost predicate ReaderSettled(requests: iset<Request>, c: Config, s: State, r: Reader) {
    var settings := s.site.db.settings;
    && r.settings.resolverBust <= settings.resolverBust && SettingsAsk(requests, s.site.around, r.settings)
    && (s.phase != Writing && r.settings.resolverBust == settings.resolverBust ==>
          SameDefaults(r.settings, settings) && (r.Computed? ==> r.resolved == ResolveUncached(c.sys, s.site, r.query)))
  }

  ghost predicate Settled(requests: iset<Request>, c: Config, s: State) {
    && AllRight(requests, c, s) && KeptSettled(c, s)
    && forall id | id in s.readers :: ReaderSettled(requests, c, s, s.readers[id])
  }

  /** The counters play no part in a resolution without caches. */
  lemma CountersUnseen(sys: System, a: Site, b: Site, q: Query)
    requires a.around == b.around && a.db.rs == b.db.rs && SameDefaults(a.db.settings, b.db.settings)
    ensures ResolveUncached(sys, a, q) == ResolveUncached(sys, b, q)
  {
    SameCandidates(a, b, q);
    hide ResolveUncached, Candidates, FetchUncached;
    forall c
      ensures ChosenAlike(sys, a, b, c)
    {
      LookupAlike(sys, a, b, c);
      hide Lookup;
    }
    AlikeResolves(sys, a, b, q);
  }

  lemma BumpSecondSettled(requests: iset<Request>, c: Config, s: State)
    requires c.order == ResolverFirst && Settled(requests, c, s) && s.phase == BetweenBumps
    ensures Settled(requests, c, Apply(c, s, BumpSecond))
  {
    var after := Apply(c, s, BumpSecond);
    hide AllRight, ResolveUncached, EffectiveYear, ResolverKey, SettingsAsk;
    forall q
      ensures ResolveUncached(c.sys, after.site, q) == ResolveUncached(c.sys, s.site, q)
    {
      CountersUnseen(c.sys, after.site, s.site, q);
    }
    assert AllRight(requests, c, after) by { SameRowsRight(requests, c, s, after); }
  }

  lemma SameRowsRight(requests: iset<Request>, c: Config, s: State, t: State)
    requires AllRight(requests, c, s) && t.packs == s.packs
    requires AnsweredAlike(requests, c.sys, s.site.db.rs, t.site.db.rs)
    ensures AllRight(requests, c, t)
  {
    hide FetchUncached, PackKey, Answer, Blank;
  }

  lemma OperationSettled(requests: iset<Request>, c: Config, s: State, step: Step)
    requires c.order == ResolverFirst && Settled(requests, c, s) && Enabled(c, s, step)
        && StepQuiet(requests, c, s, step)
    requires step.Begin? || step.Write? || step.BumpFirst?
    ensures Settled(requests, c, Apply(c, s, step))
  {
    hide AllRight, AnsweredAlike, ResolveUncached, EffectiveYear, ResolverKey, SettingsAsk;
    var after := Apply(c, s, step);
    RowsAlike(requests, c.sys, s.site.db.rs);
    SameRowsRight(requests, c, s, after);
  }

  lemma RowsAlike(requests: iset<Request>, sys: System, rs: Releases)
    ensures AnsweredAlike(requests, sys, rs, rs)
  {
  }

  lemma EvictionSettled(requests: iset<Request>, c: Config, s: State, step: Step)
    requires Settled(requests, c, s) && (step.DropPack? || step.DropKept?)
    ensures Settled(requests, c, Apply(c, s, step))
  {
    hide FetchUncached, PackKey, ResolverKey, ResolveUncached, EffectiveYear, SettingsAsk, Answer, Blank;
  }

  lemma LoadSettled(requests: iset<Request>, c: Config, s: State, step: Step)
    requires Settled(requests, c, s) && SiteAsks(requests, s.site) && step.Load? && Enabled(c, s, step)
    ensures Settled(requests, c, Apply(c, s, step))
  {
    SettingsAskAlike(requests, s.site, s.site.db.settings);
    assert Seen(s.site, s.site.db.settings) == s.site;
    hide FetchUncached, PackKey, ResolveUncached, SettingsAsk, SiteAsks, KeptFiled, KeptFresh, Answer, Blank;
  }

  lemma StoreSettled(requests: iset<Request>, c: Config, s: State, step: Step)
    requires Settled(requests, c, s) && step.Store? && Enabled(c, s, step)
    ensures Settled(requests, c, Apply(c, s, step))
  {
    hide FetchUncached, PackKey, ResolverKey, ResolveUncached, SettingsAsk, Answer, Blank;
    var r := s.readers[step.reader];
    assert ReaderSettled(requests, c, s, r);
  }

  lemma RightIsTrusted(requests: iset<Request>, c: Config, s: State, settings: L.Settings)
    requires AllRight(requests, c, s)
    ensures Trusted(requests, c.sys, c.tenantId, Seen(s.site, settings), s.packs)
  {
    hide FetchUncached, PackKey, Answer, Blank;
  }

  lemma ExtendedRight(requests: iset<Request>, c: Config, s: State, settings: L.Settings, packs: Cache)
    requires AllRight(requests, c, s) && Extends(requests, c.sys, c.tenantId, Seen(s.site, settings), s.packs, packs)
    ensures AllRight(requests, c, s.(packs := packs))
  {
    hide FetchUncached, PackKey, Answer, Blank;
  }

  lemma ComputeSettled(requests: iset<Request>, c: Config, s: State, step: Step)
    requires Unambiguous(requests) && Settled(requests, c, s) && step.Compute? && Enabled(c, s, step)
    ensures Settled(requests, c, Apply(c, s, step))
  {
    hide Unambiguous, Candidates, ChainAsks, Extends, Trusted, AllRight, KeptSettled, ResolveThrough, ResolveUncached,
      SettingsAsk, ResolverKey, EffectiveYear;
    var r := s.readers[step.reader];
    assert ReaderSettled(requests, c, s, r);
    SettingsAskAlike(requests, s.site, r.settings);
    var seen := Seen(s.site, r.settings);
    assert seen.around.flags.packStore ==> ChainAsks(requests, Candidates(seen, r.query));
    ResolveExtends(requests, c.sys, c.tenantId, seen, r.query, s.packs);
    var (resolved, packs) := ResolveThrough(c.sys, c.tenantId, seen, r.query, s.packs);
    ExtendedRight(requests, c, s, r.settings, packs);
    if s.phase != Writing && r.settings.resolverBust == s.site.db.settings.resolverBust {
      RightIsTrusted(requests, c, s, r.settings);
      ResolveThroughIsUncached(requests, c.sys, c.tenantId, seen, r.query, s.packs);
      CountersUnseen(c.sys, seen, s.site, r.query);
    }
    ComputedSettled(requests, c, s, step.reader);
  }

  lemma ComputedSettled(requests: iset<Request>, c: Config, s: State, id: nat)
    requires Settled(requests, c, s) && id in s.readers && s.readers[id].Loaded?
    requires
      var r := s.readers[id];
      var (resolved, packs) := ResolveThrough(c.sys, c.tenantId, Seen(s.site, r.settings), r.query, s.packs);
      && AllRight(requests, c, s.(packs := packs))
      && (s.phase != Writing && r.settings.resolverBust == s.site.db.settings.resolverBust ==>
            resolved == ResolveUncached(c.sys, s.site, r.query))
    ensures Settled(requests, c, ComputeStep(c, s, id))
  {
    hide FetchUncached, PackKey, ResolverKey, ResolveUncached, ResolveThrough, EffectiveYear, SettingsAsk, Answer,
      Blank;
  }

  lemma StepSettled(requests: iset<Request>, c: Config, s: State, step: Step)
    requires c.order == ResolverFirst && Unambiguous(requests) && SiteAsks(requests, s.site)
    requires Settled(requests, c, s) && Enabled(c, s, step) && StepQuiet(requests, c, s, step)
    ensures Settled(requests, c, Apply(c, s, step))
  {
    assert step.BumpSecond? ==> s.phase == BetweenBumps;
    hide Settled, SiteAsks, Unambiguous, Enabled, Apply, StepQuiet;
    match step
    case Load(_, _) => LoadSettled(requests, c, s, step);
    case Compute(_) => ComputeSettled(requests, c, s, step);
    case Store(_) => StoreSettled(requests, c, s, step);
    case DropPack(_) => EvictionSettled(requests, c, s, step);
    case DropKept(_) => EvictionSettled(requests, c, s, step);
    case BumpSecond => BumpSecondSettled(requests, c, s);
    case _ => OperationSettled(requests, c, s, step);
  }

  lemma {:induction false} RunSettled(requests: iset<Request>, c: Config, s: State, steps: seq<Step>, t: State)
    requires c.order == ResolverFirst && Unambiguous(requests) && Settled(requests, c, s)
    requires Interleaving(c, s, steps, t) && InterleavingAsks(requests, c, s, steps) && RunQuiet(requests, c, s, steps)
    ensures Settled(requests, c, t)
    decreases |steps|
  {
    hide Settled, SiteAsks, Unambiguous, Enabled, Apply, StepQuiet;
    if steps != [] {
      StepSettled(requests, c, s, steps[0]);
      RunSettled(requests, c, Apply(c, s, steps[0]), steps[1..], t);
    }
  }

  lemma StartsSettled(requests: iset<Request>, c: Config, site: Site)
    ensures Settled(requests, c, Initial(site))
  {
    hide FetchUncached, PackKey, ResolverKey, ResolveUncached;
  }

  /** In the order of the code, too, answers are right between operations when no write changes the answer to a
      request of the set. */
  lemma QuietWritesAreRight(requests: iset<Request>, c: Config, site: Site, steps: seq<Step>, s: State, q: Query)
    requires c.order == ResolverFirst && Unambiguous(requests) && s.phase == Idle
    requires Interleaving(c, Initial(site), steps, s)
    requires InterleavingAsks(requests, c, Initial(site), steps) && RunQuiet(requests, c, Initial(site), steps)
    ensures Served(c, s, q) == ResolveUncached(c.sys, s.site, q)
  {
    hide Unambiguous, SiteAsks, Interleaving, InterleavingAsks, RunQuiet, Served, ResolveUncached, KeptFiled,
      KeptFresh, Trusted, AllRight;
    StartsSettled(requests, c, site);
    RunSettled(requests, c, Initial(site), steps, s);
    RunEndsAsking(requests, c, Initial(site), steps, s);
    assert Seen(s.site, s.site.db.settings) == s.site;
    RightIsTrusted(requests, c, s, s.site.db.settings);
    TrustedServes(requests, c, s, q);
  }

  // ----- one that changes an answer is not

  predicate Takes(c: Config, s: State, step: Step, t: State) { Enabled(c, s, step) && Apply(c, s, step) == t }

  lemma {:induction false} OneMore(requests: iset<Request>, c: Config, s: State, steps: seq<Step>, t: State, step: Step,
    u: State)
    requires Interleaving(c, s, steps, t) && InterleavingAsks(requests, c, s, steps)
    requires Takes(c, t, step, u) && SiteAsks(requests, u.site)
    ensures Interleaving(c, s, steps + [step], u) && InterleavingAsks(requests, c, s, steps + [step])
    decreases |steps|
  {
    hide SiteAsks, Enabled, Apply;
    if steps == [] {
      assert [step][1..] == [] && steps + [step] == [step];
    } else {
      assert (steps + [step])[1..] == steps[1..] + [step];
      OneMore(requests, c, Apply(c, s, steps[0]), steps[1..], t, step, u);
    }
  }

  /** A run so far, from a site without caches. */
  ghost predicate Reached(requests: iset<Request>, c: Config, site: Site, steps: seq<Step>, s: State) {
    && Interleaving(c, Initial(site), steps, s) && InterleavingAsks(requests, c, Initial(site), steps)
    && SiteAsks(requests, s.site)
  }

  lemma ThreeMore(requests: iset<Request>, c: Config, site: Site, steps: seq<Step>, s: State, a: Step, s1: State,
    b: Step, s2: State, d: Step, s3: State)
    requires Reached(requests, c, site, steps, s) && SiteAsks(requests, s1.site) && SiteAsks(requests, s2.site)
    requires SiteAsks(requests, s3.site)
    requires Takes(c, s, a, s1) && Takes(c, s1, b, s2) && Takes(c, s2, d, s3)
    ensures Reached(requests, c, site, steps + [a, b, d], s3)
  {
    hide Takes, Interleaving, InterleavingAsks, SiteAsks;
    OneMore(requests, c, Initial(site), steps, s, a, s1);
    OneMore(requests, c, Initial(site), steps + [a], s1, b, s2);
    OneMore(requests, c, Initial(site), steps + [a] + [b], s2, d, s3);
    assert steps + [a] + [b] + [d] == steps + [a, b, d];
  }

  /** A reader that is not interrupted and finds nothing kept. */
  function Read(c: Config, s: State, q: Query): State {
    var (r, packs) := ResolveThrough(c.sys, c.tenantId, s.site, q, s.packs);
    var year, bust := EffectiveYear(s.site.around, q), s.site.db.settings.resolverBust;
    s.(packs := packs, kept := s.kept[KeyNow(c.tenantId, s.site, q) := Kept(r, q, year, bust)])
  }

  lemma Reading(requests: iset<Request>, c: Config, site: Site, steps: seq<Step>, s: State, q: Query)
    requires Reached(requests, c, site, steps, s) && s.readers == map[] && KeyNow(c.tenantId, s.site, q) !in s.kept
    ensures Reached(requests, c, site, steps + [Load(0, q), Compute(0), Store(0)], Read(c, s, q))
  {
    hide Interleaving, InterleavingAsks, SiteAsks, ResolveThrough, ResolverKey, EffectiveYear;
    var settings := s.site.db.settings;
    assert Seen(s.site, settings) == s.site;
    var s1 := s.(readers := map[0 := Loaded(settings, q)]);
    assert Takes(c, s, Load(0, q), s1);
    var (r, packs) := ResolveThrough(c.sys, c.tenantId, s.site, q, s.packs);
    var s2 := s.(packs := packs, readers := map[0 := Computed(settings, q, r)]);
    assert Takes(c, s1, Compute(0), s2) by { assert ComputeStep(c, s1, 0).readers == s2.readers; }
    assert Takes(c, s2, Store(0), Read(c, s, q)) by { assert s2.readers - {0} == map[]; }
    hide Takes;
    ThreeMore(requests, c, site, steps, s, Load(0, q), s1, Compute(0), s2, Store(0), Read(c, s, q));
  }

  lemma CountersAskAlike(requests: iset<Request>, site: Site, settings: L.Settings)
    requires SameDefaults(site.db.settings, settings)
    ensures SiteAsks(requests, site) <==> SiteAsks(requests, Seen(site, settings))
  {
    hide ChainAsks, Candidates;
    forall q
      ensures Candidates(Seen(site, settings), q) == Candidates(site, q)
    {
      SameCandidates(Seen(site, settings), site, q);
    }
  }

  lemma WritingUpToFirst(requests: iset<Request>, c: Config, site: Site, steps: seq<Step>, s: State, db: L.Db)
    requires c.order == ResolverFirst && Reached(requests, c, site, steps, s) && s.phase == Idle
    requires db.settings.packBust == s.site.db.settings.packBust
    requires db.settings.resolverBust == s.site.db.settings.resolverBust
    requires SiteAsks(requests, s.site.(db := db))
    ensures
      var bumped := db.(settings := BumpResolver(db.settings));
      Reached(requests, c, site, steps + [Begin, Write(db), BumpFirst],
        s.(site := s.site.(db := bumped), phase := BetweenBumps))
  {
    var written := s.site.(db := db);
    CountersAskAlike(requests, written, BumpResolver(db.settings));
    var s1, s2 := s.(phase := Writing), s.(site := written, phase := Writing);
    var s3 := s.(site := Seen(written, BumpResolver(db.settings)), phase := BetweenBumps);
    hide SiteAsks, Interleaving, InterleavingAsks;
    assert Takes(c, s, Begin, s1) && Takes(c, s1, Write(db), s2) && Takes(c, s2, BumpFirst, s3);
    hide Takes;
    ThreeMore(requests, c, site, steps, s, Begin, s1, Write(db), s2, BumpFirst, s3);
  }

  lemma BumpingSecond(requests: iset<Request>, c: Config, site: Site, steps: seq<Step>, s: State)
    requires c.order == ResolverFirst && Reached(requests, c, site, steps, s) && s.phase == BetweenBumps
    ensures Reached(requests, c, site, steps + [BumpSecond], WithSettings(s, L.BumpPack(s.site.db.settings), Idle))
  {
    CountersAskAlike(requests, s.site, L.BumpPack(s.site.db.settings));
    hide SiteAsks, Interleaving, InterleavingAsks;
    OneMore(requests, c, Initial(site), steps, s, BumpSecond, WithSettings(s, L.BumpPack(s.site.db.settings), Idle));
  }

  /** The data an operation writes before it bumps. */
  function Written(before: L.Db, after: L.Db): L.Db {
    after.(settings :=
      after.settings.(packBust := before.settings.packBust, resolverBust := before.settings.resolverBust))
  }

  /** A resolution before the operation, and one between its bumps. */
  function BetweenTheBumps(db: L.Db, q: Query): seq<Step> {
    [Load(0, q), Compute(0), Store(0)] + [Begin, Write(db), BumpFirst] + [Load(0, q), Compute(0), Store(0)]
    + [BumpSecond]
  }

  /** The states before the operation, between its bumps, and after it. */
  function ReadBefore(c: Config, site: Site, q: Query): State { Read(c, Initial(site), q) }

  function ReadBetween(c: Config, site: Site, after: L.Db, q: Query): State {
    var bumped := after.(settings := after.settings.(packBust := site.db.settings.packBust));
    Read(c, ReadBefore(c, site, q).(site := site.(db := bumped), phase := BetweenBumps), q)
  }

  function Overtaken(c: Config, site: Site, after: L.Db, q: Query): State {
    ReadBetween(c, site, after, q).(site := site.(db := after), phase := Idle)
  }

  lemma UpToFirstBump(requests: iset<Request>, c: Config, site: Site, db: L.Db, q: Query)
    requires c.order == ResolverFirst && SiteAsks(requests, site) && SiteAsks(requests, site.(db := db))
    requires db.settings.packBust == site.db.settings.packBust
    requires db.settings.resolverBust == site.db.settings.resolverBust
    ensures
      var bumped := db.(settings := BumpResolver(db.settings));
      Reached(requests, c, site, [Load(0, q), Compute(0), Store(0)] + [Begin, Write(db), BumpFirst],
        ReadBefore(c, site, q).(site := site.(db := bumped), phase := BetweenBumps))
  {
    assert Reached(requests, c, site, [], Initial(site));
    ReadKeeps(c, Initial(site), q);
    hide SiteAsks, Reached, Read, ResolverKey, EffectiveYear;
    Reading(requests, c, site, [], Initial(site), q);
    var read := [Load(0, q), Compute(0), Store(0)];
    assert [] + read == read;
    WritingUpToFirst(requests, c, site, read, ReadBefore(c, site, q), db);
  }

  lemma OvertakenRun(requests: iset<Request>, c: Config, site: Site, after: L.Db, q: Query)
    requires c.order == ResolverFirst && SiteAsks(requests, site) && SiteAsks(requests, site.(db := after))
    requires after.settings.packBust == site.db.settings.packBust + 1
    requires after.settings.resolverBust == site.db.settings.resolverBust + 1
    ensures
      Reached(requests, c, site, BetweenTheBumps(Written(site.db, after), q), Overtaken(c, site, after, q))
  {
    var db := Written(site.db, after);
    CountersAskAlike(requests, site.(db := after), db.settings);
    var bumped := after.(settings := after.settings.(packBust := site.db.settings.packBust));
    assert bumped == db.(settings := BumpResolver(db.settings));
    var between := ReadBefore(c, site, q).(site := site.(db := bumped), phase := BetweenBumps);
    ReadKeeps(c, Initial(site), q);
    ReadKeeps(c, between, q);
    MissedAgain(c, site, bumped, q);
    hide SiteAsks, Reached, Read, KeyNow;
    UpToFirstBump(requests, c, site, db, q);
    var read := [Load(0, q), Compute(0), Store(0)];
    Reading(requests, c, site, read + [Begin, Write(db), BumpFirst], between, q);
    hide ReadBefore;
    BumpingSecond(requests, c, site, read + [Begin, Write(db), BumpFirst] + read, Read(c, between, q));
    OvertakenEnds(c, site, after, q);
  }

  lemma OvertakenEnds(c: Config, site: Site, after: L.Db, q: Query)
    requires after.settings.packBust == site.db.settings.packBust + 1
    ensures
      var t, between := Overtaken(c, site, after, q), ReadBetween(c, site, after, q);
      && t == WithSettings(between, L.BumpPack(between.site.db.settings), Idle)
      && t.phase == Idle && t.site == site.(db := after)
  {
    var bumped := after.(settings := after.settings.(packBust := site.db.settings.packBust));
    ReadKeeps(c, ReadBefore(c, site, q).(site := site.(db := bumped), phase := BetweenBumps), q);
    hide Read, ReadBefore;
  }

  lemma OnlyWritesIts(db: L.Db, q: Query)
    ensures OnlyWrites(BetweenTheBumps(db, q), db)
  {
  }

  lemma ReadKeeps(c: Config, s: State, q: Query)
    ensures
      var t := Read(c, s, q);
      t.site == s.site && t.phase == s.phase && t.readers == s.readers
  {
    hide ResolveThrough, ResolverKey, EffectiveYear;
  }

  /** What is kept under the old counter is not found under the new one. */
  lemma MissedAgain(c: Config, site: Site, db: L.Db, q: Query)
    requires db.settings.resolverBust != site.db.settings.resolverBust
    ensures KeyNow(c.tenantId, site.(db := db), q) !in ReadBefore(c, site, q).kept
  {
    hide ResolveThrough, ResolverKey, EffectiveYear;
    var year := EffectiveYear(site.around, q);
    if KeyNow(c.tenantId, site.(db := db), q) in ReadBefore(c, site, q).kept {
      ResolverKeysDistinct(c.tenantId, q.school, q.course, year, db.settings.resolverBust,
        c.tenantId, q.school, q.course, year, site.db.settings.resolverBust);
    }
  }

  /** In surroundings where a course is pinned to a request that the operation answers differently, the second
      resolution repeats the old answer, and it is served afterwards. */
  lemma OvertakenServes(c: Config, before: L.Db, after: L.Db, req: Request)
    requires after.settings.packBust == before.settings.packBust + 1
    requires !Blank(req.key)
    requires Answer(FetchUncached(c.sys, before.rs, req)) != Answer(FetchUncached(c.sys, after.rs, req))
    ensures
      var t := Overtaken(c, Site(before, PinnedTo([req])), after, OfCourse(0));
      Served(c, t, OfCourse(0)) != ResolveUncached(c.sys, t.site, OfCourse(0))
  {
    hide ResolveThrough, ResolveUncached, Blank, PackKey, FetchUncached, PinnedTo, Answer, Shows, ResolverKey,
      EffectiveYear;
    var site := Site(before, PinnedTo([req]));
    var packs := ResolveThrough(c.sys, c.tenantId, site, OfCourse(0), map[]).1;
    PinThrough(c.sys, c.tenantId, before, [req], 0, map[]);
    var bumped := after.(settings := after.settings.(packBust := before.settings.packBust));
    PinThrough(c.sys, c.tenantId, bumped, [req], 0, packs);
    PinUncached(c.sys, after, [req], 0);
    var r := ResolveThrough(c.sys, c.tenantId, site.(db := bumped), OfCourse(0), packs).0;
    assert Served(c, Overtaken(c, site, after, OfCourse(0)), OfCourse(0)) == r;
    ShownApart(r, Through(c.sys, c.tenantId, bumped, packs, req),
      ResolveUncached(c.sys, site.(db := after), OfCourse(0)), FetchUncached(c.sys, after.rs, req));
  }

  // ----- hence exactly which operations can be overtaken

  ghost predicate OnlyWrites(steps: seq<Step>, db: L.Db) {
    forall i | 0 <= i < |steps| && steps[i].Write? :: steps[i].db == db
  }

  /** Whatever else goes on around it, and over sites with these references only, the operation leaves no stale
      resolution behind. */
  ghost predicate NeverOvertaken(c: Config, refs: iset<Request>, before: L.Db, after: L.Db) {
    forall around: Surroundings, steps: seq<Step>, s: State, q: Query |
      Interleaving(c, Initial(Site(before, around)), steps, s) && OnlyWrites(steps, Written(before, after))
      && InterleavingAsks(Requested(refs), c, Initial(Site(before, around)), steps) && s.phase == Idle ::
      Served(c, s, q) == ResolveUncached(c.sys, s.site, q)
  }

  lemma {:induction false} OnlyWritesQuiet(requests: iset<Request>, c: Config, s: State, steps: seq<Step>, rs: Releases,
    db: L.Db)
    requires OnlyWrites(steps, db) && AnsweredAlike(requests, c.sys, rs, db.rs)
    requires s.site.db.rs == rs || s.site.db.rs == db.rs
    ensures RunQuiet(requests, c, s, steps)
    decreases |steps|
  {
    if steps != [] && Enabled(c, s, steps[0]) {
      RowsAlike(requests, c.sys, db.rs);
      assert OnlyWrites(steps[1..], db);
      assert RowsKept(Apply(c, s, steps[0]), s, steps[0]) by { StepRows(c, s, steps[0]); }
      hide AnsweredAlike, Apply, Enabled, OnlyWrites;
      OnlyWritesQuiet(requests, c, Apply(c, s, steps[0]), steps[1..], rs, db);
    }
  }

  predicate RowsKept(t: State, s: State, step: Step) {
    t.site.db.rs == if step.Write? then step.db.rs else s.site.db.rs
  }

  lemma StepRows(c: Config, s: State, step: Step)
    requires Enabled(c, s, step)
    ensures RowsKept(Apply(c, s, step), s, step)
  {
    hide ResolveThrough, ResolverKey, EffectiveYear;
  }

  /** A publish, deprecate, freeze or rollback can leave a stale resolution behind, in the order of the code, iff it
      changes the answer to some request that can be asked. */
  lemma NeverOvertakenIff(c: Config, refs: iset<Request>, before: L.Db, op: L.Op, now: int, after: L.Db)
    requires c.order == ResolverFirst && Unambiguous(Requested(refs))
    requires !op.Import? && L.Apply(c.sys.host, before, op, now) == Some(after)
    requires DefaultAsked(Requested(refs), before.settings) && DefaultAsked(Requested(refs), after.settings)
    ensures NeverOvertaken(c, refs, before, after) <==> AnsweredAlike(Requested(refs), c.sys, before.rs, after.rs)
  {
    OperateBumps(c.sys.host, before, op, now);
    hide L.Apply, Unambiguous, Requested, Interleaving, InterleavingAsks, Served, ResolveUncached, DefaultAsked,
      FetchUncached, Answer, Blank, Overtaken;
    var requests, db := Requested(refs), Written(before, after);
    if AnsweredAlike(requests, c.sys, before.rs, after.rs) {
      forall around: Surroundings, steps: seq<Step>, s: State, q: Query |
        Interleaving(c, Initial(Site(before, around)), steps, s) && OnlyWrites(steps, db)
        && InterleavingAsks(requests, c, Initial(Site(before, around)), steps) && s.phase == Idle
        ensures Served(c, s, q) == ResolveUncached(c.sys, s.site, q)
      {
        OnlyWritesQuiet(requests, c, Initial(Site(before, around)), steps, before.rs, db);
        QuietWritesAreRight(requests, c, Site(before, around), steps, s, q);
      }
    } else {
      var r :| r in requests && !Blank(r.key)
        && Answer(FetchUncached(c.sys, before.rs, r)) != Answer(FetchUncached(c.sys, after.rs, r));
      ResolverFirstGoesStale(c, refs, before, op, now, after, r);
    }
  }

  /** The run: a reader resolves between the two bumps. The request is one whose answer the operation changes. */
  lemma ResolverFirstGoesStale(c: Config, refs: iset<Request>, before: L.Db, op: L.Op, now: int, after: L.Db,
    req: Request)
    requires c.order == ResolverFirst && !op.Import? && L.Apply(c.sys.host, before, op, now) == Some(after)
    requires DefaultAsked(Requested(refs), before.settings) && DefaultAsked(Requested(refs), after.settings)
    requires req in Requested(refs) && !Blank(req.key)
    requires Answer(FetchUncached(c.sys, before.rs, req)) != Answer(FetchUncached(c.sys, after.rs, req))
    ensures
      var site, q := Site(before, PinnedTo([req])), OfCourse(0);
      var steps, t := BetweenTheBumps(Written(before, after), q), Overtaken(c, site, after, q);
      && Interleaving(c, Initial(site), steps, t) && InterleavingAsks(Requested(refs), c, Initial(site), steps)
      && OnlyWrites(steps, Written(before, after)) && t.phase == Idle && t.site == site.(db := after)
      && Served(c, t, q) != ResolveUncached(c.sys, t.site, q)
  {
    OperateBumps(c.sys.host, before, op, now);
    RequestedAsk(refs, req);
    OnlyWritesIts(Written(before, after), OfCourse(0));
    hide L.Apply, Requested, Interleaving, InterleavingAsks, Served, ResolveUncached, DefaultAsked, FetchUncached,
      Answer, Blank, Overtaken, OnlyWrites, BetweenTheBumps, Written, PinnedTo, SiteAsks;
    PinsAsk(Requested(refs), before, [req]);
    PinsAsk(Requested(refs), after, [req]);
    OvertakenRun(Requested(refs), c, Site(before, PinnedTo([req])), after, OfCourse(0));
    OvertakenEnds(c, Site(before, PinnedTo([req])), after, OfCourse(0));
    OvertakenServes(c, before, after, req);
  }

  /** What is requested is requested as it stands. */
  lemma RequestedAsk(refs: iset<Request>, req: Request)
    requires req in Requested(refs)
    ensures RequestOf(Pin(req)) == req && RequestOf(FALLBACK) in Requested(refs)
  {
    hide Blank;
  }
}
