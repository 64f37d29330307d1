/** The resolver over whole runs of a deployment: lifecycle operations, outside changes, resolutions and evictions. */
module ResolverRuns {
  import opened Wrappers
  import opened Text
  import opened Registry
  import opened RegistryTheorems
  import opened PackStore
  import opened PackStoreRequests
  import opened ImportEffects
  import opened Resolver
  import L = Lifecycle

  /** Lifecycle operations are atomic with respect to resolution. `Change` is any change outside the
      lifecycle service; it leaves the release rows and the two counters alone. */
  datatype Event =
    | Operate(op: L.Op, now: int)
    | Change(site: Site)
    | Resolve(query: Query)
    | EvictPack(key: string)
    | EvictKept(key: string)

  predicate LeavesReleases(before: Site, after: Site) {
    && after.db.rs == before.db.rs && after.db.nextId == before.db.nextId
    && after.db.settings.packBust == before.db.settings.packBust
    && after.db.settings.resolverBust == before.db.settings.resolverBust
  }

  predicate Allowed(d: Deployment, e: Event) { e.Change? ==> LeavesReleases(d.site, e.site) }

  function Next(sys: System, tenantId: nat, d: Deployment, e: Event): Deployment {
    match e
    case Operate(op, now) =>
      var after := L.Apply(sys.host, d.site.db, op, now);
      if after.None? then d
      else d.(site := d.site.(db := after.value),
              unflushed := op.Import? && (d.unflushed || !QuietImport(sys, d.site.db, op, now)))
    case Change(site) => d.(site := site, unflushed := true)
    case Resolve(q) => ResolveCached(sys, tenantId, d, q).1
    case EvictPack(key) => d.(packs := d.packs - {key})
    case EvictKept(key) => d.(kept := d.kept - {key})
  }

  lemma OperateBumps(h: Host, db: L.Db, op: L.Op, now: int)
    ensures
      var after := L.Apply(h, db, op, now);
      after.Some? ==>
        && after.value.settings.packBust == db.settings.packBust + 1
        && after.value.settings.resolverBust == db.settings.resolverBust + if op.Import? then 0 else 1
  {
    hide Validate;
  }

  // ----- entries sit under their own keys, whatever is asked

  predicate PacksFiled(tenantId: nat, packs: Cache, bust: nat) {
    forall k | k in packs :: k == PackKey(tenantId, packs[k].request, packs[k].bust) && packs[k].bust <= bust
  }

  predicate KeptFiled(tenantId: nat, kept: map<string, Kept>, bust: nat) {
    forall key | key in kept ::
      var k := kept[key];
      key == ResolverKey(tenantId, k.query.school, k.query.course, k.year, k.bust) && k.bust <= bust
  }

  /** Every entry sits under its own key, none under a counter still to come. */
  predicate Filed(tenantId: nat, d: Deployment) {
    PacksFiled(tenantId, d.packs, d.site.db.settings.packBust)
    && KeptFiled(tenantId, d.kept, d.site.db.settings.resolverBust)
  }

  lemma ExtendsFiled(requests: iset<Request>, sys: System, tenantId: nat, site: Site, before: Cache, after: Cache,
    bust: nat)
    requires PacksFiled(tenantId, before, bust) && Extends(requests, sys, tenantId, site, before, after)
    requires site.db.settings.packBust <= bust
    ensures PacksFiled(tenantId, after, bust)
  {
    hide FetchUncached, PackKey, Blank;
  }

  lemma ResolveKeepsFiled(sys: System, tenantId: nat, d: Deployment, q: Query)
    requires Filed(tenantId, d)
    ensures Filed(tenantId, ResolveCached(sys, tenantId, d, q).1)
  {
    hide ResolveThrough, EffectiveYear, ResolverKey, PacksFiled;
    PacksStayFiled(sys, tenantId, d.site, q, d.packs);
  }

  lemma PacksStayFiled(sys: System, tenantId: nat, site: Site, q: Query, packs: Cache)
    requires PacksFiled(tenantId, packs, site.db.settings.packBust)
    ensures PacksFiled(tenantId, ResolveThrough(sys, tenantId, site, q, packs).1, site.db.settings.packBust)
  {
    hide ResolveThrough, PacksFiled, Extends, Candidates;
    var asked := iset c | c in Candidates(site, q) :: RequestOf(c);
    ResolveExtends(asked, sys, tenantId, site, q, packs);
    var after := ResolveThrough(sys, tenantId, site, q, packs).1;
    ExtendsFiled(asked, sys, tenantId, site, packs, after, site.db.settings.packBust);
  }

  lemma OperateKeepsFiled(sys: System, tenantId: nat, d: Deployment, op: L.Op, now: int)
    requires Filed(tenantId, d)
    ensures Filed(tenantId, Next(sys, tenantId, d, Operate(op, now)))
  {
    OperateBumps(sys.host, d.site.db, op, now);
    hide L.Apply, PackKey, ResolverKey, QuietImport;
  }

  lemma NextKeepsFiled(sys: System, tenantId: nat, d: Deployment, e: Event)
    requires Filed(tenantId, d) && Allowed(d, e)
    ensures Filed(tenantId, Next(sys, tenantId, d, e))
  {
    hide L.Apply, ResolveCached, QuietImport, PackKey, ResolverKey;
    match e
    case Operate(op, now) => OperateKeepsFiled(sys, tenantId, d, op, now);
    case Resolve(q) => ResolveKeepsFiled(sys, tenantId, d, q);
    case _ =>
  }

  /** A run of events. */
  ghost predicate Run(sys: System, tenantId: nat, d: Deployment, es: seq<Event>, last: Deployment)
    decreases |es|
  {
    if es == [] then d == last
    else Allowed(d, es[0]) && Run(sys, tenantId, Next(sys, tenantId, d, es[0]), es[1..], last)
  }

  function Start(site: Site): Deployment { Deployment(site, map[], map[], false) }

  lemma {:induction false} RunKeepsFiled(sys: System, tenantId: nat, d: Deployment, es: seq<Event>, last: Deployment)
    requires Filed(tenantId, d) && Run(sys, tenantId, d, es, last)
    ensures Filed(tenantId, last)
    decreases |es|
  {
    hide Filed, Next, Allowed;
    if es != [] {
      NextKeepsFiled(sys, tenantId, d, es[0]);
      RunKeepsFiled(sys, tenantId, Next(sys, tenantId, d, es[0]), es[1..], last);
    }
  }

  // ----- imports that change no resolution

  lemma {:induction false} SystemMatches(ps: seq<Profile>, key: string)
    ensures forall p | p in Matching(ps, key) :: HasKey(p, key) && p != map[]
  {
    hide HasKey;
    if ps != [] {
      SystemMatches(ps[1..], key);
      EmptyHasNoKey(key);
    }
  }

  lemma EmptyHasNoKey(key: string)
    ensures !HasKey(map[], key)
  {
  }

  lemma {:induction false} LatestProfileIn(h: Host, ps: seq<Profile>)
    ensures LatestProfile(h, ps).Some? ==> LatestProfile(h, ps).value in ps
  {
    hide Outranks;
    if ps != [] {
      LatestProfileIn(h, ps[..|ps| - 1]);
    }
  }

  lemma FoundAmongMatches(sys: System, key: string, version: Option<string>)
    ensures
      var p := FindSystem(sys, key, version);
      p.Some? ==> p.value in Matching(sys.profiles, key)
  {
    hide HasVersion, IsActive, Matching, LatestProfile, Blank;
    var matches := Matching(sys.profiles, key);
    if version.Some? { FirstWhereIn(matches, p => HasVersion(p, version.value)); }
    FirstWhereIn(matches, IsActive);
    LatestProfileIn(sys.host, matches);
  }

  /** A system pack found for a key under its own version is also found by naming that version. */
  lemma FoundByVersion(sys: System, key: string, version: Option<string>, own: string)
    requires FindSystem(sys, key, version).Some? && VersionOf(FindSystem(sys, key, version).value) == Str(own)
        && !Blank(own)
    ensures FetchSystem(sys, key, Some(own)).Some?
  {
    var p := FindSystem(sys, key, version).value;
    FoundAmongMatches(sys, key, version);
    assert HasVersion(p, own);
    var matches := Matching(sys.profiles, key);
    FirstWhereIn(matches, r => HasVersion(r, own));
    SystemMatches(sys.profiles, key);
    hide Matching, FirstWhere, HasVersion, HasKey, LatestProfile, FallbackProfile;
    assert FindSystem(sys, key, Some(own)).Some?;
    FoundAmongMatches(sys, key, Some(own));
  }

  /** A quiet import leaves the lifecycle check of every system pack found as it was. */
  lemma QuietEligible(sys: System, db: L.Db, op: L.Op, now: int, key: string, version: Option<string>)
    requires op.Import? && QuietImport(sys, db, op, now) && FindSystem(sys, key, version).Some?
    ensures
      var v := VersionOf(FindSystem(sys, key, version).value);
      ReleaseEligible(RowsAfter(sys.host, db, op, now), key, v) == ReleaseEligible(db.rs, key, v)
  {
    hide Validate, NamesRelease, ProfileKey, ProfileVersion, RowsAfter, FetchSystem, FindSystem, VersionOf, Blank,
      SameLatest, Eligible;
    var v, q := VersionOf(FindSystem(sys, key, version).value), Validate(sys.host, op.payload);
    if q.None? {
      RejectedImport(sys.host, db, op, now);
    } else if v.Str? {
      L.ValidNames(sys.host, op.payload);
      if Find(db.rs, ProfileKey(q.value), ProfileVersion(q.value)).None? {
        var row := NewVersion(sys.host, db, op, now);
        FindAfterRow(db.rs, row, key, v.s);
        if Named(row, key, v.s) {
          FoundByVersion(sys, key, version, v.s);
        }
      } else {
        var i, row := ExistingVersion(sys.host, db, op, now);
        L.FindUnmoved(db.rs, i, row, key, v.s);
      }
    }
  }

  predicate ChosenAlike(sys: System, a: Site, b: Site, c: Candidate) {
    && Lookup(sys, a, c) == Lookup(sys, b, c)
    && (Lookup(sys, a, c).Some? ==> Acceptable(a, Lookup(sys, a, c).value) == Acceptable(b, Lookup(sys, a, c).value))
  }

  lemma {:induction false} ChoicesAlike(sys: System, a: Site, b: Site, cs: seq<Candidate>)
    requires forall c :: ChosenAlike(sys, a, b, c)
    ensures FirstPassing(sys, a, cs) == FirstPassing(sys, b, cs) && FirstReason(sys, a, cs) == FirstReason(sys, b, cs)
  {
    hide Lookup, Acceptable;
    if cs != [] {
      assert ChosenAlike(sys, a, b, cs[0]);
      ChoicesAlike(sys, a, b, cs[1..]);
    }
  }

  lemma AlikeResolves(sys: System, a: Site, b: Site, q: Query)
    requires Candidates(a, q) == Candidates(b, q) && forall c :: ChosenAlike(sys, a, b, c)
    ensures ResolveUncached(sys, a, q) == ResolveUncached(sys, b, q)
  {
    var chain := Candidates(a, q);
    ChoicesAlike(sys, a, b, chain);
    hide Candidates, FirstPassing, FirstReason, Lookup, Acceptable;
    assert ChosenAlike(sys, a, b, FALLBACK);
    var i := FirstPassing(sys, a, chain);
    if i.Some? {
      assert ChosenAlike(sys, a, b, chain[i.value]);
    }
  }

  lemma LookupAlike(sys: System, a: Site, b: Site, c: Candidate)
    requires a.around == b.around
    requires
      var req := Request(c.key, Presence(c.version));
      FetchUncached(sys, a.db.rs, req) == FetchUncached(sys, b.db.rs, req)
    ensures Lookup(sys, a, c) == Lookup(sys, b, c)
  {
    hide FetchUncached, FindSystem, Blank;
  }

  lemma LookupSystem(sys: System, site: Site, c: Candidate)
    requires !site.around.flags.packStore && Lookup(sys, site, c).Some?
    ensures
      var p := FindSystem(sys, c.key, c.version);
      p.Some? && Lookup(sys, site, c).value.candidate == c && Lookup(sys, site, c).value.profile == p.value
  {
    hide FetchUncached, FindSystem, Blank;
  }

  lemma QuietChosenAlike(sys: System, site: Site, op: L.Op, now: int, after: Site, c: Candidate)
    requires op.Import? && Indexed(site.db.rs) && QuietImport(sys, site.db, op, now)
    requires after.around == site.around && after.db.rs == RowsAfter(sys.host, site.db, op, now)
    ensures ChosenAlike(sys, site, after, c)
  {
    hide QuietImport, RowsAfter, FetchUncached, FindSystem, VersionOf, ReleaseEligible, Blank, Indexed, Lookup;
    QuietImportKeeps(sys, site.db, op, now, Request(c.key, Presence(c.version)));
    LookupAlike(sys, site, after, c);
    if !site.around.flags.packStore && Lookup(sys, site, c).Some? {
      LookupSystem(sys, site, c);
      QuietEligible(sys, site.db, op, now, c.key, c.version);
    }
  }

  lemma SameCandidates(a: Site, b: Site, q: Query)
    requires a.around == b.around && SameDefaults(a.db.settings, b.db.settings)
    ensures Candidates(a, q) == Candidates(b, q)
  {
    hide Applying, Maybe, EffectiveYear;
  }

  /** Settings that differ in their counters only. */
  predicate SameDefaults(a: L.Settings, b: L.Settings) {
    a.defaultKey == b.defaultKey && a.defaultVersion == b.defaultVersion && a.assignmentEnabled == b.assignmentEnabled
  }

  /** A quiet import changes no resolution, with the pack store on or off. */
  lemma QuietImportResolves(sys: System, site: Site, op: L.Op, now: int, q: Query)
    requires op.Import? && Indexed(site.db.rs) && QuietImport(sys, site.db, op, now)
        && L.Apply(sys.host, site.db, op, now).Some?
    ensures ResolveUncached(sys, site.(db := L.Apply(sys.host, site.db, op, now).value), q)
        == ResolveUncached(sys, site, q)
  {
    hide QuietImport, ResolveUncached, ChosenAlike, L.Apply, Indexed, Candidates;
    var after := site.(db := L.Apply(sys.host, site.db, op, now).value);
    ImportSettings(sys.host, site.db, op, now);
    SameCandidates(site, after, q);
    forall c
      ensures ChosenAlike(sys, site, after, c)
    {
      QuietChosenAlike(sys, site, op, now, after, c);
    }
    AlikeResolves(sys, site, after, q);
  }

  lemma ImportSettings(h: Host, db: L.Db, op: L.Op, now: int)
    requires op.Import? && L.Apply(h, db, op, now).Some?
    ensures L.Apply(h, db, op, now).value.settings == L.BumpPack(db.settings)
  {
    hide Validate;
  }

  // ----- what is asked comes from a set of requests

  /** At every site along the run resolution asks for requests of the set only. */
  ghost predicate RunAsks(requests: iset<Request>, sys: System, tenantId: nat, d: Deployment, es: seq<Event>)
    decreases |es|
  {
    SiteAsks(requests, d.site)
    && (es != [] ==> RunAsks(requests, sys, tenantId, Next(sys, tenantId, d, es[0]), es[1..]))
  }

  /** Kept resolutions under the current counter are right once changes are flushed. */
  predicate KeptFresh(sys: System, d: Deployment) {
    !d.unflushed ==>
      forall key | key in d.kept && d.kept[key].bust == d.site.db.settings.resolverBust ::
        var k := d.kept[key];
        k.year == EffectiveYear(d.site.around, k.query) && k.resolved == ResolveUncached(sys, d.site, k.query)
  }

  ghost predicate Inv(requests: iset<Request>, sys: System, tenantId: nat, d: Deployment) {
    && Filed(tenantId, d)
    && Trusted(requests, sys, tenantId, d.site, d.packs)
    && KeptFresh(sys, d)
    && L.Numbered(d.site.db)
  }

  lemma KeptHit(sys: System, tenantId: nat, d: Deployment, q: Query)
    requires KeptFiled(tenantId, d.kept, d.site.db.settings.resolverBust) && KeptFresh(sys, d) && !d.unflushed
    requires KeyNow(tenantId, d.site, q) in d.kept
    ensures d.kept[KeyNow(tenantId, d.site, q)].resolved == ResolveUncached(sys, d.site, q)
  {
    hide ResolveUncached, EffectiveYear, ResolverKey;
    var bust, year := d.site.db.settings.resolverBust, EffectiveYear(d.site.around, q);
    var k := d.kept[KeyNow(tenantId, d.site, q)];
    ResolverKeysDistinct(tenantId, k.query.school, k.query.course, k.year, k.bust, tenantId, q.school, q.course,
      year, bust);
    SameResolution(sys, d.site, k.query, q);
  }

  lemma ResolveKeepsFresh(requests: iset<Request>, sys: System, tenantId: nat, d: Deployment, q: Query)
    requires Unambiguous(requests) && SiteAsks(requests, d.site) && Filed(tenantId, d) && KeptFresh(sys, d)
    requires Trusted(requests, sys, tenantId, d.site, d.packs)
    ensures
      var (r, after) := ResolveCached(sys, tenantId, d, q);
      && Trusted(requests, sys, tenantId, after.site, after.packs) && KeptFresh(sys, after)
      && (!d.unflushed ==> r == ResolveUncached(sys, d.site, q))
  {
    assert d.site.around.flags.packStore ==> ChainAsks(requests, Candidates(d.site, q));
    hide Trusted, ResolveThrough, ResolveUncached, Candidates, ChainAsks, EffectiveYear, ResolverKey, Unambiguous,
      SiteAsks;
    if KeyNow(tenantId, d.site, q) !in d.kept {
      ResolveThroughIsUncached(requests, sys, tenantId, d.site, q, d.packs);
    } else if !d.unflushed {
      KeptHit(sys, tenantId, d, q);
    }
  }

  lemma ResolveKeepsInv(requests: iset<Request>, sys: System, tenantId: nat, d: Deployment, q: Query)
    requires Unambiguous(requests) && SiteAsks(requests, d.site) && Inv(requests, sys, tenantId, d)
    ensures Inv(requests, sys, tenantId, ResolveCached(sys, tenantId, d, q).1)
  {
    ResolveKeepsFiled(sys, tenantId, d, q);
    ResolveKeepsFresh(requests, sys, tenantId, d, q);
    hide Filed, Trusted, KeptFresh, SiteAsks, Unambiguous, ResolveThrough, ResolverKey, L.Numbered;
  }

  // ----- every event keeps the caches trustworthy

  lemma ImportKeepsKept(sys: System, tenantId: nat, d: Deployment, op: L.Op, now: int)
    requires KeptFresh(sys, d) && Indexed(d.site.db.rs) && op.Import?
    ensures KeptFresh(sys, Next(sys, tenantId, d, Operate(op, now)))
  {
    hide ResolveUncached, EffectiveYear, L.Apply, QuietImport, Indexed;
    OperateBumps(sys.host, d.site.db, op, now);
    var after := Next(sys, tenantId, d, Operate(op, now));
    if L.Apply(sys.host, d.site.db, op, now).Some? && !after.unflushed {
      forall k | k in d.kept
        ensures ResolveUncached(sys, after.site, d.kept[k].query) == ResolveUncached(sys, d.site, d.kept[k].query)
      {
        QuietImportResolves(sys, d.site, op, now, d.kept[k].query);
      }
    }
  }

  /** A flush leaves nothing kept under the new counter. */
  lemma FlushKeepsKept(sys: System, tenantId: nat, d: Deployment, op: L.Op, now: int)
    requires KeptFresh(sys, d) && KeptFiled(tenantId, d.kept, d.site.db.settings.resolverBust) && !op.Import?
    ensures KeptFresh(sys, Next(sys, tenantId, d, Operate(op, now)))
  {
    OperateBumps(sys.host, d.site.db, op, now);
    hide ResolveUncached, EffectiveYear, ResolverKey, L.Apply;
  }

  lemma OperateKeepsNumbered(sys: System, tenantId: nat, d: Deployment, op: L.Op, now: int)
    requires L.Numbered(d.site.db)
    ensures L.Numbered(Next(sys, tenantId, d, Operate(op, now)).site.db)
  {
    if L.Apply(sys.host, d.site.db, op, now).Some? {
      L.ApplyKeepsNumbered(sys.host, d.site.db, op, now);
    }
    hide L.Apply, L.Numbered, QuietImport;
  }

  lemma OperateKeepsTrusted(requests: iset<Request>, sys: System, tenantId: nat, d: Deployment, op: L.Op, now: int)
    requires Trusted(requests, sys, tenantId, d.site, d.packs)
    requires PacksFiled(tenantId, d.packs, d.site.db.settings.packBust)
    ensures
      var after := Next(sys, tenantId, d, Operate(op, now));
      Trusted(requests, sys, tenantId, after.site, after.packs)
  {
    OperateBumps(sys.host, d.site.db, op, now);
    hide FetchUncached, PackKey, L.Apply, Answer, QuietImport;
  }

  lemma OperateKeepsInv(requests: iset<Request>, sys: System, tenantId: nat, d: Deployment, op: L.Op, now: int)
    requires Inv(requests, sys, tenantId, d)
    ensures Inv(requests, sys, tenantId, Next(sys, tenantId, d, Operate(op, now)))
  {
    assert Indexed(d.site.db.rs);
    hide KeptFresh, Trusted, Next, L.Numbered, Indexed, PacksFiled, KeptFiled;
    OperateKeepsFiled(sys, tenantId, d, op, now);
    OperateKeepsTrusted(requests, sys, tenantId, d, op, now);
    OperateKeepsNumbered(sys, tenantId, d, op, now);
    if op.Import? {
      ImportKeepsKept(sys, tenantId, d, op, now);
    } else {
      FlushKeepsKept(sys, tenantId, d, op, now);
    }
  }

  lemma OthersKeepInv(requests: iset<Request>, sys: System, tenantId: nat, d: Deployment, e: Event)
    requires Inv(requests, sys, tenantId, d) && Allowed(d, e) && (e.Change? || e.EvictPack? || e.EvictKept?)
    ensures Inv(requests, sys, tenantId, Next(sys, tenantId, d, e))
  {
    NextKeepsFiled(sys, tenantId, d, e);
    hide ResolveUncached, EffectiveYear, FetchUncached, PackKey, Answer, Filed;
  }

  lemma NextKeepsInv(requests: iset<Request>, sys: System, tenantId: nat, d: Deployment, e: Event)
    requires Unambiguous(requests) && SiteAsks(requests, d.site)
    requires Inv(requests, sys, tenantId, d) && Allowed(d, e)
    ensures Inv(requests, sys, tenantId, Next(sys, tenantId, d, e))
  {
    hide Inv, L.Apply, ResolveCached, QuietImport, Unambiguous, SiteAsks;
    match e
    case Operate(op, now) => OperateKeepsInv(requests, sys, tenantId, d, op, now);
    case Resolve(q) => ResolveKeepsInv(requests, sys, tenantId, d, q);
    case _ => OthersKeepInv(requests, sys, tenantId, d, e);
  }

  /** Over every run that asks for unambiguous requests only both caches stay trustworthy. */
  lemma {:induction false} RunKeepsInv(requests: iset<Request>, sys: System, tenantId: nat, d: Deployment,
    es: seq<Event>, last: Deployment)
    requires Unambiguous(requests) && Run(sys, tenantId, d, es, last) && RunAsks(requests, sys, tenantId, d, es)
    requires Inv(requests, sys, tenantId, d)
    ensures Inv(requests, sys, tenantId, last) && SiteAsks(requests, last.site)
    decreases |es|
  {
    hide Inv, Next, SiteAsks, Allowed, Unambiguous;
    if es != [] {
      NextKeepsInv(requests, sys, tenantId, d, es[0]);
      RunKeepsInv(requests, sys, tenantId, Next(sys, tenantId, d, es[0]), es[1..], last);
    }
  }

  lemma StartsTrusted(requests: iset<Request>, sys: System, tenantId: nat, site: Site)
    requires L.Numbered(site.db)
    ensures Inv(requests, sys, tenantId, Start(site))
  {
    hide ResolveUncached, FetchUncached;
  }

  lemma NextKeepsImported(sys: System, tenantId: nat, d: Deployment, e: Event)
    requires L.Imported(sys.host, d.site.db) && Allowed(d, e)
    ensures L.Imported(sys.host, Next(sys, tenantId, d, e).site.db)
  {
    if e.Operate? && L.Apply(sys.host, d.site.db, e.op, e.now).Some? {
      L.ApplyKeepsImported(sys.host, d.site.db, e.op, e.now);
    }
    hide L.Apply, L.RowImported, L.Numbered, QuietImport, ResolveThrough, ResolverKey;
  }

  /** Rows stay as imported over every run of the deployment. */
  lemma {:induction false} RunKeepsImported(sys: System, tenantId: nat, d: Deployment, es: seq<Event>, last: Deployment)
    requires L.Imported(sys.host, d.site.db) && Run(sys, tenantId, d, es, last)
    ensures L.Imported(sys.host, last.site.db)
    decreases |es|
  {
    hide Next, Allowed, L.Imported;
    if es != [] {
      NextKeepsImported(sys, tenantId, d, es[0]);
      RunKeepsImported(sys, tenantId, Next(sys, tenantId, d, es[0]), es[1..], last);
    }
  }

  /** After any run whose latest change to the data is a publish, deprecate, freeze or rollback, quiet imports apart,
      and which asks for unambiguous requests only, resolving through both caches gives exactly what resolving
      without them gives. */
  lemma ResolveIsUncachedAfterFlush(requests: iset<Request>, sys: System, tenantId: nat, site: Site, es: seq<Event>,
    d: Deployment, q: Query)
    requires Unambiguous(requests) && RunAsks(requests, sys, tenantId, Start(site), es)
    requires L.Numbered(site.db) && Run(sys, tenantId, Start(site), es, d) && !d.unflushed
    ensures ResolveCached(sys, tenantId, d, q).0 == ResolveUncached(sys, d.site, q)
  {
    hide Trusted, KeptFresh, Filed, Unambiguous, SiteAsks, Run, RunAsks, ResolveCached, ResolveUncached;
    StartsTrusted(requests, sys, tenantId, site);
    RunKeepsInv(requests, sys, tenantId, Start(site), es, d);
    ResolveKeepsFresh(requests, sys, tenantId, d, q);
  }

  // ----- what publishing does to resolution

  /** No course, school or assignment names a profile for the query. */
  predicate OnlyDefaults(site: Site, q: Query) {
    && CourseCandidates(site.around, q) == [] && SchoolCandidates(site.around, q) == []
    && AssignmentCandidates(site, CourseAssignment, CourseScope, q) == []
    && AssignmentCandidates(site, SchoolAssignment, SchoolScope, q) == []
    && AssignmentCandidates(site, YearFreeze, YearScope, q) == []
    && AssignmentCandidates(site, TenantAssignment, TenantScope, q) == []
  }

  lemma EligibleIsFetched(sys: System, db: L.Db, i: nat)
    requires L.Imported(sys.host, db) && i < |db.rs| && Eligible(db.rs[i].status)
    ensures
      var r := db.rs[i];
      && !Blank(r.key) && !Blank(r.version) && r.payload != map[]
      && NamesRelease(r.payload) && ProfileKey(r.payload) == r.key && ProfileVersion(r.payload) == r.version
      && FetchUncached(sys, db.rs, Request(r.key, Some(r.version)))
         == Some(Record(r.payload, TenantRelease, Some(r.id), Some(r.status)))
  {
    var r := db.rs[i];
    assert L.RowImported(sys.host, r);
    L.ValidNames(sys.host, r.payload);
    NamedNotEmpty(r.payload);
    var j := Find(db.rs, r.key, r.version);
    assert j.Some?;
    assert Named(db.rs[i], db.rs[j.value].key, db.rs[j.value].version);
    assert j.value == i;
    hide Validate, NamesRelease, ProfileKey, ProfileVersion, Blank;
  }

  lemma NamedNotEmpty(q: Profile)
    ensures NamesRelease(q) ==> q != map[]
  {
  }

  lemma FirstCandidateWins(sys: System, site: Site, q: Query, c: Candidate, r: Record)
    requires Candidates(site, q) != [] && Candidates(site, q)[0] == c
    requires site.around.flags.packStore && !Blank(c.key) && r.payload != map[]
    requires FetchUncached(sys, site.db.rs, Request(c.key, Presence(c.version))) == Some(r)
    ensures
      ResolveUncached(sys, site, q)
      == Resolved(r.payload, c.level, Some(r.source), r.releaseId, None, Candidates(site, q))
  {
    hide Candidates, FetchUncached, Blank;
    assert Lookup(sys, site, c) == Some(Selected(c, r.payload, r.source, r.releaseId));
  }

  lemma EligiblePublished()
    ensures Eligible(Published)
  {
  }

  lemma ImportedIndexed(h: Host, db: L.Db)
    ensures L.Imported(h, db) ==> Indexed(db.rs)
  {
  }

  lemma DefaultLeads(site: Site, q: Query, key: string, version: string)
    requires OnlyDefaults(site, q) && !Blank(key)
    requires site.db.settings.defaultKey == Some(key) && site.db.settings.defaultVersion == Some(version)
    ensures Candidates(site, q) != [] && Candidates(site, q)[0] == Candidate(TenantDefault, key, Some(version))
  {
    hide AssignmentCandidates, CourseCandidates, SchoolCandidates, Blank, FALLBACK;
    var rest := Maybe(DistrictDefault, site.around.districtKey, site.around.districtVersion) + [FALLBACK];
    assert Candidates(site, q) == [Candidate(TenantDefault, key, Some(version))] + rest;
  }

  /** After a publish, with nothing but defaults to go by, the first candidate is the published release. */
  lemma PublishLeads(sys: System, site: Site, q: Query, key: string, version: string, metadata: L.Metadata, now: int)
    returns (r: Record)
    requires L.Imported(sys.host, site.db) && L.Apply(sys.host, site.db, L.Publish(key, version, metadata), now).Some?
    requires OnlyDefaults(site.(db := L.Apply(sys.host, site.db, L.Publish(key, version, metadata), now).value), q)
    ensures
      var after := L.Apply(sys.host, site.db, L.Publish(key, version, metadata), now).value;
      var c := Candidate(TenantDefault, key, Some(version));
      var chain := Candidates(site.(db := after), q);
      && chain != [] && chain[0] == c && !Blank(key) && r.payload != map[] && r.source == TenantRelease
      && FetchUncached(sys, after.rs, RequestOf(c)) == Some(r)
      && NamesRelease(r.payload) && ProfileKey(r.payload) == key && ProfileVersion(r.payload) == version
      && exists i :: 0 <= i < |after.rs| && r.releaseId == Some(after.rs[i].id) && r.payload == after.rs[i].payload
                     && Named(after.rs[i], key, version)
  {
    hide L.Apply, L.Imported, FetchUncached, OnlyDefaults, Candidates, NamesRelease, ProfileKey, ProfileVersion, Blank,
      Eligible;
    assert Eligible(Published) by { EligiblePublished(); }
    var op := L.Publish(key, version, metadata);
    ImportedIndexed(sys.host, site.db);
    L.ApplyKeepsImported(sys.host, site.db, op, now);
    L.PublishNamesDefault(sys.host, site.db, key, version, metadata, now);
    var after := L.Apply(sys.host, site.db, op, now).value;
    var i :| 0 <= i < |after.rs| && after.rs[i].status == Published && Named(after.rs[i], key, version);
    EligibleIsFetched(sys, after, i);
    DefaultLeads(site.(db := after), q, key, version);
    r := Record(after.rs[i].payload, TenantRelease, Some(after.rs[i].id), Some(after.rs[i].status));
  }

  /** With the pack store on and nothing but defaults to go by, resolving after a publish gives
      exactly the published release's payload, key and version, with no fallback. */
  lemma PublishedIsResolved(sys: System, site: Site, q: Query, key: string, version: string, metadata: L.Metadata,
    now: int)
    requires L.Imported(sys.host, site.db) && L.Apply(sys.host, site.db, L.Publish(key, version, metadata), now).Some?
    requires OnlyDefaults(site.(db := L.Apply(sys.host, site.db, L.Publish(key, version, metadata), now).value), q)
    requires site.around.flags.packStore
    ensures
      var after := L.Apply(sys.host, site.db, L.Publish(key, version, metadata), now).value;
      var r := ResolveUncached(sys, site.(db := after), q);
      && NamesRelease(r.profile) && ProfileKey(r.profile) == key && ProfileVersion(r.profile) == version
      && r.level == TenantDefault && r.source == Some(TenantRelease) && r.reason == None
      && exists i :: 0 <= i < |after.rs| && r.releaseId == Some(after.rs[i].id) && r.profile == after.rs[i].payload
                     && Named(after.rs[i], key, version)
  {
    hide L.Apply, L.Imported, FetchUncached, OnlyDefaults, Candidates, ResolveUncached, NamesRelease, ProfileKey,
      ProfileVersion, Blank;
    var r := PublishLeads(sys, site, q, key, version, metadata, now);
    var after := L.Apply(sys.host, site.db, L.Publish(key, version, metadata), now).value;
    FirstCandidateWins(sys, site.(db := after), q, Candidate(TenantDefault, key, Some(version)), r);
  }

  lemma FirstCandidateAnswers(sys: System, tenantId: nat, site: Site, q: Query, cache: Cache, c: Candidate, r: Record)
    requires Candidates(site, q) != [] && Candidates(site, q)[0] == c
    requires site.around.flags.packStore && !Blank(c.key) && r.payload != map[]
    requires
      var key := PackKey(tenantId, RequestOf(c), site.db.settings.packBust);
      if key in cache then cache[key].value == Some(r) else FetchUncached(sys, site.db.rs, RequestOf(c)) == Some(r)
    ensures
      ResolveThrough(sys, tenantId, site, q, cache).0
      == Resolved(r.payload, c.level, Some(r.source), r.releaseId, None, Candidates(site, q))
  {
    hide Candidates, FetchUncached, Blank, PackKey;
    assert Ask(sys, tenantId, site, cache, c).0 == Some(Selected(c, r.payload, r.source, r.releaseId));
  }

  /** Nothing is filed under a counter still to come. */
  lemma NothingAhead(tenantId: nat, packs: Cache, kept: map<string, Kept>, packBust: nat, resolverBust: nat,
    req: Request, site: Site, q: Query)
    requires PacksFiled(tenantId, packs, packBust) && KeptFiled(tenantId, kept, resolverBust)
    requires site.db.settings.packBust > packBust && site.db.settings.resolverBust > resolverBust
    ensures PackKey(tenantId, req, site.db.settings.packBust) !in packs && KeyNow(tenantId, site, q) !in kept
  {
    hide PackKey, ResolverKey, EffectiveYear;
    var key, rkey := PackKey(tenantId, req, site.db.settings.packBust), KeyNow(tenantId, site, q);
    if key in packs {
      PackKeyCollisions(tenantId, packs[key].request, packs[key].bust, tenantId, req, site.db.settings.packBust);
    }
    if rkey in kept {
      var k := kept[rkey];
      ResolverKeysDistinct(tenantId, k.query.school, k.query.course, k.year, k.bust, tenantId, q.school, q.course,
        EffectiveYear(site.around, q), site.db.settings.resolverBust);
    }
  }

  /** The same through both caches, right after the publish, whatever ran before and whatever the release is called:
      the publish moves both counters, so nothing cached before is in the way. */
  lemma PublishThenResolve(sys: System, tenantId: nat, site: Site, es: seq<Event>, d: Deployment, q: Query, key: string,
    version: string, metadata: L.Metadata, now: int)
    requires L.Imported(sys.host, site.db) && Run(sys, tenantId, Start(site), es, d)
    requires L.Apply(sys.host, d.site.db, L.Publish(key, version, metadata), now).Some? && d.site.around.flags.packStore
    requires OnlyDefaults(Next(sys, tenantId, d, Operate(L.Publish(key, version, metadata), now)).site, q)
    ensures
      var after := Next(sys, tenantId, d, Operate(L.Publish(key, version, metadata), now));
      var r := ResolveCached(sys, tenantId, after, q).0;
      NamesRelease(r.profile) && ProfileKey(r.profile) == key && ProfileVersion(r.profile) == version
      && r.level == TenantDefault && r.source == Some(TenantRelease) && r.reason == None
      && r == ResolveUncached(sys, after.site, q)
  {
    var op := L.Publish(key, version, metadata);
    OperateBumps(sys.host, d.site.db, op, now);
    assert Filed(tenantId, Start(site));
    hide ResolveUncached, OnlyDefaults, L.Imported, NamesRelease, ProfileKey, ProfileVersion, Run, L.Apply, Blank,
      PacksFiled, KeptFiled, ResolveThrough, PackKey, ResolverKey, EffectiveYear;
    RunKeepsFiled(sys, tenantId, Start(site), es, d);
    RunKeepsImported(sys, tenantId, Start(site), es, d);
    var after := Next(sys, tenantId, d, Operate(op, now));
    var settings := d.site.db.settings;
    var c := Candidate(TenantDefault, key, Some(version));
    NothingAhead(tenantId, d.packs, d.kept, settings.packBust, settings.resolverBust, RequestOf(c), after.site, q);
    var r := PublishLeads(sys, d.site, q, key, version, metadata, now);
    FirstCandidateWins(sys, after.site, q, c, r);
    FirstCandidateAnswers(sys, tenantId, after.site, q, d.packs, c, r);
  }
}
