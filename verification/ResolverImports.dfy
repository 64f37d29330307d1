/** When an import, which does not flush the resolver, leaves it with an answer that is no longer right. */
module ResolverImports {
  import opened Text
  import opened Registry
  import opened PackStore
  import opened ImportEffects
  import opened Resolver
  import opened ResolverRuns
  import opened ResolverPins
  import L = Lifecycle

  function DbAfter(h: Host, db: L.Db, op: L.Op, now: int): L.Db {
    var after := L.Apply(h, db, op, now);
    if after.Some? then after.value else db
  }

  /** A changed answer shows in the resolution of a course pinned to its request, which the pack store's
      cache does not get in the way of. */
  lemma DifferentlyResolved(sys: System, tenantId: nat, before: L.Db, after: L.Db, req: Request)
    requires !Blank(req.key) && Replaced(FetchUncached(sys, before.rs, req), FetchUncached(sys, after.rs, req))
    ensures
      var a, b := Site(before, PinnedTo([req])), Site(after, PinnedTo([req]));
      ResolveThrough(sys, tenantId, a, OfCourse(0), map[]).0
      == ResolveUncached(sys, a, OfCourse(0)) != ResolveUncached(sys, b, OfCourse(0))
  {
    var a, pin, r := Site(before, PinnedTo([req])), Pin(req), FetchUncached(sys, before.rs, req).value;
    PinLeads(before, [req], 0);
    SameAnswer(sys, before.rs, RequestOf(pin), req);
    assert a.around.flags.packStore;
    hide FetchUncached, Candidates, Blank, ResolveUncached, ResolveThrough, PinnedTo, PackKey;
    assert RequestOf(pin) == Request(pin.key, Presence(pin.version));
    FirstCandidateWins(sys, a, OfCourse(0), pin, r);
    FirstCandidateAnswers(sys, tenantId, a, OfCourse(0), map[], pin, r);
    PinUncached(sys, before, [req], 0);
    PinUncached(sys, after, [req], 0);
  }

  /** An import leaves every resolution alone, in whatever surroundings, iff it is quiet. */
  lemma ImportChangesNoResolutionIff(sys: System, db: L.Db, op: L.Op, now: int)
    requires op.Import? && L.Imported(sys.host, db)
    ensures
      var after := DbAfter(sys.host, db, op, now);
      QuietImport(sys, db, op, now) <==>
      forall around, q :: ResolveUncached(sys, Site(after, around), q) == ResolveUncached(sys, Site(db, around), q)
  {
    assert Indexed(db.rs) by { RowsImported(sys.host, db, op, now); }
    hide QuietImport, ResolveUncached, L.Apply, L.Imported, Indexed, Replaced;
    if QuietImport(sys, db, op, now) {
      forall around, q
        ensures ResolveUncached(sys, Site(DbAfter(sys.host, db, op, now), around), q)
            == ResolveUncached(sys, Site(db, around), q)
      {
        if L.Apply(sys.host, db, op, now).Some? {
          QuietImportResolves(sys, Site(db, around), op, now, q);
        }
      }
    } else {
      var req := LoudImportChanges(sys, db, op, now);
      DifferentlyResolved(sys, 0, db, DbAfter(sys.host, db, op, now), req);
    }
  }

  /** An import leaves a kept answer where it is. */
  lemma KeptServed(sys: System, tenantId: nat, site: Site, op: L.Op, now: int, q: Query)
    requires op.Import?
    ensures
      var start := Start(site);
      var after := Next(sys, tenantId, Next(sys, tenantId, start, Resolve(q)), Operate(op, now));
      && after.site == site.(db := DbAfter(sys.host, site.db, op, now))
      && ResolveCached(sys, tenantId, after, q).0 == ResolveThrough(sys, tenantId, site, q, map[]).0
  {
    OperateBumps(sys.host, site.db, op, now);
    hide ResolveThrough, ResolverKey, EffectiveYear, L.Apply, QuietImport, Indexed;
    var asked := Next(sys, tenantId, Start(site), Resolve(q));
    var key := ResolverKey(tenantId, q.school, q.course, EffectiveYear(site.around, q), site.db.settings.resolverBust);
    assert key in asked.kept && asked.site == site;
  }

  /** After any other import some deployment serves the answer it kept before: a resolution, the import,
      and the same resolution again, in surroundings where a course is pinned to the changed lookup. */
  lemma LoudImportStales(sys: System, tenantId: nat, db: L.Db, op: L.Op, now: int)
    returns (around: Surroundings, q: Query)
    requires op.Import? && L.Imported(sys.host, db) && !QuietImport(sys, db, op, now)
    ensures
      var start := Start(Site(db, around));
      var after := Next(sys, tenantId, Next(sys, tenantId, start, Resolve(q)), Operate(op, now));
      && after.site.db == DbAfter(sys.host, db, op, now)
      && ResolveCached(sys, tenantId, after, q).0 == ResolveUncached(sys, start.site, q)
      && ResolveCached(sys, tenantId, after, q).0 != ResolveUncached(sys, after.site, q)
  {
    hide Next, QuietImport, ResolveUncached, ResolveCached, L.Apply, L.Imported, Replaced, Blank, FetchUncached,
      ResolveThrough;
    var req := LoudImportChanges(sys, db, op, now);
    around, q := PinnedTo([req]), OfCourse(0);
    DifferentlyResolved(sys, tenantId, db, DbAfter(sys.host, db, op, now), req);
    KeptServed(sys, tenantId, Site(db, around), op, now, q);
  }
}
