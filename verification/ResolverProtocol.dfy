/** The resolver's cache under concurrency: readers that load the tenant, resolve and store in separate
    steps, evictions, and one lifecycle operation at a time that writes rows and defaults and then bumps
    its two counters one after the other. */
module ResolverProtocol {
  import opened Text
  import opened Registry
  import opened PackStore
  import opened PackStoreRequests
  import opened Resolver
  import opened ResolverRuns
  import opened ResolverPins
  import opened ResolverRequests
  import L = Lifecycle

  /** Where an operation stands: none under way, writing, or between its two bumps. */
  datatype Phase = Idle | Writing | BetweenBumps

  /** A reader holds the tenant settings it loaded. */
  datatype Reader =
    | Loaded(settings: L.Settings, query: Query)
    | Computed(settings: L.Settings, query: Query, resolved: Resolved)

  datatype State = State(site: Site, packs: Cache, kept: map<string, Kept>, phase: Phase, readers: map<nat, Reader>)

  datatype Step =
    | Begin
    | Write(db: L.Db)
    | BumpFirst
    | BumpSecond
    | Load(reader: nat, query: Query)
    | Compute(reader: nat)
    | Store(reader: nat)
    | DropPack(key: string)
    | DropKept(key: string)

  /** Which counter an operation bumps first: `publish!` and its siblings bump the resolver's. */
  datatype Order = PackFirst | ResolverFirst

  datatype Config = Config(sys: System, tenantId: nat, order: Order)

  function KeyOf(c: Config, s: State, r: Reader): string { KeyNow(c.tenantId, Seen(s.site, r.settings), r.query) }

  /** The site as a reader sees it: current rows, the settings it loaded. */
  function Seen(site: Site, settings: L.Settings): Site { site.(db := site.db.(settings := settings)) }

  function BumpResolver(s: L.Settings): L.Settings { s.(resolverBust := s.resolverBust + 1) }

  function WithSettings(s: State, settings: L.Settings, phase: Phase): State {
    s.(site := Seen(s.site, settings), phase := phase)
  }

  predicate Enabled(c: Config, s: State, step: Step) {
    match step
    case Begin => s.phase == Idle
    case Write(db) =>
      s.phase == Writing && db.settings.packBust == s.site.db.settings.packBust
      && db.settings.resolverBust == s.site.db.settings.resolverBust
    case BumpFirst => s.phase == Writing
    case BumpSecond => s.phase == BetweenBumps
    case Load(id, _) => id !in s.readers
    case Compute(id) => id in s.readers && s.readers[id].Loaded?
    case Store(id) => id in s.readers && s.readers[id].Computed?
    case DropPack(_) => true
    case DropKept(_) => true
  }

  function Apply(c: Config, s: State, step: Step): State
    requires Enabled(c, s, step)
  {
    var settings := s.site.db.settings;
    match step
    case Begin => s.(phase := Writing)
    case Write(db) => s.(site := s.site.(db := db))
    case BumpFirst =>
      WithSettings(s, if c.order == PackFirst then L.BumpPack(settings) else BumpResolver(settings), BetweenBumps)
    case BumpSecond =>
      WithSettings(s, if c.order == PackFirst then BumpResolver(settings) else L.BumpPack(settings), Idle)
    case Load(id, q) => s.(readers := s.readers[id := Loaded(settings, q)])
    case Compute(id) => ComputeStep(c, s, id)
    case Store(id) =>
      var r := s.readers[id];
      var year := EffectiveYear(s.site.around, r.query);
      s.(readers := s.readers - {id},
         kept := s.kept[KeyOf(c, s, r) := Kept(r.resolved, r.query, year, r.settings.resolverBust)])
    case DropPack(key) => s.(packs := s.packs - {key})
    case DropKept(key) => s.(kept := s.kept - {key})
  }

  /** A hit ends the reader; a miss resolves through the pack store. */
  function ComputeStep(c: Config, s: State, id: nat): State
    requires id in s.readers
  {
    var r := s.readers[id];
    if KeyOf(c, s, r) in s.kept then s.(readers := s.readers - {id})
    else
      var (resolved, packs) := ResolveThrough(c.sys, c.tenantId, Seen(s.site, r.settings), r.query, s.packs);
      s.(packs := packs, readers := s.readers[id := Computed(r.settings, r.query, resolved)])
  }

  function Initial(site: Site): State { State(site, map[], map[], Idle, map[]) }

  ghost predicate Interleaving(c: Config, s: State, steps: seq<Step>, t: State)
    decreases |steps|
  {
    if steps == [] then s == t
    else Enabled(c, s, steps[0]) && Interleaving(c, Apply(c, s, steps[0]), steps[1..], t)
  }

  /** At every site along the run resolution asks for requests of the set only. */
  ghost predicate InterleavingAsks(requests: iset<Request>, c: Config, s: State, steps: seq<Step>)
    decreases |steps|
  {
    SiteAsks(requests, s.site)
    && (steps != [] && Enabled(c, s, steps[0]) ==> InterleavingAsks(requests, c, Apply(c, s, steps[0]), steps[1..]))
  }

  /** What resolving now answers. */
  function Served(c: Config, s: State, q: Query): Resolved {
    ResolveCached(c.sys, c.tenantId, Deployment(s.site, s.packs, s.kept, false), q).0
  }

  // ----- the invariant, for the pack store's counter first

  ghost predicate PacksAsked(requests: iset<Request>, packs: Cache) {
    forall k | k in packs :: packs[k].request in requests && !Blank(packs[k].request.key)
  }

  /** Pack entries sit under their keys; once the rows are written those under the current counter are right. */
  ghost predicate PacksRight(requests: iset<Request>, c: Config, s: State) {
    && PacksFiled(c.tenantId, s.packs, s.site.db.settings.packBust) && PacksAsked(requests, s.packs)
    && (s.phase != Writing ==> Trusted(requests, c.sys, c.tenantId, s.site, s.packs))
  }

  /** The same for resolutions, which are right between operations. */
  predicate KeptRight(c: Config, s: State) {
    && KeptFiled(c.tenantId, s.kept, s.site.db.settings.resolverBust)
    && KeptFresh(c.sys, Deployment(s.site, s.packs, s.kept, s.phase != Idle))
  }

  /** The settings a reader loaded lead to requests of the set. */
  ghost predicate SettingsAsk(requests: iset<Request>, around: Surroundings, settings: L.Settings) {
    SiteAsks(requests, Site(L.Db([], settings, 0), around))
  }

  ghost predicate ReaderRight(requests: iset<Request>, c: Config, s: State, r: Reader) {
    var settings := s.site.db.settings;
    && r.settings.packBust <= settings.packBust && r.settings.resolverBust <= settings.resolverBust
    && SettingsAsk(requests, s.site.around, r.settings)
    && (s.phase == Idle && r.settings.resolverBust == settings.resolverBust ==>
          r.settings == settings && (r.Computed? ==> r.resolved == ResolveUncached(c.sys, s.site, r.query)))
  }

  ghost predicate ReadersRight(requests: iset<Request>, c: Config, s: State) {
    forall id | id in s.readers :: ReaderRight(requests, c, s, s.readers[id])
  }

  ghost predicate Inv(requests: iset<Request>, c: Config, s: State) {
    PacksRight(requests, c, s) && KeptRight(c, s) && ReadersRight(requests, c, s)
  }

  lemma WriterKeepsInv(requests: iset<Request>, c: Config, s: State, step: Step)
    requires c.order == PackFirst && Inv(requests, c, s) && Enabled(c, s, step)
    requires step.Begin? || step.Write? || step.BumpFirst? || step.BumpSecond?
    ensures Inv(requests, c, Apply(c, s, step))
  {
    hide FetchUncached, PackKey, ResolverKey, ResolveUncached, EffectiveYear, SettingsAsk, Answer, Blank;
  }

  lemma EvictionKeepsInv(requests: iset<Request>, c: Config, s: State, step: Step)
    requires Inv(requests, c, s) && (step.DropPack? || step.DropKept?)
    ensures Inv(requests, c, Apply(c, s, step))
  {
    hide FetchUncached, PackKey, ResolverKey, ResolveUncached, EffectiveYear, SettingsAsk, Answer, Blank;
  }

  lemma SettingsAskAlike(requests: iset<Request>, site: Site, settings: L.Settings)
    ensures SettingsAsk(requests, site.around, settings) <==> SiteAsks(requests, Seen(site, settings))
  {
    hide ChainAsks, Candidates;
    var bare := Site(L.Db([], settings, 0), site.around);
    forall q
      ensures Candidates(Seen(site, settings), q) == Candidates(bare, q)
    {
      SameCandidates(Seen(site, settings), bare, q);
    }
  }

  lemma LoadKeepsInv(requests: iset<Request>, c: Config, s: State, step: Step)
    requires Inv(requests, c, s) && SiteAsks(requests, s.site) && step.Load? && Enabled(c, s, step)
    ensures Inv(requests, c, Apply(c, s, step))
  {
    SettingsAskAlike(requests, s.site, s.site.db.settings);
    assert Seen(s.site, s.site.db.settings) == s.site;
    hide ResolveUncached, SettingsAsk, SiteAsks, PacksFiled, PacksAsked, Trusted, KeptFiled, KeptFresh;
  }

  lemma StoreKeepsInv(requests: iset<Request>, c: Config, s: State, step: Step)
    requires Inv(requests, c, s) && step.Store? && Enabled(c, s, step)
    ensures Inv(requests, c, Apply(c, s, step))
  {
    hide ResolverKey, ResolveUncached, EffectiveYear, SettingsAsk, PacksFiled, PacksAsked, Trusted;
  }

  lemma PacksStayRight(requests: iset<Request>, c: Config, s: State, settings: L.Settings, packs: Cache)
    requires PacksRight(requests, c, s) && settings.packBust <= s.site.db.settings.packBust
    requires Extends(requests, c.sys, c.tenantId, Seen(s.site, settings), s.packs, packs)
    ensures PacksRight(requests, c, s.(packs := packs))
  {
    hide FetchUncached, PackKey, Answer, Blank;
  }

  lemma ComputeKeepsInv(requests: iset<Request>, c: Config, s: State, step: Step)
    requires Unambiguous(requests) && Inv(requests, c, s) && step.Compute? && Enabled(c, s, step)
    ensures Inv(requests, c, Apply(c, s, step))
  {
    hide Unambiguous, Candidates, ChainAsks, Extends, Trusted, PacksFiled, PacksAsked, KeptRight, ResolveThrough,
      ResolveUncached, SettingsAsk, ResolverKey, EffectiveYear;
    var r := s.readers[step.reader];
    assert ReaderRight(requests, c, s, r);
    SettingsAskAlike(requests, s.site, r.settings);
    var seen := Seen(s.site, r.settings);
    assert seen.around.flags.packStore ==> ChainAsks(requests, Candidates(seen, r.query));
    ResolveExtends(requests, c.sys, c.tenantId, seen, r.query, s.packs);
    var (resolved, packs) := ResolveThrough(c.sys, c.tenantId, seen, r.query, s.packs);
    PacksStayRight(requests, c, s, r.settings, packs);
    if s.phase == Idle && r.settings.resolverBust == s.site.db.settings.resolverBust {
      assert seen == s.site;
      ResolveThroughIsUncached(requests, c.sys, c.tenantId, s.site, r.query, s.packs);
    }
    hide PacksRight;
    ComputedInv(requests, c, s, step.reader);
  }

  /** What is left once the new pack entries and the new resolution are known to be right. */
  lemma ComputedInv(requests: iset<Request>, c: Config, s: State, id: nat)
    requires Inv(requests, c, s) && id in s.readers && s.readers[id].Loaded?
    requires
      var r := s.readers[id];
      var (resolved, packs) := ResolveThrough(c.sys, c.tenantId, Seen(s.site, r.settings), r.query, s.packs);
      && PacksRight(requests, c, s.(packs := packs))
      && (s.phase == Idle && r.settings.resolverBust == s.site.db.settings.resolverBust ==>
            resolved == ResolveUncached(c.sys, s.site, r.query))
    ensures Inv(requests, c, ComputeStep(c, s, id))
  {
    hide ResolverKey, ResolveUncached, ResolveThrough, EffectiveYear, SettingsAsk, PacksFiled, PacksAsked, Trusted;
  }

  lemma StepKeepsInv(requests: iset<Request>, c: Config, s: State, step: Step)
    requires c.order == PackFirst && Unambiguous(requests) && SiteAsks(requests, s.site)
    requires Inv(requests, c, s) && Enabled(c, s, step)
    ensures Inv(requests, c, Apply(c, s, step))
  {
    hide Inv, SiteAsks, Unambiguous, Enabled, Apply;
    match step
    case Load(_, _) => LoadKeepsInv(requests, c, s, step);
    case Compute(_) => ComputeKeepsInv(requests, c, s, step);
    case Store(_) => StoreKeepsInv(requests, c, s, step);
    case DropPack(_) => EvictionKeepsInv(requests, c, s, step);
    case DropKept(_) => EvictionKeepsInv(requests, c, s, step);
    case _ => WriterKeepsInv(requests, c, s, step);
  }

  lemma {:induction false} RunKeepsInv(requests: iset<Request>, c: Config, s: State, steps: seq<Step>, t: State)
    requires c.order == PackFirst && Unambiguous(requests)
    requires Inv(requests, c, s) && Interleaving(c, s, steps, t) && InterleavingAsks(requests, c, s, steps)
    ensures Inv(requests, c, t)
    decreases |steps|
  {
    hide Inv, SiteAsks, Unambiguous, Enabled, Apply;
    if steps != [] {
      StepKeepsInv(requests, c, s, steps[0]);
      RunKeepsInv(requests, c, Apply(c, s, steps[0]), steps[1..], t);
    }
  }

  lemma StartsRight(requests: iset<Request>, c: Config, site: Site)
    ensures Inv(requests, c, Initial(site))
  {
    hide FetchUncached, PackKey, ResolverKey, ResolveUncached;
  }

  lemma {:induction false} RunEndsAsking(requests: iset<Request>, c: Config, s: State, steps: seq<Step>, t: State)
    requires Interleaving(c, s, steps, t) && InterleavingAsks(requests, c, s, steps)
    ensures SiteAsks(requests, t.site)
    decreases |steps|
  {
    hide SiteAsks, Enabled, Apply;
    if steps != [] {
      RunEndsAsking(requests, c, Apply(c, s, steps[0]), steps[1..], t);
    }
  }

  /** Trustworthy caches serve the uncached resolution. */
  lemma TrustedServes(requests: iset<Request>, c: Config, s: State, q: Query)
    requires Unambiguous(requests) && SiteAsks(requests, s.site)
    requires Trusted(requests, c.sys, c.tenantId, s.site, s.packs)
    requires KeptFiled(c.tenantId, s.kept, s.site.db.settings.resolverBust)
    requires KeptFresh(c.sys, Deployment(s.site, s.packs, s.kept, false))
    ensures Served(c, s, q) == ResolveUncached(c.sys, s.site, q)
  {
    assert s.site.around.flags.packStore ==> ChainAsks(requests, Candidates(s.site, q));
    hide Unambiguous, SiteAsks, ChainAsks, Candidates, Trusted, KeptFiled, KeptFresh, ResolveThrough, ResolveUncached,
      ResolverKey, EffectiveYear;
    if KeyNow(c.tenantId, s.site, q) in s.kept {
      KeptHit(c.sys, c.tenantId, Deployment(s.site, s.packs, s.kept, false), q);
    } else {
      ResolveThroughIsUncached(requests, c.sys, c.tenantId, s.site, q, s.packs);
    }
  }

  /** With the pack store's counter bumped first, in every interleaving that asks for unambiguous requests only,
      whenever no operation is under way the entries under the current resolver counter are uncached resolutions,
      and so is the answer of a resolution by an up-to-date tenant. */
  lemma PackFirstIsRight(requests: iset<Request>, c: Config, site: Site, steps: seq<Step>, s: State, q: Query)
    requires c.order == PackFirst && Unambiguous(requests)
    requires Interleaving(c, Initial(site), steps, s) && InterleavingAsks(requests, c, Initial(site), steps)
        && s.phase == Idle
    ensures KeptRight(c, s) && Served(c, s, q) == ResolveUncached(c.sys, s.site, q)
  {
    hide Unambiguous, SiteAsks, Interleaving, InterleavingAsks, Served, ResolveUncached, KeptFiled, KeptFresh, Trusted,
      PacksFiled;
    StartsRight(requests, c, site);
    RunKeepsInv(requests, c, Initial(site), steps, s);
    RunEndsAsking(requests, c, Initial(site), steps, s);
    TrustedServes(requests, c, s, q);
  }

  // ----- and only for unambiguous requests

  /** Between operations every answer is right, in every interleaving over sites with these references only. */
  ghost predicate AlwaysServed(tenantId: nat, refs: iset<Request>) {
    forall sys: System, site: Site, steps: seq<Step>, s: State, q: Query |
      Interleaving(Config(sys, tenantId, PackFirst), Initial(site), steps, s) && s.phase == Idle
      && InterleavingAsks(Requested(refs), Config(sys, tenantId, PackFirst), Initial(site), steps) ::
      Served(Config(sys, tenantId, PackFirst), s, q) == ResolveUncached(sys, s.site, q)
  }

  /** One reader resolves; the pack store's cache holds what that leaves. */
  lemma OneReader(requests: iset<Request>, c: Config, site: Site, q: Query) returns (s: State)
    requires SiteAsks(requests, site)
    ensures
      var steps := [Load(0, q), Compute(0)];
      && Interleaving(c, Initial(site), steps, s) && InterleavingAsks(requests, c, Initial(site), steps)
      && s.site == site && s.phase == Idle && s.kept == map[]
      && s.packs == ResolveThrough(c.sys, c.tenantId, site, q, map[]).1
  {
    hide SiteAsks, ResolveThrough, ResolverKey, EffectiveYear;
    var s1 := Apply(c, Initial(site), Load(0, q));
    assert Seen(site, site.db.settings) == site;
    s := Apply(c, s1, Compute(0));
    assert [Load(0, q), Compute(0)][1..] == [Compute(0)] && [Compute(0)][1..] == [];
    assert Interleaving(c, s, [], s) && InterleavingAsks(requests, c, s, []);
    assert Interleaving(c, s1, [Compute(0)], s) && InterleavingAsks(requests, c, s1, [Compute(0)]);
  }

  lemma ConfusedReader(h: Host, tenantId: nat, refs: iset<Request>)
    requires !Unambiguous(Requested(refs))
    ensures !AlwaysServed(tenantId, refs)
  {
    hide Unambiguous, Requested, Interleaving, InterleavingAsks, ResolveThrough, ResolveUncached, Confused, Shipping,
      SiteAsks, Blank, Asked, ResolverKey, EffectiveYear;
    var first, second := Ambiguity(Requested(refs));
    var c, site := Config(Shipping(h, first), tenantId, PackFirst), Confused(first, second);
    ConfusedThrough(h, tenantId, first, second);
    ConfusedAsks(refs, first, second);
    var s := OneReader(Requested(refs), c, site, OfCourse(0));
    assert Served(c, s, OfCourse(1)) != ResolveUncached(c.sys, s.site, OfCourse(1));
  }

  lemma AlwaysServedIff(h: Host, tenantId: nat, refs: iset<Request>)
    ensures AlwaysServed(tenantId, refs) <==> Unambiguous(Requested(refs))
  {
    hide Unambiguous, Requested, Interleaving, InterleavingAsks, Served, ResolveUncached, KeptRight;
    if Unambiguous(Requested(refs)) {
      forall sys: System, site: Site, steps: seq<Step>, s: State, q: Query |
        Interleaving(Config(sys, tenantId, PackFirst), Initial(site), steps, s) && s.phase == Idle
        && InterleavingAsks(Requested(refs), Config(sys, tenantId, PackFirst), Initial(site), steps)
        ensures Served(Config(sys, tenantId, PackFirst), s, q) == ResolveUncached(sys, s.site, q)
      {
        PackFirstIsRight(Requested(refs), Config(sys, tenantId, PackFirst), site, steps, s, q);
      }
    } else {
      ConfusedReader(h, tenantId, refs);
    }
  }
}
