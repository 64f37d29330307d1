/** Curriculum releases of one tenant and the pack store's lookups over them: exact and latest
    releases first, system packs next, the built-in fallback last. */
module PackStore {
  import opened Wrappers
  import opened Text
  import opened Registry
  import opened RegistryTheorems

  datatype Status = Draft | Published | Deprecated | Frozen | RolledBack

  predicate Eligible(s: Status) { s == Published || s == Frozen }

  datatype Release = Release(
    id: nat, key: string, version: string, status: Status, payload: Profile,
    checksum: Option<string>, importedBy: Option<nat>, metadata: map<string, string>,
    publishedAt: Option<int>, deprecatedAt: Option<int>, frozenAt: Option<int>,
    rolledBackFrom: Option<string>, updatedAt: int)

  /** The tenant's release rows in primary-key order. */
  type Releases = seq<Release>

  predicate Named(r: Release, key: string, version: string) { r.key == key && r.version == version }

  /** The unique index on key and version, and the primary key. */
  predicate Indexed(rs: Releases) {
    && (forall i, j | 0 <= i < j < |rs| :: rs[i].id < rs[j].id)
    && (forall i, j | 0 <= i < j < |rs| :: !Named(rs[i], rs[j].key, rs[j].version))
  }

  /** The row with a key and version. */
  function Find(rs: Releases, key: string, version: string): (r: Option<nat>)
    ensures r.Some? ==> r.value < |rs| && Named(rs[r.value], key, version)
    ensures r.None? ==> forall i | 0 <= i < |rs| :: !Named(rs[i], key, version)
  {
    if rs == [] then None
    else if Named(rs[|rs| - 1], key, version) then Some(|rs| - 1)
    else Find(rs[..|rs| - 1], key, version)
  }

  predicate Newer(a: Release, b: Release) {
    a.updatedAt > b.updatedAt || (a.updatedAt == b.updatedAt && a.id >= b.id)
  }

  /** The first row of `latest_first` among the eligible releases of a profile. */
  function LatestEligible(rs: Releases, key: string): (r: Option<Release>)
    ensures r.Some? ==> r.value in rs && r.value.key == key && Eligible(r.value.status)
                        && forall q | q in rs && q.key == key && Eligible(q.status) :: Newer(r.value, q)
    ensures r.None? ==> forall q | q in rs && q.key == key :: !Eligible(q.status)
  {
    if rs == [] then None else
    var last := rs[|rs| - 1];
    var best := LatestEligible(rs[..|rs| - 1], key);
    if last.key != key || !Eligible(last.status) then best
    else if best.Some? && Newer(best.value, last) then best
    else Some(last)
  }

  // ----- packs shipped with the system

  /** The loaded registry: its host, its profiles in load order and the profile built into the code. */
  datatype System = System(host: Host, profiles: seq<Profile>, minimal: Profile)

  function Nested(p: Profile, section: Section, name: string): Json {
    if Get(p, section).Obj? then Get(Get(p, section).fields, name) else Null
  }

  predicate HasKey(p: Profile, key: string) {
    Nested(p, Identity, "key") == Str(key) || Get(p, Key) == Str(key)
  }

  predicate HasVersion(p: Profile, version: string) {
    Nested(p, Versioning, "version") == Str(version) || Get(p, Version) == Str(version)
  }

  function FirstWhere(ps: seq<Profile>, f: Profile -> bool): Option<Profile> {
    if ps == [] then None else if f(ps[0]) then Some(ps[0]) else FirstWhere(ps[1..], f)
  }

  lemma {:induction false} FirstWhereIn(ps: seq<Profile>, f: Profile -> bool)
    ensures FirstWhere(ps, f).Some? ==> FirstWhere(ps, f).value in ps && f(FirstWhere(ps, f).value)
    ensures FirstWhere(ps, f).None? ==> forall p | p in ps :: !f(p)
  {
    if ps != [] && !f(ps[0]) {
      FirstWhereIn(ps[1..], f);
    }
  }

  function Matching(ps: seq<Profile>, key: string): seq<Profile> {
    if ps == [] then [] else (if HasKey(ps[0], key) then [ps[0]] else []) + Matching(ps[1..], key)
  }

  predicate IsActive(p: Profile) { Get(p, ProfileStatus) == Str("active") }

  /** Whether `a` sorts strictly above `b` by version, label and activity. */
  predicate Outranks(h: Host, a: Profile, b: Profile) {
    var av, bv := ToS(h, Nested(a, Versioning, "version")), ToS(h, Nested(b, Versioning, "version"));
    var al, bl := ToS(h, Nested(a, Identity, "label")), ToS(h, Nested(b, Identity, "label"));
    if av != bv then StringLeq(bv, av)
    else if al != bl then StringLeq(bl, al)
    else IsActive(a) && !IsActive(b)
  }

  function LatestProfile(h: Host, ps: seq<Profile>): Option<Profile> {
    if ps == [] then None else
    var best := LatestProfile(h, ps[..|ps| - 1]);
    if best.Some? && !Outranks(h, ps[|ps| - 1], best.value) then best else Some(ps[|ps| - 1])
  }

  function FindSystem(sys: System, key: string, version: Option<string>): Option<Profile> {
    if Blank(key) then None else
    var matches := Matching(sys.profiles, key);
    if Presence(version).Some? then FirstWhere(matches, p => HasVersion(p, version.value))
    else
      var active := FirstWhere(matches, IsActive);
      if active.Some? then active else LatestProfile(sys.host, matches)
  }

  function FallbackProfile(sys: System): Profile {
    var default := FindSystem(sys, DEFAULT_PROFILE_KEY, None);
    var latest := LatestProfile(sys.host, sys.profiles);
    if default.Some? then default.value else if latest.Some? then latest.value else sys.minimal
  }

  // ----- lookups

  datatype Source = TenantRelease | SystemPack | Fallback

  /** A runtime record; its capability schema and primitive inventory are computed from these. */
  datatype Record = Record(payload: Profile, source: Source, releaseId: Option<nat>, releaseStatus: Option<Status>)

  function RecordForRelease(h: Host, r: Release): Option<Record> {
    var profile := Validate(h, r.payload);
    if profile.None? then None else Some(Record(profile.value, TenantRelease, Some(r.id), Some(r.status)))
  }

  function FetchSystem(sys: System, key: string, version: Option<string>): Option<Record> {
    var profile := FindSystem(sys, key, version);
    if profile.Some? && profile.value != map[] then Some(Record(profile.value, SystemPack, None, None))
    else if key == DEFAULT_PROFILE_KEY && FallbackProfile(sys) != map[] then
      Some(Record(FallbackProfile(sys), Fallback, None, None))
    else None
  }

  datatype Request = Request(key: string, version: Option<string>)

  function FetchUncached(sys: System, rs: Releases, req: Request): Option<Record> {
    var version := Presence(req.version);
    if version.Some? then
      var exact := Find(rs, req.key, version.value);
      if exact.None? then FetchSystem(sys, req.key, version)
      else if !Eligible(rs[exact.value].status) then None
      else RecordForRelease(sys.host, rs[exact.value])
    else
      var latest := LatestEligible(rs, req.key);
      if latest.Some? then RecordForRelease(sys.host, latest.value)
      else FetchSystem(sys, req.key, None)
  }

  /** What resolution reads off a pack store's answer. */
  function Answer(found: Option<Record>): Option<(Profile, Source, Option<nat>)> {
    if found.None? || found.value.payload == map[] then None
    else Some((found.value.payload, found.value.source, found.value.releaseId))
  }

  // ----- cache keys

  function VersionLabel(version: Option<string>): string {
    if Presence(version).Some? then version.value else "latest"
  }

  /** Five parts joined with colons. */
  function JoinKey(namespace: string, tenantId: nat, kind: string, middle: string, bust: nat): string {
    namespace + Digits(tenantId) + [':'] + kind + middle + [':'] + Digits(bust)
  }

  function PackKey(tenantId: nat, req: Request, bust: nat): string {
    JoinKey("curriculum_pack_store_v1:", tenantId, "pack:", req.key + ":" + VersionLabel(req.version), bust)
  }

  lemma NoColonInDigits(n: nat)
    ensures ':' !in Digits(n)
  {
    assert !IsDigit(':');
  }

  lemma JoinKeyInjective(ns: string, t: nat, kind: string, middle: string, b: nat, t': nat, middle': string, b': nat)
    requires JoinKey(ns, t, kind, middle, b) == JoinKey(ns, t', kind, middle', b')
    ensures t == t' && middle == middle' && b == b'
  {
    var left, left' := ns + Digits(t) + [':'] + kind + middle, ns + Digits(t') + [':'] + kind + middle';
    NoColonInDigits(b);
    NoColonInDigits(b');
    SplitAtLast(left, Digits(b), left', Digits(b'), ':');
    assert left[|ns|..] == Digits(t) + [':'] + (kind + middle);
    assert left'[|ns|..] == Digits(t') + [':'] + (kind + middle');
    NoColonInDigits(t);
    NoColonInDigits(t');
    SplitAtFirst(Digits(t), kind + middle, Digits(t'), kind + middle', ':');
    assert middle == (kind + middle)[|kind|..] && middle' == (kind + middle')[|kind|..];
    ReadDigitsOfDigits(t);
    ReadDigitsOfDigits(t');
    ReadDigitsOfDigits(b);
    ReadDigitsOfDigits(b');
  }

  /** Joining the parts with colons loses nothing but the boundary between key and version. */
  lemma PackKeyCollisions(t: nat, r: Request, b: nat, t': nat, r': Request, b': nat)
    ensures PackKey(t, r, b) == PackKey(t', r', b')
       <==> t == t' && b == b'
            && r.key + ":" + VersionLabel(r.version) == r'.key + ":" + VersionLabel(r'.version)
  {
    if PackKey(t, r, b) == PackKey(t', r', b') {
      JoinKeyInjective("curriculum_pack_store_v1:", t, "pack:", r.key + ":" + VersionLabel(r.version), b,
        t', r'.key + ":" + VersionLabel(r'.version), b');
    }
  }

  /** A request no other plain request shares its cache key with: no colon in its key, and no
      version spelled like the label of a missing one. */
  predicate Plain(req: Request) { ':' !in req.key && Presence(req.version) != Some("latest") }

  lemma PlainKeysDistinct(t: nat, r: Request, b: nat, t': nat, r': Request, b': nat)
    requires Plain(r) && Plain(r')
    requires PackKey(t, r, b) == PackKey(t', r', b')
    ensures t == t' && b == b' && r.key == r'.key && Presence(r.version) == Presence(r'.version)
  {
    PackKeyCollisions(t, r, b, t', r', b');
    assert r.key + ":" + VersionLabel(r.version) == r.key + [':'] + VersionLabel(r.version);
    assert r'.key + ":" + VersionLabel(r'.version) == r'.key + [':'] + VersionLabel(r'.version);
    SplitAtFirst(r.key, VersionLabel(r.version), r'.key, VersionLabel(r'.version), ':');
  }

  lemma SameAnswer(sys: System, rs: Releases, r: Request, r': Request)
    requires r.key == r'.key && Presence(r.version) == Presence(r'.version)
    ensures FetchUncached(sys, rs, r) == FetchUncached(sys, rs, r')
  {
  }

  // ----- the cache

  /** A cache entry with its history: the request it was computed for and the counter it was filed under. */
  datatype Entry = Entry(value: Option<Record>, request: Request, bust: nat)

  type Cache = map<string, Entry>

  /** Every entry filed under the current counter holds what an uncached lookup gives now. */
  predicate Fresh(sys: System, tenantId: nat, rs: Releases, bust: nat, cache: Cache) {
    forall s | s in cache ::
      && s == PackKey(tenantId, cache[s].request, cache[s].bust) && cache[s].bust <= bust
      && (cache[s].bust == bust ==> cache[s].value == FetchUncached(sys, rs, cache[s].request))
  }

  predicate PlainCache(cache: Cache) { forall s | s in cache :: Plain(cache[s].request) }

  /** `fetch` for an up-to-date tenant: the answer and the cache afterwards. */
  function Fetch(sys: System, tenantId: nat, rs: Releases, bust: nat, cache: Cache,
    req: Request): (Option<Record>, Cache) {
    if Blank(req.key) then (None, cache) else
    var s := PackKey(tenantId, req, bust);
    if s in cache then (cache[s].value, cache) else
    var value := FetchUncached(sys, rs, req);
    (value, cache[s := Entry(value, req, bust)])
  }

  /** The pack store's cache as the object that `fetch` and eviction change. */
  class PackCache {
    const sys: System
    const tenantId: nat
    var entries: Cache

    constructor (sys: System, tenantId: nat)
      ensures this.sys == sys && this.tenantId == tenantId && entries == map[]
    {
      this.sys := sys;
      this.tenantId := tenantId;
      entries := map[];
    }

    method FetchPack(rs: Releases, bust: nat, req: Request) returns (answer: Option<Record>)
      modifies this`entries
      ensures (answer, entries) == Fetch(sys, tenantId, rs, bust, old(entries), req)
      ensures old(Fresh(sys, tenantId, rs, bust, entries)) ==> Fresh(sys, tenantId, rs, bust, entries)
      ensures old(Fresh(sys, tenantId, rs, bust, entries)) && old(PlainCache(entries)) && Plain(req) ==>
                PlainCache(entries) && (!Blank(req.key) ==> answer == FetchUncached(sys, rs, req))
    {
      FetchFresh(sys, tenantId, rs, bust, entries, req);
      if Blank(req.key) {
        return None;
      }
      var s := PackKey(tenantId, req, bust);
      if s in entries {
        answer := entries[s].value;
      } else {
        answer := FetchUncached(sys, rs, req);
        entries := entries[s := Entry(answer, req, bust)];
      }
    }

    method Evict(s: string)
      modifies this`entries
      ensures entries == old(entries) - {s}
    {
      entries := entries - {s};
    }
  }

  /** A fetch keeps the cache fresh; its answer is an uncached one for a request with the same
      cache key, hence for the request itself when nothing but plain requests were ever made. */
  lemma FetchFresh(sys: System, tenantId: nat, rs: Releases, bust: nat, cache: Cache, req: Request)
    ensures
      var (answer, after) := Fetch(sys, tenantId, rs, bust, cache, req);
      Fresh(sys, tenantId, rs, bust, cache) ==>
        && Fresh(sys, tenantId, rs, bust, after)
        && (!Blank(req.key) ==> exists r: Request ::
             PackKey(tenantId, r, bust) == PackKey(tenantId, req, bust) && answer == FetchUncached(sys, rs, r))
        && (PlainCache(cache) && Plain(req) ==>
             PlainCache(after) && (!Blank(req.key) ==> answer == FetchUncached(sys, rs, req)))
  {
    if Fresh(sys, tenantId, rs, bust, cache) && !Blank(req.key) {
      hide FetchUncached, Blank, PackKey;
      var s := PackKey(tenantId, req, bust);
      if s in cache {
        var e := cache[s];
        PackKeyCollisions(tenantId, e.request, e.bust, tenantId, req, bust);
        if Plain(e.request) && Plain(req) {
          PlainKeysDistinct(tenantId, e.request, e.bust, tenantId, req, bust);
          SameAnswer(sys, rs, e.request, req);
        }
      }
    }
  }

  /** Plainness matters: asking for the version called "latest" and asking for no version share a
      cache entry, although with only a release of that name in draft their answers differ. */
  lemma LatestLabelCollides(sys: System, tenantId: nat, bust: nat, pack: Profile, draft: Release)
    requires sys.profiles == [pack] && pack != map[] && HasKey(pack, "k") && IsActive(pack)
    requires Named(draft, "k", "latest") && draft.status == Draft
    ensures
      var rs := [draft];
      var any, named := Request("k", None), Request("k", Some("latest"));
      var (first, cache) := Fetch(sys, tenantId, rs, bust, map[], any);
      && first == FetchUncached(sys, rs, any) == Some(Record(pack, SystemPack, None, None))
      && FetchUncached(sys, rs, named) == None
      && Fetch(sys, tenantId, rs, bust, cache, named).0 == first
  {
    SamePackKey(tenantId, bust);
    NamedLatest(sys, draft);
    NoneNamed(sys, pack, draft);
    hide PackKey, FetchUncached, Blank;
    assert !Blank("k") by { LetterNotBlank(); }
  }

  lemma LetterNotBlank()
    ensures !Blank("k") && !Blank("latest")
  {
    assert "latest"[0] == 'l' && !IsSpace('l') && "k"[0] == 'k' && !IsSpace('k');
  }

  lemma SamePackKey(tenantId: nat, bust: nat)
    ensures PackKey(tenantId, Request("k", None), bust) == PackKey(tenantId, Request("k", Some("latest")), bust)
  {
    LetterNotBlank();
    hide Blank, JoinKey;
  }

  lemma NamedLatest(sys: System, draft: Release)
    requires Named(draft, "k", "latest") && draft.status == Draft
    ensures FetchUncached(sys, [draft], Request("k", Some("latest"))) == None
  {
    LetterNotBlank();
    hide Blank, FetchSystem, RecordForRelease;
    assert Find([draft], "k", "latest") == Some(0);
  }

  lemma NoneNamed(sys: System, pack: Profile, draft: Release)
    requires sys.profiles == [pack] && pack != map[] && HasKey(pack, "k") && IsActive(pack) && draft.status == Draft
    ensures FetchUncached(sys, [draft], Request("k", None)) == Some(Record(pack, SystemPack, None, None))
  {
    LetterNotBlank();
    hide Blank, HasKey, IsActive, LatestProfile, FallbackProfile;
    assert LatestEligible([draft], "k").None?;
    assert [pack][1..] == [] && Matching([pack], "k") == [pack];
    assert FindSystem(sys, "k", None) == Some(pack);
  }
}
