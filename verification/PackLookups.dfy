/** Which pack a lookup finds: among the tenant's releases, the packs shipped with the system and the fallback. */
module PackLookups {
  import opened Wrappers
  import opened Text
  import opened Registry
  import opened RegistryTheorems
  import opened PackStore

  // ----- packs shipped with the system

  /** A pack goes by a key, or by a version, in its own section or at its top. */
  predicate GoesBy(p: Profile, key: string) {
    || (Get(p, Identity).Obj? && Get(Get(p, Identity).fields, "key") == Str(key))
    || Get(p, Key) == Str(key)
  }

  predicate OfVersion(p: Profile, version: string) {
    || (Get(p, Versioning).Obj? && Get(Get(p, Versioning).fields, "version") == Str(version))
    || Get(p, Version) == Str(version)
  }

  /** The first pack, in load order, that meets a condition. */
  predicate FirstPack(ps: seq<Profile>, meets: Profile -> bool, found: Option<Profile>) {
    if found.None? then forall p | p in ps :: !meets(p)
    else exists i :: 0 <= i < |ps| && ps[i] == found.value && meets(ps[i]) && forall j | 0 <= j < i :: !meets(ps[j])
  }

  lemma {:induction false} FirstMatching(ps: seq<Profile>, key: string, f: Profile -> bool)
    ensures FirstPack(ps, p => GoesBy(p, key) && f(p), FirstWhere(Matching(ps, key), f))
  {
    var meets := (p: Profile) => GoesBy(p, key) && f(p);
    if ps != [] {
      var rest := ps[1..];
      FirstMatching(rest, key, f);
      assert HasKey(ps[0], key) <==> GoesBy(ps[0], key);
      hide HasKey, GoesBy;
      var found := FirstWhere(Matching(ps, key), f);
      MatchingStep(ps, key, f);
      if !meets(ps[0]) && found.Some? {
        var i :|
          && 0 <= i < |rest| && rest[i] == found.value && meets(rest[i])
          && forall j | 0 <= j < i :: !meets(rest[j]);
        assert ps[i + 1] == rest[i] && forall j | 0 <= j < i + 1 :: j == 0 || ps[j] == rest[j - 1];
      }
    }
  }

  lemma MatchingStep(ps: seq<Profile>, key: string, f: Profile -> bool)
    requires ps != []
    ensures
      FirstWhere(Matching(ps, key), f)
      == if HasKey(ps[0], key) && f(ps[0]) then Some(ps[0]) else FirstWhere(Matching(ps[1..], key), f)
  {
    hide HasKey;
    if HasKey(ps[0], key) {
      assert ([ps[0]] + Matching(ps[1..], key))[1..] == Matching(ps[1..], key);
    } else {
      assert [] + Matching(ps[1..], key) == Matching(ps[1..], key);
    }
  }

  /** Naming a version finds the first pack of that key and version. */
  lemma VersionedPack(sys: System, key: string, version: string)
    requires !Blank(key) && !Blank(version)
    ensures FirstPack(sys.profiles, p => GoesBy(p, key) && OfVersion(p, version), FindSystem(sys, key, Some(version)))
  {
    var f := (p: Profile) => HasVersion(p, version);
    FirstMatching(sys.profiles, key, f);
    assert forall p :: HasVersion(p, version) <==> OfVersion(p, version);
    hide HasVersion, OfVersion, GoesBy, Blank, Matching;
  }

  predicate Active(p: Profile) { Get(p, ProfileStatus) == Str("active") }

  /** By version, then label, then being active. */
  predicate Above(h: Host, a: Profile, b: Profile) {
    var av, bv := ToS(h, Nested(a, Versioning, "version")), ToS(h, Nested(b, Versioning, "version"));
    var al, bl := ToS(h, Nested(a, Identity, "label")), ToS(h, Nested(b, Identity, "label"));
    || (av != bv && StringLeq(bv, av))
    || (av == bv && al != bl && StringLeq(bl, al))
    || (av == bv && al == bl && Active(a) && !Active(b))
  }

  /** The first of the packs that none is above. */
  ghost predicate TopPack(h: Host, ps: seq<Profile>, found: Option<Profile>) {
    if found.None? then ps == [] else exists i :: TopAt(h, ps, i) && ps[i] == found.value
  }

  lemma AboveOrdered(h: Host, a: Profile, b: Profile, c: Profile)
    ensures !Above(h, a, a) && (Above(h, a, b) <==> Outranks(h, a, b))
    ensures Above(h, a, b) && !Above(h, c, b) ==> Above(h, a, c)
    ensures Above(h, a, b) && Above(h, c, a) ==> Above(h, c, b)
  {
    var av, bv, cv := ToS(h, Nested(a, Versioning, "version")), ToS(h, Nested(b, Versioning, "version")),
        ToS(h, Nested(c, Versioning, "version"));
    var al, bl, cl := ToS(h, Nested(a, Identity, "label")), ToS(h, Nested(b, Identity, "label")),
        ToS(h, Nested(c, Identity, "label"));
    StringOrder(av, bv, cv);
    StringOrder(al, bl, cl);
    StringOrder(cv, av, bv);
    StringOrder(cl, al, bl);
    hide ToS, Nested, StringLeq;
  }

  lemma StringOrder(a: string, b: string, c: string)
    ensures a != b ==> (StringLeq(a, b) <==> !StringLeq(b, a))
    ensures a != c ==> (StringLeq(a, c) <==> !StringLeq(c, a))
    ensures b != c ==> (StringLeq(b, c) <==> !StringLeq(c, b))
    ensures StringLeq(b, a) && StringLeq(c, b) ==> StringLeq(c, a)
    ensures StringLeq(b, a) && StringLeq(a, c) ==> StringLeq(b, c)
    ensures StringLeq(a, c) && StringLeq(c, b) ==> StringLeq(a, b)
  {
    StringLeqTotal(a, b);
    StringLeqTotal(a, c);
    StringLeqTotal(b, c);
    if StringLeq(a, b) && StringLeq(b, a) { StringLeqAntisymmetric(a, b); }
    if StringLeq(a, c) && StringLeq(c, a) { StringLeqAntisymmetric(a, c); }
    if StringLeq(b, c) && StringLeq(c, b) { StringLeqAntisymmetric(b, c); }
    if StringLeq(b, a) && StringLeq(c, b) { StringLeqTransitive(c, b, a); }
    if StringLeq(b, a) && StringLeq(a, c) { StringLeqTransitive(b, a, c); }
    if StringLeq(a, c) && StringLeq(c, b) { StringLeqTransitive(a, c, b); }
  }

  ghost predicate TopAt(h: Host, ps: seq<Profile>, i: int) {
    && 0 <= i < |ps|
    && (forall j | 0 <= j < |ps| :: !Above(h, ps[j], ps[i]))
    && (forall j | 0 <= j < i :: Above(h, ps[i], ps[j]))
  }

  /** One more pack is on top iff it is above the one that was. */
  lemma OneMorePack(h: Host, init: seq<Profile>, last: Profile, i: nat)
    requires TopAt(h, init, i)
    ensures TopAt(h, init + [last], if Above(h, last, init[i]) then |init| else i)
  {
    hide Above;
    var ps, best := init + [last], init[i];
    AboveOrdered(h, last, best, last);
    forall j | 0 <= j < |init|
      ensures Above(h, last, best) ==> Above(h, last, ps[j]) && !Above(h, ps[j], last)
    {
      assert init[j] == ps[j];
      AboveOrdered(h, last, best, init[j]);
    }
    assert ps[i] == best && ps[|init|] == last;
  }

  lemma {:induction false} LatestAt(h: Host, ps: seq<Profile>) returns (i: int)
    ensures if ps == [] then LatestProfile(h, ps).None? else TopAt(h, ps, i) && LatestProfile(h, ps) == Some(ps[i])
  {
    if ps == [] {
      i := 0;
    } else {
      hide TopAt, Above, Outranks;
      var n := |ps| - 1;
      assert ps[..n] + [ps[n]] == ps;
      if n == 0 {
        i := 0;
        OnlyPack(h, ps[0]);
        assert ps == [ps[0]] && ps[..0] == [];
      } else {
        var k := LatestAt(h, ps[..n]);
        TopInRange(h, ps[..n], k);
        OneMorePack(h, ps[..n], ps[n], k);
        AboveOrdered(h, ps[n], ps[k], ps[n]);
        i := if Above(h, ps[n], ps[k]) then n else k;
      }
    }
  }

  lemma TopInRange(h: Host, ps: seq<Profile>, i: int)
    requires TopAt(h, ps, i)
    ensures 0 <= i < |ps|
  {
  }

  lemma OnlyPack(h: Host, p: Profile)
    ensures TopAt(h, [p], 0)
  {
    AboveOrdered(h, p, p, p);
    hide Above;
  }

  lemma LatestIsTop(h: Host, ps: seq<Profile>)
    ensures TopPack(h, ps, LatestProfile(h, ps))
  {
    var i := LatestAt(h, ps);
    hide LatestProfile, Above;
  }

  lemma {:induction false} MatchingListed(ps: seq<Profile>, qs: seq<Profile>, p: Profile, key: string)
    ensures Matching([p], key) == if GoesBy(p, key) then [p] else []
    ensures Matching(ps + qs, key) == Matching(ps, key) + Matching(qs, key)
  {
    assert [p][1..] == [] && (HasKey(p, key) <==> GoesBy(p, key));
    hide HasKey, GoesBy;
    if ps == [] {
      assert ps + qs == qs;
    } else {
      MatchingListed(ps[1..], qs, p, key);
      assert (ps + qs)[1..] == ps[1..] + qs;
    }
  }

  /** Naming no version finds the first active pack of the key, else the top one of them; a blank key finds none. */
  lemma UnversionedPack(sys: System, key: string, version: Option<string>)
    requires Presence(version).None?
    ensures Blank(key) ==> FindSystem(sys, key, version) == None
    ensures !Blank(key) ==>
      var ps := sys.profiles;
      if exists p :: p in ps && GoesBy(p, key) && Active(p) then
        FirstPack(ps, p => GoesBy(p, key) && Active(p), FindSystem(sys, key, version))
      else TopPack(sys.host, Matching(ps, key), FindSystem(sys, key, version))
  {
    FirstMatching(sys.profiles, key, IsActive);
    LatestIsTop(sys.host, Matching(sys.profiles, key));
    assert forall p :: IsActive(p) <==> Active(p);
    hide IsActive, Active, GoesBy, Matching, LatestProfile, Above;
  }

  /** The profile of last resort: the default pack, else the top one of all, else the one built in. */
  lemma LastResort(sys: System)
    ensures
      var default := FindSystem(sys, "american_common_core_v1", None);
      if default.Some? then FallbackProfile(sys) == default.value
      else if sys.profiles != [] then TopPack(sys.host, sys.profiles, Some(FallbackProfile(sys)))
      else FallbackProfile(sys) == sys.minimal
  {
    LatestIsTop(sys.host, sys.profiles);
    hide FindSystem, Outranks, Above;
  }

  // ----- lookups

  /** A system pack, or for the default key the profile of last resort; an empty one does not count. */
  predicate SystemAnswer(sys: System, key: string, version: Option<string>, found: Option<Record>) {
    var pack := FindSystem(sys, key, version);
    if pack.Some? && pack.value != map[] then found == Some(Record(pack.value, SystemPack, None, None))
    else if key == "american_common_core_v1" && FallbackProfile(sys) != map[] then
      found == Some(Record(FallbackProfile(sys), Fallback, None, None))
    else found == None
  }

  /** A release answers with its payload, validated again, and nothing when that fails. */
  predicate ReleaseAnswer(h: Host, r: Release, found: Option<Record>) {
    if Validate(h, r.payload).None? then found == None
    else found == Some(Record(Validate(h, r.payload).value, TenantRelease, Some(r.id), Some(r.status)))
  }

  /** Naming a version finds the tenant's release of it if it is published or frozen, nothing if it is in another
      state, and a system pack only when the tenant has none. */
  lemma NamedLookup(sys: System, rs: Releases, key: string, version: string)
    requires Indexed(rs) && !Blank(version)
    ensures
      var found := FetchUncached(sys, rs, Request(key, Some(version)));
      && (forall i | 0 <= i < |rs| && rs[i].key == key && rs[i].version == version ::
            if rs[i].status == Published || rs[i].status == Frozen then ReleaseAnswer(sys.host, rs[i], found)
            else found == None)
      && ((forall i | 0 <= i < |rs| :: !(rs[i].key == key && rs[i].version == version)) ==>
            SystemAnswer(sys, key, Some(version), found))
  {
    hide Validate, FindSystem, FallbackProfile, Blank;
    var at := Find(rs, key, version);
    forall i | 0 <= i < |rs| && Named(rs[i], key, version)
      ensures at == Some(i)
    {
      var k := at.value;
      assert i == k || i < k || k < i;
    }
  }

  /** Naming none finds the published or frozen release changed last, the highest id first among several, and a system
      pack only when there is none. */
  lemma UnnamedLookup(sys: System, rs: Releases, key: string, version: Option<string>)
    requires Indexed(rs) && Presence(version).None?
    ensures
      var found := FetchUncached(sys, rs, Request(key, version));
      var eligible := (r: Release) => r.key == key && (r.status == Published || r.status == Frozen);
      && (forall r | r in rs && eligible(r)
            && (forall q | q in rs && eligible(q) ::
                  r.updatedAt > q.updatedAt || (r.updatedAt == q.updatedAt && r.id >= q.id)) ::
            ReleaseAnswer(sys.host, r, found))
      && ((forall r | r in rs :: !eligible(r)) ==> SystemAnswer(sys, key, None, found))
  {
    hide Validate, FindSystem, FallbackProfile, Blank;
    var latest := LatestEligible(rs, key);
    forall r | r in rs && latest.Some? && r.id == latest.value.id
      ensures r == latest.value
    {
      OneRowPerId(rs, r, latest.value);
    }
  }

  lemma OneRowPerId(rs: Releases, a: Release, b: Release)
    requires Indexed(rs) && a in rs && b in rs && a.id == b.id
    ensures a == b
  {
    var i :| 0 <= i < |rs| && rs[i] == a;
    var j :| 0 <= j < |rs| && rs[j] == b;
    assert i == j;
  }

  /** Through the cache, a blank key finds nothing and leaves the cache alone; any other is answered by the entry under
      its key and the counter, else by the rows, and that answer is entered. */
  lemma CachedLookup(sys: System, tenantId: nat, rs: Releases, bust: nat, cache: Cache, req: Request)
    ensures
      var s := "curriculum_pack_store_v1:" + Digits(tenantId) + ":pack:" + req.key + ":"
        + (if req.version.Some? && !Blank(req.version.value) then req.version.value else "latest") + ":" + Digits(bust);
      Fetch(sys, tenantId, rs, bust, cache, req)
      == if Blank(req.key) then (None, cache)
         else if s in cache then (cache[s].value, cache)
         else (FetchUncached(sys, rs, req), cache[s := Entry(FetchUncached(sys, rs, req), req, bust)])
  {
    KeySpelled(tenantId, req, bust);
    hide FetchUncached, Blank, PackKey;
  }

  lemma KeySpelled(tenantId: nat, req: Request, bust: nat)
    ensures
      PackKey(tenantId, req, bust)
      == "curriculum_pack_store_v1:" + Digits(tenantId) + ":pack:" + req.key + ":"
         + (if req.version.Some? && !Blank(req.version.value) then req.version.value else "latest") + ":" + Digits(bust)
  {
    hide Blank, Digits;
    var named := if req.version.Some? && !Blank(req.version.value) then req.version.value else "latest";
    assert VersionLabel(req.version) == named;
    assert ("pack:" + (req.key + ":" + named)) == "pack:" + req.key + ":" + named;
  }
}
