/** Which records of a OneRoster feed fail, and what a failed one leaves behind: with distinct ids, a
    feed is carried exactly when none of its records failed. */
module OneRosterFailures {
  import opened Wrappers
  import opened Text
  import opened OneRoster
  import opened OneRosterSync

  // ----- mapping tables that only syncs wrote

  predicate Paired(m: Mapping) {
    match m.externalType
    case OrgFeed => m.localType == SchoolRow
    case SessionFeed => m.localType == YearRow || m.localType == TermRow
    case UserFeed => m.localType == UserRow
    case ClassFeed => m.localType == SectionRow
    case EnrollmentFeed => m.localType == EnrollmentRow
  }

  /** Every mapping joins kinds that go together and names a row id already given out. */
  predicate Native(db: Db) { forall m | m in db.mappings :: Paired(m) && m.localId < db.nextId }

  lemma MapKeepsNative(h: Host, db: Db, saved: Db, local: LocalType, id: nat, kind: ExternalType, external: string)
    requires Native(db) && saved.mappings == db.mappings && db.nextId <= saved.nextId && id < saved.nextId
    requires Paired(Mapping(h.config, local, id, kind, external))
    ensures Native(Map(h, saved, local, id, kind, external).db)
  {
    hide Acceptable, Paired;
  }

  lemma MappedBelow(h: Host, db: Db, kind: ExternalType, external: string)
    requires Native(db)
    ensures
      var id := LocalIdOf(db.mappings, h.config, kind, external);
      id.Some? ==> id.value < db.nextId
  {
    hide Paired;
    var i := FindExternal(db.mappings, h.config, kind, external);
    assert i.Some? ==> db.mappings[i.value] in db.mappings;
  }

  lemma RecordKeepsNative(h: Host, db: Db, r: Record)
    requires Wf(db) && Native(db)
    ensures Native(Body(h, db, r).db)
  {
    hide Wf, Native, SyncOrg, SyncYear, SyncTerm, SyncUser, SyncClass, SyncEnrollment;
    match r
    case OfOrg(e) =>
      OrgKeepsNative(h, db, e);
    case OfSession(e) =>
      YearKeepsNative(h, db, e);
      TermKeepsNative(h, db, e);
    case OfUser(e) =>
      UserKeepsNative(h, db, e);
    case OfClass(e) =>
      ClassKeepsNative(h, db, e);
    case OfEnrollment(e) =>
      EnrollmentKeepsNative(h, db, e);
  }

  lemma OrgKeepsNative(h: Host, db: Db, e: OrgEntry)
    requires Native(db)
    ensures Native(SyncOrg(h, db, e).db)
  {
    MappedBelow(h, db, OrgFeed, e.sourcedId);
    hide Native, Map, LocalIdOf, OrElse;
    var mapped := LocalIdOf(db.mappings, h.config, OrgFeed, e.sourcedId);
    var isNew := mapped.None? || mapped.value !in db.schools;
    var id := if isNew then db.nextId else mapped.value;
    var saved := db.(schools := db.schools[id := SchoolOf(e)], nextId := if isNew then db.nextId + 1 else db.nextId);
    MapKeepsNative(h, db, saved, SchoolRow, id, OrgFeed, e.sourcedId);
  }

  lemma YearKeepsNative(h: Host, db: Db, e: SessionEntry)
    requires Native(db)
    ensures Native(SyncYear(h, db, e).db)
  {
    MappedBelow(h, db, SessionFeed, e.sourcedId);
    hide Native, Map, LocalIdOf, OrElse, Dates;
    var mapped := LocalIdOf(db.mappings, h.config, SessionFeed, e.sourcedId);
    var isNew := mapped.None? || mapped.value !in db.years;
    var id := if isNew then db.nextId else mapped.value;
    var saved := db.(years := db.years[id := YearOf(h, e)], nextId := if isNew then db.nextId + 1 else db.nextId);
    MapKeepsNative(h, db, saved, YearRow, id, SessionFeed, e.sourcedId);
  }

  lemma TermKeepsNative(h: Host, db: Db, e: SessionEntry)
    requires Native(db)
    ensures Native(SyncTerm(h, db, e).db)
  {
    MappedBelow(h, db, SessionFeed, e.sourcedId);
    hide Native, Map, LocalIdOf, SyncTerm, Blank;
    var id, row, saved := TermSaved(h, db, e);
    MapKeepsNative(h, db, saved, TermRow, id, SessionFeed, e.sourcedId);
  }

  lemma UserKeepsNative(h: Host, db: Db, e: UserEntry)
    requires Wf(db) && Native(db)
    ensures Native(SyncUser(h, db, e).db)
  {
    hide Native, Map;
    if UserSaves(h, db, e) {
      var id, row, saved := UserAttempt(h, db, e);
      MapKeepsNative(h, db, saved, UserRow, id, UserFeed, e.sourcedId);
    }
  }

  lemma ClassKeepsNative(h: Host, db: Db, e: ClassEntry)
    requires Native(db)
    ensures Native(SyncClass(h, db, e).db)
  {
    MappedBelow(h, db, ClassFeed, e.sourcedId);
    hide Native, Map, LocalIdOf, OrElse, ResolveTerm, ResolveCourse;
    var (db1, term) := ResolveTerm(h, db, e);
    var (db2, course) := ResolveCourse(h, db1, e, db1.terms[term].year);
    TermResolved(h, db, e);
    CourseResolved(h, db1, e, db1.terms[term].year);
    CourseIds(h, db1, e, db1.terms[term].year);
    var mapped := LocalIdOf(db2.mappings, h.config, ClassFeed, e.sourcedId);
    var isNew := mapped.None? || mapped.value !in db2.sections;
    var id := if isNew then db2.nextId else mapped.value;
    var row := Section(course, term, OrElse(e.title, OrElse(e.classCode, "Imported Section")));
    var saved := db2.(sections := db2.sections[id := row], nextId := if isNew then db2.nextId + 1 else db2.nextId);
    MapKeepsNative(h, db, saved, SectionRow, id, ClassFeed, e.sourcedId);
  }

  lemma CourseIds(h: Host, db: Db, e: ClassEntry, year: nat)
    ensures db.nextId <= ResolveCourse(h, db, e, year).0.nextId
  {
    hide ResolveSchool, OrElse, Least;
  }

  lemma EnrollmentKeepsNative(h: Host, db: Db, e: EnrollmentEntry)
    requires Wf(db) && Native(db)
    ensures Native(SyncEnrollment(h, db, e).db)
  {
    hide Native, Map;
    if Resolved(h, db, e) {
      var id, row, saved := EnrollmentAttempt(h, db, e);
      MapKeepsNative(h, db, saved, EnrollmentRow, id, EnrollmentFeed, e.sourcedId);
    }
  }

  /** Throughout any sequence of org and user syncs the mapping table stays one that only syncs wrote. */
  lemma {:induction false} SyncKeepsNative(h: Host, s: State, rs: seq<Record>)
    requires Wf(s.db) && Native(s.db)
    ensures Native(Sync(h, s, rs).db)
  {
    if rs != [] {
      hide Wf, Native, Body;
      SyncKeepsWf(h, s, rs[..|rs| - 1]);
      SyncKeepsNative(h, s, rs[..|rs| - 1]);
      RecordKeepsNative(h, Sync(h, s, rs[..|rs| - 1]).db, rs[|rs| - 1]);
    }
  }

  // ----- the mappings of other ids

  function MappingOf(h: Host, db: Db, kind: ExternalType, external: string): Option<Mapping> {
    var i := FindExternal(db.mappings, h.config, kind, external);
    if i.None? then None else Some(db.mappings[i.value])
  }

  lemma UpsertOthers(ms: seq<Mapping>, m: Mapping, kind: ExternalType, external: string)
    requires Injective(ms) && Upsert(ms, m).Some? && (kind != m.externalType || external != m.externalId)
    ensures
      var after := Upsert(ms, m).value;
      var i, j := FindExternal(ms, m.config, kind, external), FindExternal(after, m.config, kind, external);
      i.None? <==> j.None?
    ensures
      var after := Upsert(ms, m).value;
      var i, j := FindExternal(ms, m.config, kind, external), FindExternal(after, m.config, kind, external);
      i.Some? && j.Some? ==> ms[i.value] == after[j.value]
  {
    UpsertKeepsInjective(ms, m);
    hide Injective, Acceptable;
    var after := Upsert(ms, m).value;
    var i, j := FindExternal(ms, m.config, kind, external), FindExternal(after, m.config, kind, external);
    assert LocalIdOf(after, m.config, kind, external) == LocalIdOf(ms, m.config, kind, external);
    if i.Some? {
      assert after[i.value] == ms[i.value];
      OneRowPerExternal(after, j.value, i.value);
    }
  }

  lemma MapOthers(h: Host, db: Db, local: LocalType, id: nat, kind: ExternalType, external: string,
    kind': ExternalType, external': string)
    requires Injective(db.mappings) && (kind' != kind || external' != external)
    ensures MappingOf(h, Map(h, db, local, id, kind, external).db, kind', external')
        == MappingOf(h, db, kind', external')
  {
    hide Injective, Upsert;
    if Map(h, db, local, id, kind, external).ok {
      UpsertOthers(db.mappings, Mapping(h.config, local, id, kind, external), kind', external');
    }
  }

  lemma OneRowPerLocal(ms: seq<Mapping>, i: nat, j: nat)
    requires Injective(ms) && i < |ms| && j < |ms| && SameLocal(ms[i], ms[j])
    ensures i == j
  {
  }

  /** A row id claimed by the mapping of another feed entry. */
  predicate Claimed(h: Host, db: Db, local: LocalType, id: nat, kind: ExternalType, external: string) {
    exists m | m in db.mappings ::
      m.config == h.config && m.localType == local && m.localId == id
      && !(m.externalType == kind && m.externalId == external)
  }

  /** A mapping is refused iff its external id is blank or its row claimed. */
  lemma MapFailsIff(h: Host, db: Db, local: LocalType, id: nat, kind: ExternalType, external: string)
    requires Injective(db.mappings)
    ensures !Map(h, db, local, id, kind, external).ok <==> Blank(external) || Claimed(h, db, local, id, kind, external)
    ensures !Map(h, db, local, id, kind, external).ok ==> Map(h, db, local, id, kind, external).db == db
  {
    hide Blank;
    var ms, m := db.mappings, Mapping(h.config, local, id, kind, external);
    var found := FindExternal(ms, h.config, kind, external);
    var at := if found.Some? then found.value else |ms|;
    forall k | 0 <= k < |ms|
      ensures k == at <==> SameExternal(ms[k], m)
    {
      if SameExternal(ms[k], m) && found.Some? { OneRowPerExternal(ms, k, at); }
    }
    if Claimed(h, db, local, id, kind, external) {
      var other :| other in ms && other.config == h.config && other.localType == local && other.localId == id
        && !(other.externalType == kind && other.externalId == external);
      var k :| 0 <= k < |ms| && ms[k] == other;
      assert k != at && SameLocal(ms[k], m);
    } else {
      forall k | 0 <= k < |ms| && k != at ensures !SameLocal(ms[k], m) { assert ms[k] in ms; }
    }
  }

  // ----- users

  /** The record gets as far as saving a row. */
  predicate UserSaves(h: Host, db: Db, e: UserEntry) {
    var email := Presence(e.email);
    email.Some?
    && var existing := ExistingUser(h, db, e, email.value);
       UserValid(h, db, if existing.Some? then existing.value else db.nextId, NamedUser(db, existing, e, email.value))
  }

  /** The row it saves and where. */
  lemma UserAttempt(h: Host, db: Db, e: UserEntry) returns (id: nat, row: User, saved: Db)
    requires Wf(db) && UserSaves(h, db, e)
    ensures Presence(e.email) == Some(row.email) && h.emailOk(row.email)
    ensures saved == db.(users := db.users[id := row], nextId := saved.nextId)
    ensures db.nextId <= saved.nextId && id < saved.nextId
    ensures SyncUser(h, db, e) == Map(h, saved, UserRow, id, UserFeed, e.sourcedId)
    ensures forall k | k in db.users && k != id :: db.users[k].email != row.email
    ensures id in db.users || id == db.nextId
    ensures
      var mapped := LocalIdOf(db.mappings, h.config, UserFeed, e.sourcedId);
      if mapped.Some? && mapped.value in db.users then id == mapped.value
      else id in db.users ==> db.users[id].email == row.email
  {
    hide Map, Injective, Blank, UserRole, OrElse, LocalIdOf;
    var email := Presence(e.email).value;
    var existing := ExistingUser(h, db, e, email);
    id := if existing.Some? then existing.value else db.nextId;
    row := WithRole(h, NamedUser(db, existing, e, email), e.role);
    saved := db.(users := db.users[id := row], nextId := if existing.Some? then db.nextId else db.nextId + 1);
  }

  /** Mapped to a user of its e-mail, whatever else that row says. */
  predicate UserAttached(h: Host, db: Db, e: UserEntry) {
    var m := MappingOf(h, db, UserFeed, e.sourcedId);
    m.Some? && m.value.localType == UserRow && m.value.localId in db.users
    && Presence(e.email) == Some(db.users[m.value.localId].email) && h.emailOk(db.users[m.value.localId].email)
  }

  lemma CarriedIsAttached(h: Host, db: Db, e: UserEntry)
    ensures UserCarried(h, db, e) ==> UserAttached(h, db, e)
  {
    hide UserRole, Blank;
  }

  /** Which records fail, in terms of entry and table: no or an ill-formed e-mail, a blank id, an e-mail
      some other user has, or a user of that e-mail another entry is mapped to. */
  predicate UserRefused(h: Host, db: Db, e: UserEntry) {
    var email, mapped := Presence(e.email), LocalIdOf(db.mappings, h.config, UserFeed, e.sourcedId);
    || email.None? || !h.emailOk(email.value) || Blank(e.sourcedId)
    || exists k | k in db.users && db.users[k].email == email.value ::
         if mapped.Some? && mapped.value in db.users then k != mapped.value
         else Claimed(h, db, UserRow, k, UserFeed, e.sourcedId)
  }

  lemma UserUnsaved(h: Host, db: Db, e: UserEntry)
    requires Wf(db) && !UserSaves(h, db, e)
    ensures SyncUser(h, db, e) == Outcome(db, false)
    ensures
      var email, mapped := Presence(e.email), LocalIdOf(db.mappings, h.config, UserFeed, e.sourcedId);
      || email.None? || !h.emailOk(email.value)
      || (mapped.Some? && mapped.value in db.users
          && exists k :: k in db.users && db.users[k].email == email.value && k != mapped.value)
  {
    hide Map, Injective, UserRole, OrElse, LocalIdOf, IsSpace;
  }

  lemma UserFailsIff(h: Host, db: Db, e: UserEntry)
    requires Wf(db) && Native(db)
    ensures !SyncUser(h, db, e).ok <==> UserRefused(h, db, e)
  {
    hide Map, Blank, Wf, Paired, Injective;
    if UserSaves(h, db, e) {
      var id, row, saved := UserAttempt(h, db, e);
      assert Injective(db.mappings) by { WfInjective(db); }
      MapFailsIff(h, saved, UserRow, id, UserFeed, e.sourcedId);
      UserClaims(h, db, saved, id, e.sourcedId);
      hide SyncUser, UserSaves, LocalIdOf, Claimed;
    } else {
      UserUnsaved(h, db, e);
      hide SyncUser, UserSaves, LocalIdOf, Claimed;
    }
  }

  lemma WfInjective(db: Db)
    ensures Wf(db) ==> Injective(db.mappings)
  {
  }

  /** A row is claimed by another entry only when it is an existing one this entry is not mapped to. */
  lemma UserClaims(h: Host, db: Db, saved: Db, id: nat, external: string)
    requires Injective(db.mappings) && Native(db) && saved.mappings == db.mappings
        && (id in db.users || id == db.nextId)
    ensures Claimed(h, saved, UserRow, id, UserFeed, external) <==> Claimed(h, db, UserRow, id, UserFeed, external)
    ensures Claimed(h, db, UserRow, id, UserFeed, external) ==> id < db.nextId
    ensures LocalIdOf(db.mappings, h.config, UserFeed, external) == Some(id) ==>
        !Claimed(h, db, UserRow, id, UserFeed, external)
  {
    if LocalIdOf(db.mappings, h.config, UserFeed, external) == Some(id) {
      var i := FindExternal(db.mappings, h.config, UserFeed, external).value;
      assert db.mappings[i] in db.mappings;
      OwnUnclaimed(h, db, UserRow, id, UserFeed, external);
    }
  }

  /** A record that failed leaves its entry unattached. */
  lemma FailedUnattached(h: Host, db: Db, e: UserEntry)
    requires Wf(db) && !SyncUser(h, db, e).ok
    ensures !UserAttached(h, SyncUser(h, db, e).db, e)
  {
    hide Map, Blank, Injective, UserRole, OrElse;
    if UserSaves(h, db, e) {
      var id, row, saved := UserAttempt(h, db, e);
      assert Injective(db.mappings) by { WfInjective(db); }
      MapFailsIff(h, saved, UserRow, id, UserFeed, e.sourcedId);
      if UserAttached(h, saved, e) {
        assert MappingOf(h, saved, UserFeed, e.sourcedId).value.localId == id;
        OwnUnclaimed(h, saved, UserRow, id, UserFeed, e.sourcedId);
      }
    } else {
      UserUnsaved(h, db, e);
    }
  }

  lemma OwnUnclaimed(h: Host, db: Db, local: LocalType, id: nat, kind: ExternalType, external: string)
    requires Injective(db.mappings)
        && MappingOf(h, db, kind, external) == Some(Mapping(h.config, local, id, kind, external))
    ensures !Blank(external) && !Claimed(h, db, local, id, kind, external)
  {
    hide Blank;
    var i := FindExternal(db.mappings, h.config, kind, external).value;
    forall m | m in db.mappings && m.config == h.config && m.localType == local && m.localId == id
      ensures m == db.mappings[i]
    {
      var k :| 0 <= k < |db.mappings| && db.mappings[k] == m;
      OneRowPerLocal(db.mappings, k, i);
    }
  }

  lemma MappingIs(h: Host, db: Db, kind: ExternalType, external: string)
    ensures
      var m := MappingOf(h, db, kind, external);
      m.Some? ==>
          m.value in db.mappings && m.value == Mapping(h.config, m.value.localType, m.value.localId, kind, external)
  {
  }

  /** No record for another id attaches it afterwards. */
  lemma UnattachedStays(h: Host, db: Db, other: UserEntry, e: UserEntry)
    requires Wf(db) && Native(db) && !UserAttached(h, db, e) && other.sourcedId != e.sourcedId
    ensures !UserAttached(h, SyncUser(h, db, other).db, e)
  {
    hide Map, Blank, Injective, UserRole, OrElse, MappingOf;
    if UserSaves(h, db, other) {
      var id, row, saved := UserAttempt(h, db, other);
      assert Injective(db.mappings) by { WfInjective(db); }
      MapOthers(h, saved, UserRow, id, UserFeed, other.sourcedId, UserFeed, e.sourcedId);
      MapUsers(h, saved, UserRow, id, UserFeed, other.sourcedId);
      MappingsAlike(h, db, saved, UserFeed, e.sourcedId);
      var after := SyncUser(h, db, other).db;
      if UserAttached(h, after, e) {
        var m := MappingOf(h, db, UserFeed, e.sourcedId).value;
        MappingIs(h, db, UserFeed, e.sourcedId);
        assert m.localId == id && m in db.mappings;
        if MappedTo(h, db, UserFeed, other.sourcedId, id) {
          TwoOwners(h, db, id, other.sourcedId, e.sourcedId);
        }
      }
    } else {
      UserUnsaved(h, db, other);
    }
  }

  predicate MappedTo(h: Host, db: Db, kind: ExternalType, external: string, id: nat) {
    LocalIdOf(db.mappings, h.config, kind, external) == Some(id)
  }

  /** Two user entries are never mapped to one user. */
  lemma TwoOwners(h: Host, db: Db, id: nat, external: string, external': string)
    requires Injective(db.mappings) && Native(db) && external != external'
    requires MappedTo(h, db, UserFeed, external, id)
    ensures MappingOf(h, db, UserFeed, external') != Some(Mapping(h.config, UserRow, id, UserFeed, external'))
  {
    var i, j := FindExternal(db.mappings, h.config, UserFeed, external).value,
        FindExternal(db.mappings, h.config, UserFeed, external');
    assert db.mappings[i] in db.mappings && db.mappings[i].localType == UserRow;
    if j.Some? && SameLocal(db.mappings[i], db.mappings[j.value]) {
      OneRowPerLocal(db.mappings, i, j.value);
    }
  }

  lemma MapUsers(h: Host, db: Db, local: LocalType, id: nat, kind: ExternalType, external: string)
    ensures
      var after := Map(h, db, local, id, kind, external).db;
      after == db.(mappings := after.mappings)
  {
    hide Upsert;
  }

  lemma MappingsAlike(h: Host, a: Db, b: Db, kind: ExternalType, external: string)
    requires a.mappings == b.mappings
    ensures MappingOf(h, a, kind, external) == MappingOf(h, b, kind, external)
  {
  }

  /** Some entry of a feed some of whose records failed is unattached at the end. */
  lemma {:induction false} SomeUnattached(h: Host, s: State, es: seq<UserEntry>)
    requires Wf(s.db) && Native(s.db) && DistinctUsers(es) && Sync(h, s, UserRecords(es)).run.failed != s.run.failed
    ensures exists e :: e in es && !UserAttached(h, Sync(h, s, UserRecords(es)).db, e)
  {
    if es != [] {
      hide Sync, SyncUser, UserRecords, UserAttached, Wf, Native, DistinctUsers;
      var init, e := es[..|es| - 1], es[|es| - 1];
      LastUserEntry(h, s, es);
      InitDistinctUserEntry(es);
      SyncKeepsWf(h, s, UserRecords(init));
      SyncKeepsNative(h, s, UserRecords(init));
      var before := Sync(h, s, UserRecords(init));
      if before.run.failed != s.run.failed {
        SomeUnattached(h, s, init);
        var lost :| lost in init && !UserAttached(h, before.db, lost);
        UnattachedStays(h, before.db, e, lost);
      } else {
        FailedUnattached(h, before.db, e);
      }
    }
  }

  /** Over distinct ids every entry ends up carried iff no record failed. */
  lemma UsersCarriedIff(h: Host, s: State, es: seq<UserEntry>)
    requires Wf(s.db) && Native(s.db) && DistinctUsers(es)
    ensures
      var t := Sync(h, s, UserRecords(es));
      (forall e | e in es :: UserCarried(h, t.db, e)) <==> t.run.failed == s.run.failed
  {
    hide Sync, UserCarried, UserAttached, Wf, Native, DistinctUsers;
    var t := Sync(h, s, UserRecords(es));
    if t.run.failed == s.run.failed {
      UsersConverge(h, s, es);
    } else {
      SomeUnattached(h, s, es);
      var e :| e in es && !UserAttached(h, t.db, e);
      CarriedIsAttached(h, t.db, e);
    }
  }

  /** For a single record: it carries its entry iff it succeeds. */
  lemma UserCarriedIff(h: Host, db: Db, e: UserEntry)
    requires Wf(db)
    ensures UserCarried(h, SyncUser(h, db, e).db, e) <==> SyncUser(h, db, e).ok
  {
    hide SyncUser, UserCarried, UserAttached, Wf;
    if SyncUser(h, db, e).ok {
      UserStep(h, db, e, e);
    } else {
      FailedUnattached(h, db, e);
      CarriedIsAttached(h, SyncUser(h, db, e).db, e);
    }
  }

  // ----- feeds that cannot fail

  /** Mapping one row claims no other. */
  lemma ClaimedAfterMap(h: Host, db: Db, local: LocalType, id: nat, kind: ExternalType, external: string,
    k: nat, kind': ExternalType, external': string)
    requires k != id
    ensures Claimed(h, Map(h, db, local, id, kind, external).db, local, k, kind', external') ==>
              Claimed(h, db, local, k, kind', external')
  {
    hide Acceptable;
    var after := Map(h, db, local, id, kind, external).db;
    assert forall m | m in after.mappings :: m == Mapping(h.config, local, id, kind, external) || m in db.mappings;
  }

  lemma UnrefusedAfter(h: Host, db: Db, o: UserEntry, e: UserEntry)
    requires Wf(db) && Native(db) && SyncUser(h, db, o).ok
    requires o.sourcedId != e.sourcedId && Presence(o.email) != Presence(e.email) && !UserRefused(h, db, e)
    ensures !UserRefused(h, SyncUser(h, db, o).db, e)
  {
    if !UserSaves(h, db, o) { UserUnsaved(h, db, o); }
    var id, row, saved := UserAttempt(h, db, o);
    assert Injective(db.mappings) by { WfInjective(db); }
    MappedBelow(h, db, UserFeed, e.sourcedId);
    MapOthers(h, saved, UserRow, id, UserFeed, o.sourcedId, UserFeed, e.sourcedId);
    MapUsers(h, saved, UserRow, id, UserFeed, o.sourcedId);
    hide SyncUser, UserSaves, Map, Blank, Injective, Claimed, Wf, Native;
    var after := Map(h, saved, UserRow, id, UserFeed, o.sourcedId).db;
    LocalIdIs(h, db, UserFeed, e.sourcedId);
    LocalIdIs(h, after, UserFeed, e.sourcedId);
    MappingsAlike(h, db, saved, UserFeed, e.sourcedId);
    hide LocalIdOf, MappingOf;
    forall k | k in after.users && Some(after.users[k].email) == Presence(e.email)
      ensures k != id && k in db.users && db.users[k] == after.users[k]
      ensures Claimed(h, after, UserRow, k, UserFeed, e.sourcedId) ==> Claimed(h, db, UserRow, k, UserFeed, e.sourcedId)
    {
      ClaimedAfterMap(h, saved, UserRow, id, UserFeed, o.sourcedId, k, UserFeed, e.sourcedId);
      ClaimedAlike(h, db, saved, UserRow, k, UserFeed, e.sourcedId);
    }
  }

  lemma LocalIdIs(h: Host, db: Db, kind: ExternalType, external: string)
    ensures
      var m := MappingOf(h, db, kind, external);
      LocalIdOf(db.mappings, h.config, kind, external) == if m.None? then None else Some(m.value.localId)
  {
  }

  lemma ClaimedAlike(h: Host, a: Db, b: Db, local: LocalType, id: nat, kind: ExternalType, external: string)
    requires a.mappings == b.mappings
    ensures Claimed(h, a, local, id, kind, external) == Claimed(h, b, local, id, kind, external)
  {
  }

  predicate DistinctEmails(es: seq<UserEntry>) {
    forall i, j | 0 <= i < j < |es| :: Presence(es[i].email) != Presence(es[j].email)
  }

  lemma {:induction false} StillUnrefused(h: Host, s: State, es: seq<UserEntry>, e: UserEntry)
    requires Wf(s.db) && Native(s.db) && !UserRefused(h, s.db, e)
    requires Sync(h, s, UserRecords(es)).run.failed == s.run.failed
    requires forall o | o in es :: o.sourcedId != e.sourcedId && Presence(o.email) != Presence(e.email)
    ensures !UserRefused(h, Sync(h, s, UserRecords(es)).db, e)
  {
    if es != [] {
      var init, last := es[..|es| - 1], es[|es| - 1];
      assert last in es && forall o | o in init :: o in es;
      hide Sync, SyncUser, UserRecords, UserRefused, Wf, Native;
      LastUserEntry(h, s, es);
      SyncKeepsWf(h, s, UserRecords(init));
      SyncKeepsNative(h, s, UserRecords(init));
      StillUnrefused(h, s, init, e);
      UnrefusedAfter(h, Sync(h, s, UserRecords(init)).db, last, e);
    }
  }

  /** A feed of distinct ids and e-mails fails nowhere when the table it starts from refuses no entry. */
  lemma {:induction false} UsersSucceed(h: Host, s: State, es: seq<UserEntry>)
    requires Wf(s.db) && Native(s.db) && DistinctUsers(es) && DistinctEmails(es)
    requires forall e | e in es :: !UserRefused(h, s.db, e)
    ensures Sync(h, s, UserRecords(es)).run.failed == s.run.failed
  {
    if es != [] {
      var init, last := es[..|es| - 1], es[|es| - 1];
      assert last in es && forall o | o in init :: o in es;
      InitDistinctUserEntry(es);
      assert DistinctEmails(init) && forall o | o in init :: Presence(o.email) != Presence(last.email);
      hide Sync, SyncUser, UserRecords, UserRefused, Wf, Native, DistinctUsers, DistinctEmails;
      LastUserEntry(h, s, es);
      SyncKeepsWf(h, s, UserRecords(init));
      SyncKeepsNative(h, s, UserRecords(init));
      UsersSucceed(h, s, init);
      StillUnrefused(h, s, init, last);
      UserFailsIff(h, Sync(h, s, UserRecords(init)).db, last);
    } else {
      assert UserRecords(es) == [];
    }
  }

  // ----- enrolments

  /** The role is supported and user and class are mapped to rows that exist. */
  predicate Resolved(h: Host, db: Db, e: EnrollmentEntry) {
    var user, section :=
        LocalIdOf(db.mappings, h.config, UserFeed, e.user), LocalIdOf(db.mappings, h.config, ClassFeed, e.klass);
    EnrollmentRole(h, e.role).Some?
    && user.Some? && section.Some? && user.value in db.users && section.value in db.sections
  }

  predicate Enrols(h: Host, db: Db, e: EnrollmentEntry, row: Enrollment) {
    && LocalIdOf(db.mappings, h.config, UserFeed, e.user) == Some(row.user)
    && LocalIdOf(db.mappings, h.config, ClassFeed, e.klass) == Some(row.section)
  }

  lemma EnrollmentAttempt(h: Host, db: Db, e: EnrollmentEntry) returns (id: nat, row: Enrollment, saved: Db)
    requires Wf(db) && Resolved(h, db, e)
    ensures Enrols(h, db, e, row)
    ensures saved == db.(enrollments := db.enrollments[id := row], nextId := saved.nextId)
    ensures db.nextId <= saved.nextId && id < saved.nextId
    ensures SyncEnrollment(h, db, e) == Map(h, saved, EnrollmentRow, id, EnrollmentFeed, e.sourcedId)
    ensures forall k | k in db.enrollments && k != id ::
        !(db.enrollments[k].user == row.user && db.enrollments[k].section == row.section)
    ensures
      if id in db.enrollments then db.enrollments[id].user == row.user && db.enrollments[id].section == row.section
      else id == db.nextId
  {
    hide Map, LocalIdOf, EnrollmentRole, Injective;
    row := Enrollment(LocalIdOf(db.mappings, h.config, UserFeed, e.user).value,
      LocalIdOf(db.mappings, h.config, ClassFeed, e.klass).value, EnrollmentRole(h, e.role).value);
    var existing := ExistingEnrollment(db, row.user, row.section);
    id := if existing.Some? then existing.value else db.nextId;
    saved := db.(enrollments := db.enrollments[id := row],
                 nextId := if existing.Some? then db.nextId else db.nextId + 1);
  }

  /** Mapped to an enrolment of its user in its class, under a supported role. */
  predicate EnrollmentAttached(h: Host, db: Db, e: EnrollmentEntry) {
    var m := MappingOf(h, db, EnrollmentFeed, e.sourcedId);
    Resolved(h, db, e) && m.Some? && m.value.localType == EnrollmentRow && m.value.localId in db.enrollments
    && Enrols(h, db, e, db.enrollments[m.value.localId])
  }

  lemma EnrollmentCarriedAttached(h: Host, db: Db, e: EnrollmentEntry)
    ensures EnrollmentCarried(h, db, e) ==> EnrollmentAttached(h, db, e)
  {
  }

  /** Which records fail: an unsupported role, a user or class that is not mapped to a row, a blank id,
      or an enrolment of that user in that class another entry is mapped to. */
  predicate EnrollmentRefused(h: Host, db: Db, e: EnrollmentEntry) {
    || !Resolved(h, db, e) || Blank(e.sourcedId)
    || exists k :: k in db.enrollments && Enrols(h, db, e, db.enrollments[k])
                   && Claimed(h, db, EnrollmentRow, k, EnrollmentFeed, e.sourcedId)
  }

  lemma ClaimedBelow(h: Host, db: Db, saved: Db, local: LocalType, id: nat, kind: ExternalType, external: string)
    requires Native(db) && saved.mappings == db.mappings
    ensures Claimed(h, saved, local, id, kind, external) <==> Claimed(h, db, local, id, kind, external)
    ensures Claimed(h, db, local, id, kind, external) ==> id < db.nextId
  {
    hide Paired;
  }

  lemma EnrollmentFailsIff(h: Host, db: Db, e: EnrollmentEntry)
    requires Wf(db) && Native(db)
    ensures !SyncEnrollment(h, db, e).ok <==> EnrollmentRefused(h, db, e)
  {
    hide Map, Blank, Wf, Paired, Injective;
    if Resolved(h, db, e) {
      var id, row, saved := EnrollmentAttempt(h, db, e);
      assert Injective(db.mappings) by { WfInjective(db); }
      MapFailsIff(h, saved, EnrollmentRow, id, EnrollmentFeed, e.sourcedId);
      ClaimedBelow(h, db, saved, EnrollmentRow, id, EnrollmentFeed, e.sourcedId);
      hide SyncEnrollment, Resolved, LocalIdOf, Claimed;
    }
  }

  lemma FailedUnenrolled(h: Host, db: Db, e: EnrollmentEntry)
    requires Wf(db) && !SyncEnrollment(h, db, e).ok
    ensures !EnrollmentAttached(h, SyncEnrollment(h, db, e).db, e)
  {
    hide Map, Blank, Injective, EnrollmentRole;
    if Resolved(h, db, e) {
      var id, row, saved := EnrollmentAttempt(h, db, e);
      assert Injective(db.mappings) by { WfInjective(db); }
      MapFailsIff(h, saved, EnrollmentRow, id, EnrollmentFeed, e.sourcedId);
      hide SyncEnrollment, LocalIdOf;
      if EnrollmentAttached(h, saved, e) {
        assert MappingOf(h, saved, EnrollmentFeed, e.sourcedId).value.localId == id;
        OwnUnclaimed(h, saved, EnrollmentRow, id, EnrollmentFeed, e.sourcedId);
      }
    }
  }

  lemma UnenrolledStays(h: Host, db: Db, other: EnrollmentEntry, e: EnrollmentEntry)
    requires Wf(db) && Native(db) && !EnrollmentAttached(h, db, e) && other.sourcedId != e.sourcedId
    ensures !EnrollmentAttached(h, SyncEnrollment(h, db, other).db, e)
  {
    hide Map, Blank, Injective, EnrollmentRole, MappingOf;
    if Resolved(h, db, other) {
      var id, row, saved := EnrollmentAttempt(h, db, other);
      assert Injective(db.mappings) by { WfInjective(db); }
      MapOthers(h, saved, EnrollmentRow, id, EnrollmentFeed, other.sourcedId, EnrollmentFeed, e.sourcedId);
      MapUsers(h, saved, EnrollmentRow, id, EnrollmentFeed, other.sourcedId);
      MapAside(h, saved, EnrollmentRow, id, EnrollmentFeed, other.sourcedId, UserFeed, e.user);
      MapAside(h, saved, EnrollmentRow, id, EnrollmentFeed, other.sourcedId, ClassFeed, e.klass);
      MappingsAlike(h, db, saved, EnrollmentFeed, e.sourcedId);
      hide SyncEnrollment, LocalIdOf;
      var after := Map(h, saved, EnrollmentRow, id, EnrollmentFeed, other.sourcedId).db;
      if EnrollmentAttached(h, after, e) {
        MappingIs(h, db, EnrollmentFeed, e.sourcedId);
      }
    }
  }

  lemma {:induction false} SomeUnenrolled(h: Host, s: State, es: seq<EnrollmentEntry>)
    requires Wf(s.db) && Native(s.db) && DistinctEnrollments(es)
        && Sync(h, s, EnrollmentRecords(es)).run.failed != s.run.failed
    ensures exists e :: e in es && !EnrollmentAttached(h, Sync(h, s, EnrollmentRecords(es)).db, e)
  {
    if es != [] {
      hide Sync, SyncEnrollment, EnrollmentRecords, EnrollmentAttached, Wf, Native, DistinctEnrollments;
      var init, e := es[..|es| - 1], es[|es| - 1];
      LastEnrollmentEntry(h, s, es);
      InitDistinctEnrollmentEntry(es);
      SyncKeepsWf(h, s, EnrollmentRecords(init));
      SyncKeepsNative(h, s, EnrollmentRecords(init));
      var before := Sync(h, s, EnrollmentRecords(init));
      if before.run.failed != s.run.failed {
        SomeUnenrolled(h, s, init);
        var lost :| lost in init && !EnrollmentAttached(h, before.db, lost);
        UnenrolledStays(h, before.db, e, lost);
      } else {
        FailedUnenrolled(h, before.db, e);
      }
    }
  }

  /** Over distinct ids every enrolment entry ends up carried iff no record failed. */
  lemma EnrollmentsCarriedIff(h: Host, s: State, es: seq<EnrollmentEntry>)
    requires Wf(s.db) && Native(s.db) && DistinctEnrollments(es)
    ensures
      var t := Sync(h, s, EnrollmentRecords(es));
      (forall e | e in es :: EnrollmentCarried(h, t.db, e)) <==> t.run.failed == s.run.failed
  {
    hide Sync, EnrollmentCarried, EnrollmentAttached, Wf, Native, DistinctEnrollments;
    var t := Sync(h, s, EnrollmentRecords(es));
    if t.run.failed == s.run.failed {
      EnrollmentsConverge(h, s, es);
    } else {
      SomeUnenrolled(h, s, es);
      var e :| e in es && !EnrollmentAttached(h, t.db, e);
      EnrollmentCarriedAttached(h, t.db, e);
    }
  }

  /** For a single record: it carries its entry iff it succeeds. */
  lemma EnrollmentCarriedIff(h: Host, db: Db, e: EnrollmentEntry)
    requires Wf(db)
    ensures EnrollmentCarried(h, SyncEnrollment(h, db, e).db, e) <==> SyncEnrollment(h, db, e).ok
  {
    hide SyncEnrollment, EnrollmentCarried, EnrollmentAttached, Wf;
    if SyncEnrollment(h, db, e).ok {
      EnrollmentStep(h, db, e, e);
    } else {
      FailedUnenrolled(h, db, e);
      EnrollmentCarriedAttached(h, SyncEnrollment(h, db, e).db, e);
    }
  }

  lemma OneOwner(h: Host, db: Db, kind: ExternalType, external: string, external': string)
    requires Injective(db.mappings) && Native(db) && (kind == UserFeed || kind == ClassFeed) && external != external'
    requires LocalIdOf(db.mappings, h.config, kind, external).Some?
    ensures LocalIdOf(db.mappings, h.config, kind, external) != LocalIdOf(db.mappings, h.config, kind, external')
  {
    var i, j := FindExternal(db.mappings, h.config, kind, external).value,
        FindExternal(db.mappings, h.config, kind, external');
    assert db.mappings[i] in db.mappings;
    if j.Some? {
      assert db.mappings[j.value] in db.mappings;
      if SameLocal(db.mappings[i], db.mappings[j.value]) {
        OneRowPerLocal(db.mappings, i, j.value);
      }
    }
  }

  /** Entries for different pairs of user and class ask for different enrolments. */
  lemma PairsDiffer(h: Host, db: Db, o: EnrollmentEntry, e: EnrollmentEntry, a: Enrollment, b: Enrollment)
    requires Injective(db.mappings) && Native(db) && (o.user != e.user || o.klass != e.klass)
    requires Enrols(h, db, o, a) && Enrols(h, db, e, b)
    ensures a.user != b.user || a.section != b.section
  {
    hide Injective, Native, LocalIdOf;
    if o.user != e.user { OneOwner(h, db, UserFeed, o.user, e.user); }
    if o.klass != e.klass { OneOwner(h, db, ClassFeed, o.klass, e.klass); }
  }

  lemma EnrollmentUnrefusedAfter(h: Host, db: Db, o: EnrollmentEntry, e: EnrollmentEntry)
    requires Wf(db) && Native(db) && SyncEnrollment(h, db, o).ok
    requires o.sourcedId != e.sourcedId && (o.user != e.user || o.klass != e.klass) && !EnrollmentRefused(h, db, e)
    ensures !EnrollmentRefused(h, SyncEnrollment(h, db, o).db, e)
  {
    var id, row, saved := EnrollmentAttempt(h, db, o);
    assert Injective(db.mappings) by { WfInjective(db); }
    MapUsers(h, saved, EnrollmentRow, id, EnrollmentFeed, o.sourcedId);
    MapAside(h, saved, EnrollmentRow, id, EnrollmentFeed, o.sourcedId, UserFeed, e.user);
    MapAside(h, saved, EnrollmentRow, id, EnrollmentFeed, o.sourcedId, ClassFeed, e.klass);
    hide SyncEnrollment, Map, Blank, Injective, Claimed, Wf, Native, LocalIdOf, EnrollmentRole;
    var after := Map(h, saved, EnrollmentRow, id, EnrollmentFeed, o.sourcedId).db;
    assert Resolved(h, after, e);
    forall k | k in after.enrollments && Enrols(h, after, e, after.enrollments[k])
      ensures k in db.enrollments && Enrols(h, db, e, db.enrollments[k])
      ensures Claimed(h, after, EnrollmentRow, k, EnrollmentFeed, e.sourcedId) ==>
                Claimed(h, db, EnrollmentRow, k, EnrollmentFeed, e.sourcedId)
    {
      PairsDiffer(h, db, o, e, row, after.enrollments[k]);
      ClaimedAfterMap(h, saved, EnrollmentRow, id, EnrollmentFeed, o.sourcedId, k, EnrollmentFeed, e.sourcedId);
      ClaimedAlike(h, db, saved, EnrollmentRow, k, EnrollmentFeed, e.sourcedId);
    }
  }

  predicate DistinctPairs(es: seq<EnrollmentEntry>) {
    forall i, j | 0 <= i < j < |es| :: es[i].user != es[j].user || es[i].klass != es[j].klass
  }

  lemma {:induction false} EnrollmentStillUnrefused(h: Host, s: State, es: seq<EnrollmentEntry>, e: EnrollmentEntry)
    requires Wf(s.db) && Native(s.db) && !EnrollmentRefused(h, s.db, e)
    requires Sync(h, s, EnrollmentRecords(es)).run.failed == s.run.failed
    requires forall o | o in es :: o.sourcedId != e.sourcedId && (o.user != e.user || o.klass != e.klass)
    ensures !EnrollmentRefused(h, Sync(h, s, EnrollmentRecords(es)).db, e)
  {
    if es != [] {
      var init, last := es[..|es| - 1], es[|es| - 1];
      assert last in es && forall o | o in init :: o in es;
      hide Sync, SyncEnrollment, EnrollmentRecords, EnrollmentRefused, Wf, Native;
      LastEnrollmentEntry(h, s, es);
      SyncKeepsWf(h, s, EnrollmentRecords(init));
      SyncKeepsNative(h, s, EnrollmentRecords(init));
      EnrollmentStillUnrefused(h, s, init, e);
      EnrollmentUnrefusedAfter(h, Sync(h, s, EnrollmentRecords(init)).db, last, e);
    }
  }

  /** A feed of distinct ids and distinct pairs of user and class fails nowhere when the table it starts
      from refuses no entry. */
  lemma {:induction false} EnrollmentsSucceed(h: Host, s: State, es: seq<EnrollmentEntry>)
    requires Wf(s.db) && Native(s.db) && DistinctEnrollments(es) && DistinctPairs(es)
    requires forall e | e in es :: !EnrollmentRefused(h, s.db, e)
    ensures Sync(h, s, EnrollmentRecords(es)).run.failed == s.run.failed
  {
    if es != [] {
      var init, last := es[..|es| - 1], es[|es| - 1];
      assert last in es && forall o | o in init :: o in es;
      InitDistinctEnrollmentEntry(es);
      assert DistinctPairs(init) && forall o | o in init :: o.user != last.user || o.klass != last.klass;
      hide Sync, SyncEnrollment, EnrollmentRecords, EnrollmentRefused, Wf, Native, DistinctEnrollments, DistinctPairs;
      LastEnrollmentEntry(h, s, es);
      SyncKeepsWf(h, s, EnrollmentRecords(init));
      SyncKeepsNative(h, s, EnrollmentRecords(init));
      EnrollmentsSucceed(h, s, init);
      EnrollmentStillUnrefused(h, s, init, last);
      EnrollmentFailsIff(h, Sync(h, s, EnrollmentRecords(init)).db, last);
    } else {
      assert EnrollmentRecords(es) == [];
    }
  }
}
