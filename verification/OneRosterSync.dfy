/** The sync jobs as the object that updates rows and counters in place, and what a run without
    failures achieves: every feed entry is carried by its row, and a rerun changes nothing. */
module OneRosterSync {
  import opened Wrappers
  import opened Text
  import opened OneRoster

  // ----- the jobs

  datatype RunStatus = Pending | Running | Completed | Failed

  class SyncJob {
    const host: Host
    var db: Db
    var run: Counters
    var status: RunStatus

    constructor (host: Host, db: Db)
      ensures this.host == host && this.db == db && run == Counters(0, 0, 0) && status == Pending
    {
      this.host, this.db := host, db;
      run, status := Counters(0, 0, 0), Pending;
    }

    /** Raises, as `ok == false`, when the mapping is invalid; what was saved before stays. */
    method UpsertMapping(local: LocalType, id: nat, kind: ExternalType, external: string) returns (ok: bool)
      modifies this`db
      ensures Outcome(db, ok) == Map(host, old(db), local, id, kind, external)
    {
      var m := Mapping(host.config, local, id, kind, external);
      var found := FindExternal(db.mappings, host.config, kind, external);
      if found.Some? {
        if !Acceptable(db.mappings, found.value, m) {
          return false;
        }
        db := db.(mappings := db.mappings[found.value := m]);
      } else {
        if !Acceptable(db.mappings, |db.mappings|, m) {
          return false;
        }
        db := db.(mappings := db.mappings + [m]);
      }
      return true;
    }

    method UpsertUser(e: UserEntry) returns (ok: bool)
      modifies this`db
      ensures Outcome(db, ok) == SyncUser(host, old(db), e)
    {
      hide Map, UserRole;
      var email := Presence(e.email);
      if email.None? {
        return false;
      }
      var existing := ExistingUser(host, db, e, email.value);
      var id := if existing.Some? then existing.value else db.nextId;
      var u := NamedUser(db, existing, e, email.value);
      if !UserValid(host, db, id, u) {
        return false;
      }
      db := db.(users := db.users[id := u], nextId := if existing.Some? then db.nextId else db.nextId + 1);
      db := db.(users := db.users[id := WithRole(host, u, e.role)]);
      assert db.users == old(db).users[id := WithRole(host, u, e.role)];
      ok := UpsertMapping(UserRow, id, UserFeed, e.sourcedId);
    }

    method UpsertEnrollment(e: EnrollmentEntry) returns (ok: bool)
      modifies this`db
      ensures Outcome(db, ok) == SyncEnrollment(host, old(db), e)
    {
      hide Map, EnrollmentRole;
      var role := EnrollmentRole(host, e.role);
      var user := LocalIdOf(db.mappings, host.config, UserFeed, e.user);
      var section := LocalIdOf(db.mappings, host.config, ClassFeed, e.klass);
      if role.None? || user.None? || section.None? || user.value !in db.users || section.value !in db.sections {
        return false;
      }
      var existing := ExistingEnrollment(db, user.value, section.value);
      var id := if existing.Some? then existing.value else db.nextId;
      db := db.(enrollments := db.enrollments[id := Enrollment(user.value, section.value, role.value)],
                nextId := if existing.Some? then db.nextId else db.nextId + 1);
      ok := UpsertMapping(EnrollmentRow, id, EnrollmentFeed, e.sourcedId);
    }

    method UpsertOrg(e: OrgEntry) returns (ok: bool)
      modifies this`db
      ensures Outcome(db, ok) == SyncOrg(host, old(db), e)
    {
      hide Map;
      var mapped := LocalIdOf(db.mappings, host.config, OrgFeed, e.sourcedId);
      var id := db.nextId;
      if mapped.Some? && mapped.value in db.schools {
        id := mapped.value;
      } else {
        db := db.(nextId := db.nextId + 1);
      }
      db := db.(schools := db.schools[id := School(OrElse(e.name, "Imported School"), OrElse(e.identifier, "UTC"))]);
      ok := UpsertMapping(SchoolRow, id, OrgFeed, e.sourcedId);
    }

    /** Runs one record's block, isolating its failure. */
    method ProcessRecord(r: Record)
      modifies this`db, this`run
      ensures State(db, run) == Process(host, State(old(db), old(run)), r)
    {
      hide SyncSession, SyncClass, SyncUser, SyncEnrollment, SyncOrg;
      run := run.(processed := run.processed + 1);
      var ok;
      match r {
        case OfUser(e) => ok := UpsertUser(e);
        case OfEnrollment(e) => ok := UpsertEnrollment(e);
        case OfOrg(e) => ok := UpsertOrg(e);
        case _ =>
          var o := Body(host, db, r);
          db, ok := o.db, o.ok;
      }
      if ok {
        run := run.(succeeded := run.succeeded + 1);
      } else {
        run := run.(failed := run.failed + 1);
      }
    }

    method SyncRecords(records: seq<Record>)
      modifies this`db, this`run
      ensures State(db, run) == Sync(host, State(old(db), old(run)), records)
    {
      var i := 0;
      while i < |records|
        invariant 0 <= i <= |records|
        invariant State(db, run) == Sync(host, State(old(db), old(run)), records[..i])
      {
        hide Process;
        assert records[..i + 1][..i] == records[..i];
        ProcessRecord(records[i]);
        i := i + 1;
      }
      assert records[..|records|] == records;
    }

    /** `perform` on what the client fetched, phase by phase; a fetch that raises fails the run. */
    method Perform(phases: seq<Option<seq<Record>>>)
      requires status == Pending
      modifies this
      ensures State(db, run) == Sync(host, State(old(db), old(run)), Fetched(phases))
      ensures status == if AllFetched(phases) then Completed else Failed
    {
      hide Sync;
      status := Running;
      var i := 0;
      SyncConcat(host, State(db, run), [], []);
      while i < |phases|
        invariant 0 <= i <= |phases| && status == Running && forall k | 0 <= k < i :: phases[k].Some?
        invariant State(db, run) == Sync(host, State(old(db), old(run)), Fetched(phases[..i]))
      {
        if phases[i].None? {
          status := Failed;
          FetchStops(phases, i);
          return;
        }
        SyncRecords(phases[i].value);
        FetchedStep(phases, i);
        SyncConcat(host, State(old(db), old(run)), Fetched(phases[..i]), phases[i].value);
        i := i + 1;
      }
      assert phases[..|phases|] == phases;
      status := Completed;
    }
  }

  lemma {:induction false} SyncConcat(h: Host, s: State, a: seq<Record>, b: seq<Record>)
    ensures Sync(h, s, a + b) == Sync(h, Sync(h, s, a), b)
    ensures Sync(h, s, []) == s
  {
    if b == [] {
      assert a + b == a;
    } else {
      hide Process;
      assert (a + b)[..|a + b| - 1] == a + b[..|b| - 1];
      SyncConcat(h, s, a, b[..|b| - 1]);
    }
  }

  /** The last record of a run. */
  lemma SyncLast(h: Host, s: State, rs: seq<Record>, r: Record)
    ensures Sync(h, s, rs + [r]) == Process(h, Sync(h, s, rs), r)
  {
    hide Process;
    assert (rs + [r])[..|rs + [r]| - 1] == rs;
  }

  lemma ProcessPerson(h: Host, s: State, u: UserEntry, e: EnrollmentEntry)
    ensures Process(h, s, OfUser(u)).db == SyncUser(h, s.db, u).db
    ensures Process(h, s, OfEnrollment(e)).db == SyncEnrollment(h, s.db, e).db
    ensures Process(h, s, OfUser(u)).run == Counted(s.run, SyncUser(h, s.db, u).ok)
    ensures Process(h, s, OfEnrollment(e)).run == Counted(s.run, SyncEnrollment(h, s.db, e).ok)
  {
    hide SyncUser, SyncEnrollment;
  }

  function Counted(run: Counters, ok: bool): Counters {
    Counters(run.processed + 1, if ok then run.succeeded + 1 else run.succeeded,
        if ok then run.failed else run.failed + 1)
  }

  predicate AllFetched(phases: seq<Option<seq<Record>>>) { forall i | 0 <= i < |phases| :: phases[i].Some? }

  /** The records processed: all phases before the first fetch that raised. */
  function Fetched(phases: seq<Option<seq<Record>>>): seq<Record> {
    if phases == [] || phases[0].None? then [] else phases[0].value + Fetched(phases[1..])
  }

  lemma {:induction false} FetchedStep(phases: seq<Option<seq<Record>>>, i: nat)
    requires i < |phases| && forall k | 0 <= k <= i :: phases[k].Some?
    ensures Fetched(phases[..i + 1]) == Fetched(phases[..i]) + phases[i].value
  {
    assert phases[..i + 1][0].Some?;
    if i == 0 {
      assert phases[..1][1..] == [] && phases[..0] == [];
    } else {
      assert phases[1..][..i] == phases[..i + 1][1..] && phases[1..][..i - 1] == phases[..i][1..];
      assert forall k | 0 <= k <= i - 1 :: phases[1..][k] == phases[k + 1];
      FetchedStep(phases[1..], i - 1);
    }
  }

  lemma {:induction false} FetchStops(phases: seq<Option<seq<Record>>>, i: nat)
    requires i < |phases| && phases[i].None? && forall k | 0 <= k < i :: phases[k].Some?
    ensures Fetched(phases) == Fetched(phases[..i])
  {
    if i > 0 {
      assert phases[..i][0].Some?;
      assert phases[1..][..i - 1] == phases[..i][1..];
      assert forall k | 0 <= k < i - 1 :: phases[1..][k] == phases[k + 1];
      FetchStops(phases[1..], i - 1);
    }
  }

  // ----- convergence of a user feed

  predicate Mapped(h: Host, db: Db, local: LocalType, kind: ExternalType, external: string) {
    var i := FindExternal(db.mappings, h.config, kind, external);
    i.Some? && db.mappings[i.value].localType == local
  }

  function RowOf(h: Host, db: Db, kind: ExternalType, external: string): nat
    requires FindExternal(db.mappings, h.config, kind, external).Some?
  {
    db.mappings[FindExternal(db.mappings, h.config, kind, external).value].localId
  }

  /** A user with everything a feed entry says. */
  predicate CarriesAttributes(h: Host, u: User, e: UserEntry) {
    && Presence(e.email) == Some(u.email) && h.emailOk(u.email)
    && u.firstName.Some? && (Presence(e.givenName).Some? ==> u.firstName == e.givenName)
    && u.lastName.Some? && (Presence(e.familyName).Some? ==> u.lastName == e.familyName)
    && (h.downcase(e.role) == "teacher" ==> "teacher" in u.roles)
    && (h.downcase(e.role) == "student" ==> "student" in u.roles)
    && (h.downcase(e.role) == "administrator" ==> "admin" in u.roles)
  }

  /** The entry is mapped to a user carrying its attributes. */
  predicate UserCarried(h: Host, db: Db, e: UserEntry) {
    && Mapped(h, db, UserRow, UserFeed, e.sourcedId)
    && RowOf(h, db, UserFeed, e.sourcedId) in db.users
    && CarriesAttributes(h, db.users[RowOf(h, db, UserFeed, e.sourcedId)], e)
  }

  lemma MapFacts(h: Host, db: Db, local: LocalType, id: nat, kind: ExternalType, external: string)
    requires Injective(db.mappings) && Map(h, db, local, id, kind, external).ok
    ensures
      var after := Map(h, db, local, id, kind, external).db;
      && after == db.(mappings := after.mappings) && Injective(after.mappings)
      && Mapped(h, after, local, kind, external) && RowOf(h, after, kind, external) == id
      && (forall local', kind', external' |
            (kind' != kind || external' != external) && Mapped(h, db, local', kind', external') ::
            Mapped(h, after, local', kind', external')
            && RowOf(h, after, kind', external') == RowOf(h, db, kind', external'))
  {
    var m := Mapping(h.config, local, id, kind, external);
    UpsertKeepsInjective(db.mappings, m);
    var after := Upsert(db.mappings, m).value;
    var at :| 0 <= at < |after| && after[at] == m;
    OneRowPerExternal(after, FindExternal(after, h.config, kind, external).value, at);
    var found := FindExternal(db.mappings, h.config, kind, external);
    forall local', kind', external' |
        (kind' != kind || external' != external) && Mapped(h, db, local', kind', external')
      ensures Mapped(h, db.(mappings := after), local', kind', external')
              && RowOf(h, db.(mappings := after), kind', external') == RowOf(h, db, kind', external')
    {
      var i := FindExternal(db.mappings, h.config, kind', external').value;
      assert after[i] == db.mappings[i];
      OneRowPerExternal(after, FindExternal(after, h.config, kind', external').value, i);
    }
  }

  lemma MappedHere(h: Host, db: Db, local: LocalType, id: nat, kind: ExternalType, external: string)
    requires Injective(db.mappings) && Map(h, db, local, id, kind, external).ok
    ensures
      var after := Map(h, db, local, id, kind, external).db;
      && after == db.(mappings := after.mappings) && Injective(after.mappings)
      && Mapped(h, after, local, kind, external) && RowOf(h, after, kind, external) == id
  {
    hide *;
    MapFacts(h, db, local, id, kind, external);
  }

  lemma DistinctRows(h: Host, db: Db, local: LocalType, kind: ExternalType, external: string, external': string)
    requires Injective(db.mappings) && external != external'
    requires Mapped(h, db, local, kind, external) && Mapped(h, db, local, kind, external')
    ensures RowOf(h, db, kind, external) != RowOf(h, db, kind, external')
  {
    DistinctLocals(db.mappings, h.config, kind, external, external');
  }

  /** The row a successful user record saves, and where it is mapped. */
  lemma UserSaved(h: Host, db: Db, e: UserEntry) returns (id: nat, row: User, saved: Db)
    requires SyncUser(h, db, e).ok
    ensures saved.users == db.users[id := row] && saved.mappings == db.mappings && CarriesAttributes(h, row, e)
    ensures SyncUser(h, db, e) == Map(h, saved, UserRow, id, UserFeed, e.sourcedId)
  {
    hide Map, ExistingUser, Injective, Blank;
    var email := Presence(e.email).value;
    var existing := ExistingUser(h, db, e, email);
    id := if existing.Some? then existing.value else db.nextId;
    row := WithRole(h, NamedUser(db, existing, e, email), e.role);
    saved := db.(users := db.users[id := row], nextId := if existing.Some? then db.nextId else db.nextId + 1);
  }

  /** A successful record carries its entry, and leaves carried entries with other ids carried. */
  lemma UserStep(h: Host, db: Db, e: UserEntry, other: UserEntry)
    requires Wf(db) && SyncUser(h, db, e).ok
    ensures UserCarried(h, SyncUser(h, db, e).db, e)
    ensures UserCarried(h, db, other) && other.sourcedId != e.sourcedId ==> UserCarried(h, SyncUser(h, db, e).db, other)
  {
    hide Injective, Map, SyncUser, CarriesAttributes;
    var id, row, saved := UserSaved(h, db, e);
    MapFacts(h, saved, UserRow, id, UserFeed, e.sourcedId);
    var after := Map(h, saved, UserRow, id, UserFeed, e.sourcedId).db;
    if UserCarried(h, db, other) && other.sourcedId != e.sourcedId {
      assert Mapped(h, saved, UserRow, UserFeed, other.sourcedId);
      DistinctRows(h, after, UserRow, UserFeed, e.sourcedId, other.sourcedId);
    }
  }

  predicate DistinctUsers(es: seq<UserEntry>) { forall i, j | 0 <= i < j < |es| :: es[i].sourcedId != es[j].sourcedId }

  lemma InitDistinctUserEntry(es: seq<UserEntry>)
    requires DistinctUsers(es) && es != []
    ensures DistinctUsers(es[..|es| - 1])
    ensures forall o | o in es[..|es| - 1] :: o.sourcedId != es[|es| - 1].sourcedId
  {
  }

  lemma UserStepAll(h: Host, db: Db, e: UserEntry, others: seq<UserEntry>)
    requires Wf(db) && SyncUser(h, db, e).ok
    requires forall o | o in others :: UserCarried(h, db, o) && o.sourcedId != e.sourcedId
    ensures forall o | o in others + [e] :: UserCarried(h, SyncUser(h, db, e).db, o)
  {
    hide UserCarried, SyncUser, Wf;
    UserStep(h, db, e, e);
    forall o | o in others ensures UserCarried(h, SyncUser(h, db, e).db, o) {
      UserStep(h, db, e, o);
    }
  }

  function UserRecords(es: seq<UserEntry>): seq<Record> { seq(|es|, i requires 0 <= i < |es| => OfUser(es[i])) }

  lemma LastUserEntry(h: Host, s: State, es: seq<UserEntry>)
    requires es != []
    ensures
      var before := Sync(h, s, UserRecords(es[..|es| - 1]));
      var o := SyncUser(h, before.db, es[|es| - 1]);
      Sync(h, s, UserRecords(es)) == State(o.db, Counted(before.run, o.ok))
  {
    hide Sync, Process, SyncUser;
    var init, e := es[..|es| - 1], es[|es| - 1];
    assert UserRecords(es) == UserRecords(init) + [OfUser(e)];
    var t := Sync(h, s, UserRecords(init));
    SyncLast(h, s, UserRecords(init), OfUser(e));
    ProcessPerson(h, t, e, EnrollmentEntry("", "", "", ""));
  }

  /** After a user sync over distinct ids with no failure, every entry is mapped to a row carrying it. */
  lemma {:induction false} UsersConverge(h: Host, s: State, es: seq<UserEntry>)
    requires Wf(s.db) && DistinctUsers(es) && Sync(h, s, UserRecords(es)).run.failed == s.run.failed
    ensures forall e | e in es :: UserCarried(h, Sync(h, s, UserRecords(es)).db, e)
  {
    if es != [] {
      hide Sync, SyncUser, UserRecords, UserCarried, Wf, DistinctUsers;
      var init, e := es[..|es| - 1], es[|es| - 1];
      LastUserEntry(h, s, es);
      InitDistinctUserEntry(es);
      SyncKeepsWf(h, s, UserRecords(init));
      UsersConverge(h, s, init);
      UserStepAll(h, Sync(h, s, UserRecords(init)).db, e, init);
      assert init + [e] == es;
    }
  }

  lemma UserAgain(h: Host, db: Db, e: UserEntry)
    requires Wf(db) && UserCarried(h, db, e)
    ensures SyncUser(h, db, e) == Outcome(db, true)
  {
    var id := RowOf(h, db, UserFeed, e.sourcedId);
    var email := Presence(e.email).value;
    assert ExistingUser(h, db, e, email) == Some(id);
    var u := db.users[id];
    assert NamedUser(db, Some(id), e, email) == u;
    assert WithRole(h, u, e.role) == u by {
      assert UserRole(h, e.role).Some? ==> u.roles + {UserRole(h, e.role).value} == u.roles;
    }
    assert UserValid(h, db, id, u);
    assert db.users[id := u] == db.users;
    var i := FindExternal(db.mappings, h.config, UserFeed, e.sourcedId).value;
    assert db.mappings[i] == Mapping(h.config, UserRow, id, UserFeed, e.sourcedId);
    hide Injective, UserRole;
    UpsertAgain(db.mappings, Mapping(h.config, UserRow, id, UserFeed, e.sourcedId));
  }

  lemma {:induction false} UsersRerun(h: Host, s: State, es: seq<UserEntry>)
    requires Wf(s.db) && forall e | e in es :: UserCarried(h, s.db, e)
    ensures
      var t := Sync(h, s, UserRecords(es));
      t.db == s.db && t.run == Counters(s.run.processed + |es|, s.run.succeeded + |es|, s.run.failed)
  {
    if es == [] {
      SyncConcat(h, s, [], []);
    } else {
      hide Sync, SyncUser, UserRecords, UserCarried, Wf;
      var init := es[..|es| - 1];
      LastUserEntry(h, s, es);
      assert forall o | o in init :: o in es;
      UsersRerun(h, s, init);
      UserAgain(h, s.db, es[|es| - 1]);
    }
  }

  /** Running the same feed again after a run without failures changes nothing and fails nowhere. */
  lemma UserSyncIdempotent(h: Host, s: State, es: seq<UserEntry>)
    requires Wf(s.db) && DistinctUsers(es) && Sync(h, s, UserRecords(es)).run.failed == s.run.failed
    ensures
      var once := Sync(h, s, UserRecords(es));
      var twice := Sync(h, once, UserRecords(es));
      twice.db == once.db && twice.run.failed == once.run.failed
  {
    SyncKeepsWf(h, s, UserRecords(es));
    UsersConverge(h, s, es);
    UsersRerun(h, Sync(h, s, UserRecords(es)), es);
  }

  const EMPTY := Db(map[], map[], map[], map[], map[], map[], map[], [], 1)

  /** Without the zero-failure hypothesis the conclusion fails: of two entries with one e-mail the
      second is refused, yet not before it has renamed the row the first is mapped to. */
  lemma FailedRecordOverwrites(h: Host, a: UserEntry, b: UserEntry)
    requires Presence(a.email).Some? && b.email == a.email && h.emailOk(a.email.value)
    requires !Blank(a.sourcedId) && !Blank(b.sourcedId) && a.sourcedId != b.sourcedId
    requires Presence(a.givenName).Some? && Presence(b.givenName).Some? && a.givenName != b.givenName
    ensures
      var first := SyncUser(h, EMPTY, a);
      var second := SyncUser(h, first.db, b);
      && first.ok && UserCarried(h, first.db, a)
      && !second.ok && Mapped(h, second.db, UserRow, UserFeed, a.sourcedId) && !UserCarried(h, second.db, a)
  {
    FirstUser(h, a);
    var first := SyncUser(h, EMPTY, a).db;
    SecondRefused(h, first, b, a.sourcedId);
    hide SyncUser, Injective;
    assert FindExternal(first.mappings, h.config, UserFeed, a.sourcedId) == Some(0);
  }

  lemma FirstUser(h: Host, a: UserEntry)
    requires Presence(a.email).Some? && h.emailOk(a.email.value) && !Blank(a.sourcedId)
    ensures
      var first := SyncUser(h, EMPTY, a);
      && first.ok && UserCarried(h, first.db, a) && first.db.users.Keys == {1}
      && Some(first.db.users[1].email) == a.email
      && first.db.mappings == [Mapping(h.config, UserRow, 1, UserFeed, a.sourcedId)]
  {
    hide UserRole, Blank;
    assert ExistingUser(h, EMPTY, a, a.email.value).None?;
    var ma := Mapping(h.config, UserRow, 1, UserFeed, a.sourcedId);
    assert [] + [ma] == [ma] && Upsert([], ma) == Some([ma]);
    assert SyncUser(h, EMPTY, a).ok;
    UserStep(h, EMPTY, a, a);
  }

  /** A second entry with the mapped user's e-mail renames that user before it is refused. */
  lemma SecondRefused(h: Host, db: Db, b: UserEntry, id: string)
    requires db.mappings == [Mapping(h.config, UserRow, 1, UserFeed, id)] && id != b.sourcedId
    requires db.users.Keys == {1} && Some(db.users[1].email) == b.email
    requires Presence(b.email).Some? && h.emailOk(b.email.value) && Presence(b.givenName).Some?
    ensures
      var second := SyncUser(h, db, b);
      !second.ok && second.db.mappings == db.mappings && 1 in second.db.users
      && second.db.users[1].firstName == b.givenName
  {
    hide UserRole, Blank;
    var ma, mb := Mapping(h.config, UserRow, 1, UserFeed, id), Mapping(h.config, UserRow, 1, UserFeed, b.sourcedId);
    OneUserFound(h, db, b, b.email.value, ma);
    assert SameLocal([ma][0], mb);
    assert Upsert([ma], mb).None?;
  }

  lemma OneUserFound(h: Host, db: Db, e: UserEntry, email: string, m: Mapping)
    requires db.mappings == [m] && m.externalId != e.sourcedId
    requires db.users.Keys == {1} && db.users[1].email == email
    ensures ExistingUser(h, db, e, email) == Some(1)
    ensures FindExternal(db.mappings, h.config, UserFeed, e.sourcedId).None?
  {
    assert 1 in db.users && db.mappings[0] == m;
  }

  // ----- convergence of an enrolment feed

  predicate EnrollmentCarried(h: Host, db: Db, e: EnrollmentEntry) {
    && Mapped(h, db, EnrollmentRow, EnrollmentFeed, e.sourcedId)
    && RowOf(h, db, EnrollmentFeed, e.sourcedId) in db.enrollments
    && var row := db.enrollments[RowOf(h, db, EnrollmentFeed, e.sourcedId)];
       && h.downcase(e.role) == row.role && (row.role == "teacher" || row.role == "student")
       && LocalIdOf(db.mappings, h.config, UserFeed, e.user) == Some(row.user) && row.user in db.users
       && LocalIdOf(db.mappings, h.config, ClassFeed, e.klass) == Some(row.section) && row.section in db.sections
  }

  lemma MapAside(h: Host, db: Db, local: LocalType, id: nat, kind: ExternalType, external: string, kind': ExternalType,
    external': string)
    requires Injective(db.mappings) && kind' != kind
    ensures LocalIdOf(Map(h, db, local, id, kind, external).db.mappings, h.config, kind', external')
         == LocalIdOf(db.mappings, h.config, kind', external')
  {
    var m := Mapping(h.config, local, id, kind, external);
    if Upsert(db.mappings, m).Some? {
      UpsertKeepsInjective(db.mappings, m);
    }
  }

  /** The row a successful enrolment record saves, and where it is mapped. */
  lemma EnrollmentSaved(h: Host, db: Db, e: EnrollmentEntry) returns (id: nat, row: Enrollment, saved: Db)
    requires SyncEnrollment(h, db, e).ok
    ensures saved.enrollments == db.enrollments[id := row]
        && saved == db.(enrollments := saved.enrollments, nextId := saved.nextId)
    ensures SyncEnrollment(h, db, e) == Map(h, saved, EnrollmentRow, id, EnrollmentFeed, e.sourcedId)
    ensures EnrollmentRole(h, e.role) == Some(row.role)
    ensures LocalIdOf(db.mappings, h.config, UserFeed, e.user) == Some(row.user) && row.user in db.users
    ensures LocalIdOf(db.mappings, h.config, ClassFeed, e.klass) == Some(row.section) && row.section in db.sections
  {
    hide Map, LocalIdOf, EnrollmentRole, ExistingEnrollment;
    row := Enrollment(LocalIdOf(db.mappings, h.config, UserFeed, e.user).value,
      LocalIdOf(db.mappings, h.config, ClassFeed, e.klass).value, EnrollmentRole(h, e.role).value);
    var existing := ExistingEnrollment(db, row.user, row.section);
    id := if existing.Some? then existing.value else db.nextId;
    saved := db.(enrollments := db.enrollments[id := row],
                 nextId := if existing.Some? then db.nextId else db.nextId + 1);
  }

  lemma EnrollmentStep(h: Host, db: Db, e: EnrollmentEntry, other: EnrollmentEntry)
    requires Wf(db) && SyncEnrollment(h, db, e).ok
    ensures EnrollmentCarried(h, SyncEnrollment(h, db, e).db, e)
    ensures EnrollmentCarried(h, db, other) && other.sourcedId != e.sourcedId ==>
              EnrollmentCarried(h, SyncEnrollment(h, db, e).db, other)
  {
    var id, row, saved := EnrollmentSaved(h, db, e);
    hide SyncEnrollment, Injective, Map, LocalIdOf, EnrollmentRole, FindExternal;
    MapFacts(h, saved, EnrollmentRow, id, EnrollmentFeed, e.sourcedId);
    MapAside(h, saved, EnrollmentRow, id, EnrollmentFeed, e.sourcedId, UserFeed, e.user);
    MapAside(h, saved, EnrollmentRow, id, EnrollmentFeed, e.sourcedId, ClassFeed, e.klass);
    if EnrollmentCarried(h, db, other) && other.sourcedId != e.sourcedId {
      EnrollmentStays(h, db, id, row, saved, e, other);
    }
  }

  /** An enrolment carried before stays carried when another is saved and mapped. */
  lemma EnrollmentStays(h: Host, db: Db, id: nat, row: Enrollment, saved: Db, e: EnrollmentEntry, other:
    EnrollmentEntry)
    requires Wf(db) && EnrollmentCarried(h, db, other) && other.sourcedId != e.sourcedId
    requires saved.enrollments == db.enrollments[id := row]
    requires saved == db.(enrollments := saved.enrollments, nextId := saved.nextId)
    requires Map(h, saved, EnrollmentRow, id, EnrollmentFeed, e.sourcedId).ok
    ensures EnrollmentCarried(h, Map(h, saved, EnrollmentRow, id, EnrollmentFeed, e.sourcedId).db, other)
  {
    hide Injective, Map, LocalIdOf, EnrollmentRole, FindExternal;
    var after := Map(h, saved, EnrollmentRow, id, EnrollmentFeed, e.sourcedId).db;
    MapFacts(h, saved, EnrollmentRow, id, EnrollmentFeed, e.sourcedId);
    MapAside(h, saved, EnrollmentRow, id, EnrollmentFeed, e.sourcedId, UserFeed, other.user);
    MapAside(h, saved, EnrollmentRow, id, EnrollmentFeed, e.sourcedId, ClassFeed, other.klass);
    assert Mapped(h, saved, EnrollmentRow, EnrollmentFeed, other.sourcedId);
    DistinctRows(h, after, EnrollmentRow, EnrollmentFeed, e.sourcedId, other.sourcedId);
  }

  predicate DistinctEnrollments(es: seq<EnrollmentEntry>) {
    forall i, j | 0 <= i < j < |es| :: es[i].sourcedId != es[j].sourcedId
  }

  lemma InitDistinctEnrollmentEntry(es: seq<EnrollmentEntry>)
    requires DistinctEnrollments(es) && es != []
    ensures DistinctEnrollments(es[..|es| - 1])
    ensures forall o | o in es[..|es| - 1] :: o.sourcedId != es[|es| - 1].sourcedId
  {
  }

  lemma EnrollmentStepAll(h: Host, db: Db, e: EnrollmentEntry, others: seq<EnrollmentEntry>)
    requires Wf(db) && SyncEnrollment(h, db, e).ok
    requires forall o | o in others :: EnrollmentCarried(h, db, o) && o.sourcedId != e.sourcedId
    ensures forall o | o in others + [e] :: EnrollmentCarried(h, SyncEnrollment(h, db, e).db, o)
  {
    hide EnrollmentCarried, SyncEnrollment, Wf;
    EnrollmentStep(h, db, e, e);
    forall o | o in others ensures EnrollmentCarried(h, SyncEnrollment(h, db, e).db, o) {
      EnrollmentStep(h, db, e, o);
    }
  }

  function EnrollmentRecords(es: seq<EnrollmentEntry>): seq<Record> {
    seq(|es|, i requires 0 <= i < |es| => OfEnrollment(es[i]))
  }

  lemma LastEnrollmentEntry(h: Host, s: State, es: seq<EnrollmentEntry>)
    requires es != []
    ensures
      var before := Sync(h, s, EnrollmentRecords(es[..|es| - 1]));
      var o := SyncEnrollment(h, before.db, es[|es| - 1]);
      Sync(h, s, EnrollmentRecords(es)) == State(o.db, Counted(before.run, o.ok))
  {
    hide Sync, Process, SyncEnrollment;
    var init, e := es[..|es| - 1], es[|es| - 1];
    assert EnrollmentRecords(es) == EnrollmentRecords(init) + [OfEnrollment(e)];
    var t := Sync(h, s, EnrollmentRecords(init));
    SyncLast(h, s, EnrollmentRecords(init), OfEnrollment(e));
    ProcessPerson(h, t, UserEntry("", None, None, None, ""), e);
  }

  lemma {:induction false} EnrollmentsConverge(h: Host, s: State, es: seq<EnrollmentEntry>)
    requires Wf(s.db) && DistinctEnrollments(es) && Sync(h, s, EnrollmentRecords(es)).run.failed == s.run.failed
    ensures forall e | e in es :: EnrollmentCarried(h, Sync(h, s, EnrollmentRecords(es)).db, e)
  {
    if es != [] {
      hide Sync, SyncEnrollment, EnrollmentRecords, EnrollmentCarried, Wf, DistinctEnrollments;
      var init, e := es[..|es| - 1], es[|es| - 1];
      LastEnrollmentEntry(h, s, es);
      InitDistinctEnrollmentEntry(es);
      SyncKeepsWf(h, s, EnrollmentRecords(init));
      EnrollmentsConverge(h, s, init);
      EnrollmentStepAll(h, Sync(h, s, EnrollmentRecords(init)).db, e, init);
      assert init + [e] == es;
    }
  }

  lemma EnrollmentAgain(h: Host, db: Db, e: EnrollmentEntry)
    requires Wf(db) && EnrollmentCarried(h, db, e)
    ensures SyncEnrollment(h, db, e) == Outcome(db, true)
  {
    var id := RowOf(h, db, EnrollmentFeed, e.sourcedId);
    var row := db.enrollments[id];
    assert ExistingEnrollment(db, row.user, row.section) == Some(id);
    assert db.enrollments[id := row] == db.enrollments;
    var i := FindExternal(db.mappings, h.config, EnrollmentFeed, e.sourcedId).value;
    assert db.mappings[i] == Mapping(h.config, EnrollmentRow, id, EnrollmentFeed, e.sourcedId);
    hide Injective;
    UpsertAgain(db.mappings, Mapping(h.config, EnrollmentRow, id, EnrollmentFeed, e.sourcedId));
  }

  lemma {:induction false} EnrollmentsRerun(h: Host, s: State, es: seq<EnrollmentEntry>)
    requires Wf(s.db) && forall e | e in es :: EnrollmentCarried(h, s.db, e)
    ensures
      var t := Sync(h, s, EnrollmentRecords(es));
      t.db == s.db && t.run == Counters(s.run.processed + |es|, s.run.succeeded + |es|, s.run.failed)
  {
    if es == [] {
      SyncConcat(h, s, [], []);
    } else {
      hide Sync, SyncEnrollment, EnrollmentRecords, EnrollmentCarried, Wf;
      var init := es[..|es| - 1];
      LastEnrollmentEntry(h, s, es);
      assert forall o | o in init :: o in es;
      EnrollmentsRerun(h, s, init);
      EnrollmentAgain(h, s.db, es[|es| - 1]);
    }
  }

  lemma EnrollmentSyncIdempotent(h: Host, s: State, es: seq<EnrollmentEntry>)
    requires Wf(s.db) && DistinctEnrollments(es) && Sync(h, s, EnrollmentRecords(es)).run.failed == s.run.failed
    ensures
      var once := Sync(h, s, EnrollmentRecords(es));
      var twice := Sync(h, once, EnrollmentRecords(es));
      twice.db == once.db && twice.run.failed == once.run.failed
  {
    SyncKeepsWf(h, s, EnrollmentRecords(es));
    EnrollmentsConverge(h, s, es);
    EnrollmentsRerun(h, Sync(h, s, EnrollmentRecords(es)), es);
  }

  // ----- what one successful record of the other kinds leaves behind

  /** Mapping a row again to the id it is mapped to changes nothing. */
  lemma MapAgain(h: Host, db: Db, local: LocalType, id: nat, kind: ExternalType, external: string)
    requires Injective(db.mappings) && Map(h, db, local, id, kind, external).ok
    ensures
      var after := Map(h, db, local, id, kind, external).db;
      LocalIdOf(after.mappings, h.config, kind, external) == Some(id)
      && Map(h, after, local, id, kind, external) == Outcome(after, true)
  {
    var m := Mapping(h.config, local, id, kind, external);
    UpsertKeepsInjective(db.mappings, m);
    UpsertAgain(Upsert(db.mappings, m).value, m);
  }

  predicate Given(field: Option<string>, value: string) { Presence(field).Some? ==> field == Some(value) }

  function SchoolOf(e: OrgEntry): School { School(OrElse(e.name, "Imported School"), OrElse(e.identifier, "UTC")) }

  /** The row a school record saves, and where it is mapped. */
  lemma OrgSaved(h: Host, db: Db, e: OrgEntry) returns (id: nat, saved: Db)
    ensures saved.schools == db.schools[id := SchoolOf(e)] && saved.mappings == db.mappings
    ensures SyncOrg(h, db, e) == Map(h, saved, SchoolRow, id, OrgFeed, e.sourcedId)
    ensures
      var mapped := LocalIdOf(db.mappings, h.config, OrgFeed, e.sourcedId);
      mapped.Some? && mapped.value in db.schools ==> mapped == Some(id) && saved == db.(schools := saved.schools)
  {
    hide Map, LocalIdOf, Blank;
    var mapped := LocalIdOf(db.mappings, h.config, OrgFeed, e.sourcedId);
    var isNew := mapped.None? || mapped.value !in db.schools;
    id := if isNew then db.nextId else mapped.value;
    saved := db.(schools := db.schools[id := SchoolOf(e)], nextId := if isNew then db.nextId + 1 else db.nextId);
  }

  /** A school record is mapped to a school carrying it, touches no other school, and again changes nothing. */
  lemma OrgStep(h: Host, db: Db, e: OrgEntry)
    requires Injective(db.mappings) && SyncOrg(h, db, e).ok
    ensures
      var after := SyncOrg(h, db, e).db;
      && Mapped(h, after, SchoolRow, OrgFeed, e.sourcedId)
      && var id := RowOf(h, after, OrgFeed, e.sourcedId);
         && id in after.schools && after.schools - {id} == db.schools - {id}
         && Given(e.name, after.schools[id].name) && Given(e.identifier, after.schools[id].timezone)
         && SyncOrg(h, after, e) == Outcome(after, true)
  {
    hide Map, SyncOrg, LocalIdOf, Injective;
    var id, saved := OrgSaved(h, db, e);
    MappedHere(h, saved, SchoolRow, id, OrgFeed, e.sourcedId);
    MapAgain(h, saved, SchoolRow, id, OrgFeed, e.sourcedId);
    var after := SyncOrg(h, db, e).db;
    var again, savedAgain := OrgSaved(h, after, e);
    assert after.schools[id := SchoolOf(e)] == after.schools;
    assert savedAgain == after;
  }

  /** The dates of a session in the order they are given, always at least a day long. */
  predicate CarriesDates(e: SessionEntry, from: int, until: int) {
    && from < until && (e.startDate.Some? ==> from == e.startDate.value)
    && (e.endDate.Some? ==> until == if e.endDate.value > from then e.endDate.value else from + 1)
  }

  function YearOf(h: Host, e: SessionEntry): Year {
    var (from, until) := Dates(h, e, 365);
    Year(OrElse(e.title, "Imported School Year"), from, until)
  }

  lemma DatesCarried(h: Host, e: SessionEntry, length: nat)
    ensures var (from, until) := Dates(h, e, length); CarriesDates(e, from, until)
  {
  }

  lemma YearOfCarries(h: Host, e: SessionEntry)
    ensures Given(e.title, YearOf(h, e).name) && CarriesDates(e, YearOf(h, e).startDate, YearOf(h, e).endDate)
  {
    hide Blank;
  }

  /** The row a school year record saves, and where it is mapped. */
  lemma YearSaved(h: Host, db: Db, e: SessionEntry) returns (id: nat, saved: Db)
    ensures saved.years == db.years[id := YearOf(h, e)] && saved.mappings == db.mappings
    ensures SyncYear(h, db, e) == Map(h, saved, YearRow, id, SessionFeed, e.sourcedId)
    ensures
      var mapped := LocalIdOf(db.mappings, h.config, SessionFeed, e.sourcedId);
      mapped.Some? && mapped.value in db.years ==> mapped == Some(id) && saved == db.(years := saved.years)
  {
    hide Map, LocalIdOf, Dates;
    var mapped := LocalIdOf(db.mappings, h.config, SessionFeed, e.sourcedId);
    var isNew := mapped.None? || mapped.value !in db.years;
    id := if isNew then db.nextId else mapped.value;
    saved := db.(years := db.years[id := YearOf(h, e)], nextId := if isNew then db.nextId + 1 else db.nextId);
  }

  /** A school year record likewise. */
  lemma YearStep(h: Host, db: Db, e: SessionEntry)
    requires Injective(db.mappings) && SyncYear(h, db, e).ok
    ensures
      var after := SyncYear(h, db, e).db;
      && Mapped(h, after, YearRow, SessionFeed, e.sourcedId)
      && var id := RowOf(h, after, SessionFeed, e.sourcedId);
         && id in after.years && after.years - {id} == db.years - {id}
         && Given(e.title, after.years[id].name) && CarriesDates(e, after.years[id].startDate, after.years[id].endDate)
         && SyncYear(h, after, e) == Outcome(after, true)
  {
    YearOfCarries(h, e);
    hide Map, SyncYear, LocalIdOf, Injective, CarriesDates, YearOf, Given;
    var id, saved := YearSaved(h, db, e);
    MappedHere(h, saved, YearRow, id, SessionFeed, e.sourcedId);
    MapAgain(h, saved, YearRow, id, SessionFeed, e.sourcedId);
    var after := SyncYear(h, db, e).db;
    assert after.years == saved.years;
    var again, savedAgain := YearSaved(h, after, e);
    assert again == id && after.years[id := YearOf(h, e)] == after.years;
    assert savedAgain == after;
  }

  lemma ParentYearFound(h: Host, db: Db, e: SessionEntry, from: int, until: int)
    ensures
      var (after, year) := ParentYear(h, db, e, from, until);
      var parent := LocalIdOf(db.mappings, h.config, SessionFeed, e.parent);
      && after == db.(years := after.years, nextId := after.nextId)
      && year in after.years && db.years.Keys <= after.years.Keys && db.nextId <= after.nextId
      && (!Blank(e.parent) && parent.Some? && parent.value in db.years ==> year == parent.value)
  {
    hide LocalIdOf, Blank;
  }

  /** The row a term record saves, its year, and where it is mapped. */
  lemma TermSaved(h: Host, db: Db, e: SessionEntry) returns (id: nat, row: Term, saved: Db)
    ensures saved.terms == db.terms[id := row] && saved.mappings == db.mappings && db.nextId <= saved.nextId
    ensures id < saved.nextId || LocalIdOf(db.mappings, h.config, SessionFeed, e.sourcedId) == Some(id)
    ensures SyncTerm(h, db, e) == Map(h, saved, TermRow, id, SessionFeed, e.sourcedId)
    ensures db.years.Keys <= saved.years.Keys && row.year in saved.years
    ensures Given(e.title, row.name) && CarriesDates(e, row.startDate, row.endDate)
    ensures
      var parent := LocalIdOf(db.mappings, h.config, SessionFeed, e.parent);
      !Blank(e.parent) && parent.Some? && parent.value in db.years ==> row.year == parent.value
  {
    DatesCarried(h, e, 120);
    hide Map, Blank, LocalIdOf, Dates, ParentYear, CarriesDates;
    var (from, until) := Dates(h, e, 120);
    var (db1, year) := ParentYear(h, db, e, from, until);
    ParentYearFound(h, db, e, from, until);
    var mapped := LocalIdOf(db.mappings, h.config, SessionFeed, e.sourcedId);
    var isNew := mapped.None? || mapped.value !in db1.terms;
    id := if isNew then db1.nextId else mapped.value;
    row := Term(year, OrElse(e.title, "Imported Term"), from, until);
    saved := db1.(terms := db1.terms[id := row], nextId := if isNew then db1.nextId + 1 else db1.nextId);
  }

  /** A term record is mapped to a term carrying it, in a year that exists: its parent's when that is known. */
  lemma TermStep(h: Host, db: Db, e: SessionEntry)
    requires Injective(db.mappings) && SyncTerm(h, db, e).ok
    ensures
      var after := SyncTerm(h, db, e).db;
      var parent := LocalIdOf(db.mappings, h.config, SessionFeed, e.parent);
      && Mapped(h, after, TermRow, SessionFeed, e.sourcedId)
      && var id := RowOf(h, after, SessionFeed, e.sourcedId);
         && id in after.terms && after.terms - {id} == db.terms - {id} && db.years.Keys <= after.years.Keys
         && Given(e.title, after.terms[id].name) && CarriesDates(e, after.terms[id].startDate, after.terms[id].endDate)
         && after.terms[id].year in after.years
         && (!Blank(e.parent) && parent.Some? && parent.value in db.years ==> after.terms[id].year == parent.value)
  {
    hide Map, SyncTerm, LocalIdOf, Injective, Blank, CarriesDates, Given;
    var id, row, saved := TermSaved(h, db, e);
    MappedHere(h, saved, TermRow, id, SessionFeed, e.sourcedId);
  }

  predicate Placed(db: Db, row: Section) {
    && row.course in db.courses && row.term in db.terms
    && db.courses[row.course].year == db.terms[row.term].year
  }

  lemma TermResolved(h: Host, db: Db, e: ClassEntry)
    ensures
      var (after, term) := ResolveTerm(h, db, e);
      term in after.terms && after == db.(years := after.years, terms := after.terms, nextId := after.nextId)
  {
    hide LocalIdOf, Blank;
  }

  /** The course a class is put in: the one of that name in the year, else a new one. */
  lemma CourseResolved(h: Host, db: Db, e: ClassEntry, year: nat)
    ensures
      var (after, course) := ResolveCourse(h, db, e, year);
      && after == db.(courses := after.courses, nextId := after.nextId)
      && course in after.courses && after.courses[course].year == year && Given(e.title, after.courses[course].name)
      && (ResolveSchool(h, db, e).Some? ==> after.courses[course].school == ResolveSchool(h, db, e))
  {
    hide ResolveSchool, Blank;
    var name := OrElse(e.title, OrElse(e.classCode, "Imported Course"));
    var found := set id | id in db.courses && db.courses[id].year == year && db.courses[id].name == name;
    assert found != {} ==> Least(found) in found;
  }

  lemma SectionSaved(h: Host, db: Db, e: ClassEntry, course: nat, term: nat) returns (id: nat, saved: Db, row: Section)
    ensures saved == db.(sections := db.sections[id := row], nextId := saved.nextId)
    ensures SaveSection(h, db, e, course, term) == Map(h, saved, SectionRow, id, ClassFeed, e.sourcedId)
    ensures row.course == course && row.term == term && Given(e.title, row.name)
  {
    hide LocalIdOf, Map, Blank;
    var mapped := LocalIdOf(db.mappings, h.config, ClassFeed, e.sourcedId);
    var isNew := mapped.None? || mapped.value !in db.sections;
    id := if isNew then db.nextId else mapped.value;
    row := Section(course, term, OrElse(e.title, OrElse(e.classCode, "Imported Section")));
    saved := db.(sections := db.sections[id := row], nextId := if isNew then db.nextId + 1 else db.nextId);
  }

  /** A class record is mapped to a section whose course exists and lies in the year of its term; the
      course carries the class's school when that is known. */
  lemma ClassStep(h: Host, db: Db, e: ClassEntry)
    requires Injective(db.mappings) && SyncClass(h, db, e).ok
    ensures
      var after := SyncClass(h, db, e).db;
      && Mapped(h, after, SectionRow, ClassFeed, e.sourcedId)
      && var id := RowOf(h, after, ClassFeed, e.sourcedId);
         && id in after.sections && after.sections - {id} == db.sections - {id}
         && Placed(after, after.sections[id]) && Given(e.title, after.sections[id].name)
         && Given(e.title, after.courses[after.sections[id].course].name)
         && (ResolveSchool(h, db, e).Some? ==>
             after.courses[after.sections[id].course].school == ResolveSchool(h, db, e))
  {
    hide Map, ResolveTerm, ResolveCourse, SaveSection, LocalIdOf, Injective, Given;
    var (db1, term) := ResolveTerm(h, db, e);
    TermResolved(h, db, e);
    var (db2, course) := ResolveCourse(h, db1, e, db1.terms[term].year);
    CourseResolved(h, db1, e, db1.terms[term].year);
    var id, saved, row := SectionSaved(h, db2, e, course, term);
    MappedHere(h, saved, SectionRow, id, ClassFeed, e.sourcedId);
  }
}
