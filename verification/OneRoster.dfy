/** OneRoster syncs: per-record upserts with error isolation and no transaction, a mapping table
    unique in both directions, and run counters. */
module OneRoster {
  import opened Wrappers
  import opened Text

  // ----- the mapping table

  datatype LocalType = SchoolRow | YearRow | TermRow | UserRow | SectionRow | EnrollmentRow

  datatype ExternalType = OrgFeed | SessionFeed | UserFeed | ClassFeed | EnrollmentFeed

  datatype Mapping = Mapping(
    config: nat, localType: LocalType, localId: nat, externalType: ExternalType, externalId: string)

  predicate SameLocal(a: Mapping, b: Mapping) {
    a.config == b.config && a.localType == b.localType && a.localId == b.localId
  }

  predicate SameExternal(a: Mapping, b: Mapping) {
    a.config == b.config && a.externalType == b.externalType && a.externalId == b.externalId
  }

  /** Injective in both directions per config and type, with no blank external id. */
  predicate Injective(ms: seq<Mapping>) {
    && (forall i, j | 0 <= i < j < |ms| :: !SameLocal(ms[i], ms[j]) && !SameExternal(ms[i], ms[j]))
    && (forall i | 0 <= i < |ms| :: !Blank(ms[i].externalId))
  }

  /** `find_external`: the row of an external id. */
  function FindExternal(ms: seq<Mapping>, config: nat, kind: ExternalType, id: string): (r: Option<nat>)
    ensures r.Some? ==> r.value < |ms| && ms[r.value].config == config && ms[r.value].externalType == kind
                        && ms[r.value].externalId == id
    ensures r.None? ==> forall i | 0 <= i < |ms| ::
                          !(ms[i].config == config && ms[i].externalType == kind && ms[i].externalId == id)
  {
    if ms == [] then None
    else
      var last := ms[|ms| - 1];
      var before := FindExternal(ms[..|ms| - 1], config, kind, id);
      if before.Some? then before
      else if last.config == config && last.externalType == kind && last.externalId == id then Some(|ms| - 1)
      else None
  }

  function LocalIdOf(ms: seq<Mapping>, config: nat, kind: ExternalType, id: string): Option<nat> {
    var i := FindExternal(ms, config, kind, id);
    if i.None? then None else Some(ms[i.value].localId)
  }

  /** The model's validations for a row that replaces index `at`, or is new when `at` is past the end. */
  predicate Acceptable(ms: seq<Mapping>, at: nat, m: Mapping) {
    !Blank(m.externalId) && forall k | 0 <= k < |ms| && k != at :: !SameLocal(ms[k], m) && !SameExternal(ms[k], m)
  }

  /** `upsert_mapping!`; `None` when the row is invalid. */
  function Upsert(ms: seq<Mapping>, m: Mapping): Option<seq<Mapping>> {
    var found := FindExternal(ms, m.config, m.externalType, m.externalId);
    var at := if found.Some? then found.value else |ms|;
    if !Acceptable(ms, at, m) then None
    else if found.Some? then Some(ms[at := m])
    else Some(ms + [m])
  }

  lemma OneRowPerExternal(ms: seq<Mapping>, i: nat, j: nat)
    requires Injective(ms) && i < |ms| && j < |ms| && SameExternal(ms[i], ms[j])
    ensures i == j
  {
    assert SameExternal(ms[j], ms[i]);
  }

  lemma UpsertKeepsInjective(ms: seq<Mapping>, m: Mapping)
    requires Injective(ms) && Upsert(ms, m).Some?
    ensures Injective(Upsert(ms, m).value)
    ensures LocalIdOf(Upsert(ms, m).value, m.config, m.externalType, m.externalId) == Some(m.localId)
    ensures forall config, kind, id | config != m.config || kind != m.externalType || id != m.externalId ::
              LocalIdOf(Upsert(ms, m).value, config, kind, id) == LocalIdOf(ms, config, kind, id)
    ensures m in Upsert(ms, m).value
  {
    var after := Upsert(ms, m).value;
    var found := FindExternal(ms, m.config, m.externalType, m.externalId);
    var at := if found.Some? then found.value else |ms|;
    assert Injective(after);
    assert after[at] == m && forall k | 0 <= k < |ms| && k != at :: after[k] == ms[k];
    var again := FindExternal(after, m.config, m.externalType, m.externalId);
    assert again.Some? && SameExternal(after[again.value], m);
    OneRowPerExternal(after, again.value, at);
    forall config, kind, id | config != m.config || kind != m.externalType || id != m.externalId
      ensures LocalIdOf(after, config, kind, id) == LocalIdOf(ms, config, kind, id)
    {
      var i, j := FindExternal(ms, config, kind, id), FindExternal(after, config, kind, id);
      if i.Some? {
        assert after[i.value] == ms[i.value] && j.Some? && SameExternal(after[j.value], after[i.value]);
        OneRowPerExternal(after, j.value, i.value);
      }
      if j.Some? {
        assert after[j.value] == ms[j.value];
      }
    }
  }

  /** Mapping a feed entry to the row it is already mapped to changes nothing. */
  lemma UpsertAgain(ms: seq<Mapping>, m: Mapping)
    requires Injective(ms) && m in ms
    ensures Upsert(ms, m) == Some(ms)
  {
    var at :| 0 <= at < |ms| && ms[at] == m;
    var found := FindExternal(ms, m.config, m.externalType, m.externalId);
    assert found.Some? && SameExternal(ms[found.value], ms[at]);
    OneRowPerExternal(ms, found.value, at);
    assert ms[at := m] == ms;
  }

  /** Two external ids of a kind never share a local row. */
  lemma DistinctLocals(ms: seq<Mapping>, config: nat, kind: ExternalType, id: string, id': string)
    requires Injective(ms) && id != id'
    requires LocalIdOf(ms, config, kind, id).Some? && LocalIdOf(ms, config, kind, id').Some?
    requires ms[FindExternal(ms, config, kind, id).value].localType
        == ms[FindExternal(ms, config, kind, id').value].localType
    ensures LocalIdOf(ms, config, kind, id) != LocalIdOf(ms, config, kind, id')
  {
    var i, j := FindExternal(ms, config, kind, id).value, FindExternal(ms, config, kind, id').value;
    assert i < j || j < i;
  }

  // ----- rows and feeds

  datatype User = User(email: string, firstName: Option<string>, lastName: Option<string>, roles: set<string>)

  datatype School = School(name: string, timezone: string)

  datatype Year = Year(name: string, startDate: int, endDate: int)

  datatype Term = Term(year: nat, name: string, startDate: int, endDate: int)

  datatype Course = Course(year: nat, name: string, school: Option<nat>)

  datatype Section = Section(course: nat, term: nat, name: string)

  datatype Enrollment = Enrollment(user: nat, section: nat, role: string)

  datatype Db = Db(
    users: map<nat, User>, schools: map<nat, School>, years: map<nat, Year>, terms: map<nat, Term>,
    courses: map<nat, Course>, sections: map<nat, Section>, enrollments: map<nat, Enrollment>,
    mappings: seq<Mapping>, nextId: nat)

  /** The sync's surroundings: its config, the e-mail format check, today's date, and which row the
      database returns last by start date. */
  datatype Host = Host(
    config: nat, emailOk: string -> bool, downcase: string -> string, today: int, yearBounds: (int, int),
    lastYear: map<nat, Year> -> Option<nat>, lastTerm: map<nat, Term> -> Option<nat>)

  datatype UserEntry = UserEntry(
    sourcedId: string, email: Option<string>, givenName: Option<string>, familyName: Option<string>, role: string)

  datatype OrgEntry = OrgEntry(sourcedId: string, name: Option<string>, identifier: Option<string>)

  datatype SessionKind = SchoolYear | TermLike | OtherSession

  /** An academic session, its dates parsed. */
  datatype SessionEntry = SessionEntry(
    sourcedId: string, kind: SessionKind, title: Option<string>, startDate: Option<int>, endDate: Option<int>,
    parent: string)

  datatype ClassEntry = ClassEntry(
    sourcedId: string, title: Option<string>, classCode: Option<string>, term: string, school: string)

  datatype EnrollmentEntry = EnrollmentEntry(sourcedId: string, role: string, user: string, klass: string)

  datatype Record =
    | OfOrg(org: OrgEntry)
    | OfSession(session: SessionEntry)
    | OfUser(user: UserEntry)
    | OfClass(klass: ClassEntry)
    | OfEnrollment(enrollment: EnrollmentEntry)

  /** What a record's block leaves behind, and whether it ran to its end. */
  datatype Outcome = Outcome(db: Db, ok: bool)

  function OrElse(a: Option<string>, b: string): string { if Presence(a).Some? then a.value else b }

  predicate IsLeast(s: set<nat>, m: nat) { m in s && forall x | x in s :: m <= x }

  /** The least id in a set: what `first` and `find_by` return. */
  function Least(s: set<nat>): (m: nat)
    requires s != {}
    ensures m in s
  {
    LeastExists(s);
    assert forall m, n | IsLeast(s, m) && IsLeast(s, n) :: m == n;
    var m :| IsLeast(s, m);
    m
  }

  lemma {:induction false} LeastExists(s: set<nat>)
    requires s != {}
    ensures exists m :: IsLeast(s, m)
  {
    var y :| y in s;
    var rest := s - {y};
    var least := y;
    if rest != {} {
      LeastExists(rest);
      var m :| IsLeast(rest, m);
      least := if y <= m then y else m;
    }
    forall x | x in s
      ensures least <= x
    {
      assert x == y || x in rest;
    }
    assert IsLeast(s, least);
  }

  function Map(h: Host, db: Db, local: LocalType, id: nat, kind: ExternalType, external: string): Outcome {
    var after := Upsert(db.mappings, Mapping(h.config, local, id, kind, external));
    if after.Some? then Outcome(db.(mappings := after.value), true) else Outcome(db, false)
  }

  // ----- users

  function UserRole(h: Host, role: string): Option<string> {
    var r := h.downcase(role);
    if r == "teacher" then Some("teacher") else if r == "student" then Some("student")
    else if r == "administrator" then Some("admin") else None
  }

  /** The existing row for a feed entry: the mapped one, else the one with its e-mail. */
  function ExistingUser(h: Host, db: Db, e: UserEntry, email: string): (r: Option<nat>)
    ensures r.Some? ==> r.value in db.users
    ensures r.None? ==> forall id | id in db.users :: db.users[id].email != email
  {
    var mapped := LocalIdOf(db.mappings, h.config, UserFeed, e.sourcedId);
    if mapped.Some? && mapped.value in db.users then mapped
    else
      var byEmail := set id | id in db.users && db.users[id].email == email;
      assert forall id | id in db.users && db.users[id].email == email :: id in byEmail;
      if byEmail != {} then Some(Least(byEmail)) else None
  }

  function NamedUser(db: Db, id: Option<nat>, e: UserEntry, email: string): User {
    var old_ := if id.Some? && id.value in db.users then db.users[id.value] else User(email, None, None, {});
    User(email,
      Some(OrElse(e.givenName, if old_.firstName.Some? then old_.firstName.value else "First")),
      Some(OrElse(e.familyName, if old_.lastName.Some? then old_.lastName.value else "Last")),
      old_.roles)
  }

  predicate UserValid(h: Host, db: Db, id: nat, u: User) {
    h.emailOk(u.email) && !Blank(u.email) && forall k | k in db.users && k != id :: db.users[k].email != u.email
  }

  function WithRole(h: Host, u: User, role: string): User {
    if UserRole(h, role).Some? then u.(roles := u.roles + {UserRole(h, role).value}) else u
  }

  function SyncUser(h: Host, db: Db, e: UserEntry): Outcome {
    var email := Presence(e.email);
    if email.None? then Outcome(db, false) else
    var existing := ExistingUser(h, db, e, email.value);
    var id := if existing.Some? then existing.value else db.nextId;
    var u := NamedUser(db, existing, e, email.value);
    if !UserValid(h, db, id, u) then Outcome(db, false) else
    var saved := db.(users := db.users[id := WithRole(h, u, e.role)],
                     nextId := if existing.Some? then db.nextId else db.nextId + 1);
    Map(h, saved, UserRow, id, UserFeed, e.sourcedId)
  }

  // ----- enrolments

  function EnrollmentRole(h: Host, role: string): Option<string> {
    var r := h.downcase(role);
    if r == "teacher" then Some("teacher") else if r == "student" then Some("student") else None
  }

  function ExistingEnrollment(db: Db, user: nat, section: nat): (r: Option<nat>)
    ensures r.Some? ==> r.value in db.enrollments && db.enrollments[r.value].user == user
                        && db.enrollments[r.value].section == section
    ensures r.None? ==> forall id | id in db.enrollments ::
                          !(db.enrollments[id].user == user && db.enrollments[id].section == section)
  {
    var found := set id |
      id in db.enrollments && db.enrollments[id].user == user && db.enrollments[id].section == section;
    assert forall id |
      id in db.enrollments && db.enrollments[id].user == user && db.enrollments[id].section == section ::
        id in found;
    if found != {} then Some(Least(found)) else None
  }

  function SyncEnrollment(h: Host, db: Db, e: EnrollmentEntry): Outcome {
    var role := EnrollmentRole(h, e.role);
    var user := LocalIdOf(db.mappings, h.config, UserFeed, e.user);
    var section := LocalIdOf(db.mappings, h.config, ClassFeed, e.klass);
    if role.None? || user.None? || section.None? || user.value !in db.users || section.value !in db.sections then
      Outcome(db, false)
    else
      var existing := ExistingEnrollment(db, user.value, section.value);
      var id := if existing.Some? then existing.value else db.nextId;
      var saved := db.(enrollments := db.enrollments[id := Enrollment(user.value, section.value, role.value)],
                       nextId := if existing.Some? then db.nextId else db.nextId + 1);
      Map(h, saved, EnrollmentRow, id, EnrollmentFeed, e.sourcedId)
  }

  // ----- schools, academic sessions and classes

  function SyncOrg(h: Host, db: Db, e: OrgEntry): Outcome {
    var mapped := LocalIdOf(db.mappings, h.config, OrgFeed, e.sourcedId);
    var isNew := mapped.None? || mapped.value !in db.schools;
    var id := if isNew then db.nextId else mapped.value;
    var saved := db.(
      schools := db.schools[id := School(OrElse(e.name, "Imported School"), OrElse(e.identifier, "UTC"))],
      nextId := if isNew then db.nextId + 1 else db.nextId);
    Map(h, saved, SchoolRow, id, OrgFeed, e.sourcedId)
  }

  /** The dates of a session, the end moved after the start. */
  function Dates(h: Host, e: SessionEntry, length: int): (int, int) {
    var from := if e.startDate.Some? then e.startDate.value else h.today;
    var until := if e.endDate.Some? then e.endDate.value else from + length;
    (from, if until <= from then from + 1 else until)
  }

  function SyncYear(h: Host, db: Db, e: SessionEntry): Outcome {
    var mapped := LocalIdOf(db.mappings, h.config, SessionFeed, e.sourcedId);
    var isNew := mapped.None? || mapped.value !in db.years;
    var id := if isNew then db.nextId else mapped.value;
    var (from, until) := Dates(h, e, 365);
    var saved := db.(
      years := db.years[id := Year(OrElse(e.title, "Imported School Year"), from, until)],
      nextId := if isNew then db.nextId + 1 else db.nextId);
    Map(h, saved, YearRow, id, SessionFeed, e.sourcedId)
  }

  /** A year to put a term in: the parent session's, else the last one, else a new one. */
  function ParentYear(h: Host, db: Db, e: SessionEntry, from: int, until: int): (Db, nat) {
    var parent := LocalIdOf(db.mappings, h.config, SessionFeed, e.parent);
    if !Blank(e.parent) && parent.Some? && parent.value in db.years then (db, parent.value)
    else if h.lastYear(db.years).Some? && h.lastYear(db.years).value in db.years then (db, h.lastYear(db.years).value)
    else
      (db.(years := db.years[db.nextId := Year("Imported Academic Year", from, until + 180)], nextId := db.nextId + 1),
       db.nextId)
  }

  function SyncTerm(h: Host, db: Db, e: SessionEntry): Outcome {
    var (from, until) := Dates(h, e, 120);
    var (db1, year) := ParentYear(h, db, e, from, until);
    var mapped := LocalIdOf(db.mappings, h.config, SessionFeed, e.sourcedId);
    var isNew := mapped.None? || mapped.value !in db1.terms;
    var id := if isNew then db1.nextId else mapped.value;
    var saved := db1.(
      terms := db1.terms[id := Term(year, OrElse(e.title, "Imported Term"), from, until)],
      nextId := if isNew then db1.nextId + 1 else db1.nextId);
    Map(h, saved, TermRow, id, SessionFeed, e.sourcedId)
  }

  function SyncSession(h: Host, db: Db, e: SessionEntry): Outcome {
    match e.kind
    case SchoolYear => SyncYear(h, db, e)
    case TermLike => SyncTerm(h, db, e)
    case OtherSession => Outcome(db, true)
  }

  /** The term of a class: the mapped one, else the last one, else a new one in the last or a new year. */
  function ResolveTerm(h: Host, db: Db, e: ClassEntry): (r: (Db, nat))
    ensures r.1 in r.0.terms && SamePeople(db, r.0)
  {
    var mapped := LocalIdOf(db.mappings, h.config, SessionFeed, e.term);
    if !Blank(e.term) && mapped.Some? && mapped.value in db.terms then (db, mapped.value)
    else if h.lastTerm(db.terms).Some? && h.lastTerm(db.terms).value in db.terms then (db, h.lastTerm(db.terms).value)
    else
      var (first, last) := h.yearBounds;
      var (db1, year) :=
        if h.lastYear(db.years).Some? && h.lastYear(db.years).value in db.years then (db, h.lastYear(db.years).value)
        else
          (db.(years := db.years[db.nextId := Year("Imported Academic Year", first, last)], nextId := db.nextId + 1),
           db.nextId);
      (db1.(terms := db1.terms[db1.nextId := Term(year, "Imported Term", first, last)], nextId := db1.nextId + 1),
       db1.nextId)
  }

  function ResolveSchool(h: Host, db: Db, e: ClassEntry): Option<nat> {
    var mapped := LocalIdOf(db.mappings, h.config, OrgFeed, e.school);
    if !Blank(e.school) && mapped.Some? && mapped.value in db.schools then mapped else None
  }

  /** The course of a class, by year and name, given the class's school when that is known. */
  function ResolveCourse(h: Host, db: Db, e: ClassEntry, year: nat): (Db, nat) {
    var school := ResolveSchool(h, db, e);
    var name := OrElse(e.title, OrElse(e.classCode, "Imported Course"));
    var found := set id | id in db.courses && db.courses[id].year == year && db.courses[id].name == name;
    var course := if found != {} then Least(found) else db.nextId;
    var row := if found != {} then db.courses[course] else Course(year, name, None);
    (db.(
      courses := db.courses[course := if school.Some? then row.(school := school) else row],
      nextId := if found != {} then db.nextId else db.nextId + 1), course)
  }

  function SaveSection(h: Host, db: Db, e: ClassEntry, course: nat, term: nat): Outcome {
    var mapped := LocalIdOf(db.mappings, h.config, ClassFeed, e.sourcedId);
    var isNew := mapped.None? || mapped.value !in db.sections;
    var id := if isNew then db.nextId else mapped.value;
    var saved := db.(
      sections := db.sections[id := Section(course, term, OrElse(e.title, OrElse(e.classCode, "Imported Section")))],
      nextId := if isNew then db.nextId + 1 else db.nextId);
    Map(h, saved, SectionRow, id, ClassFeed, e.sourcedId)
  }

  function SyncClass(h: Host, db: Db, e: ClassEntry): Outcome {
    var (db1, term) := ResolveTerm(h, db, e);
    var (db2, course) := ResolveCourse(h, db1, e, db1.terms[term].year);
    SaveSection(h, db2, e, course, term)
  }

  // ----- runs

  function Body(h: Host, db: Db, r: Record): Outcome {
    match r
    case OfOrg(e) => SyncOrg(h, db, e)
    case OfSession(e) => SyncSession(h, db, e)
    case OfUser(e) => SyncUser(h, db, e)
    case OfClass(e) => SyncClass(h, db, e)
    case OfEnrollment(e) => SyncEnrollment(h, db, e)
  }

  datatype Counters = Counters(processed: nat, succeeded: nat, failed: nat)

  datatype State = State(db: Db, run: Counters)

  function Process(h: Host, s: State, r: Record): State {
    var o := Body(h, s.db, r);
    State(o.db, Counters(s.run.processed + 1,
      if o.ok then s.run.succeeded + 1 else s.run.succeeded, if o.ok then s.run.failed else s.run.failed + 1))
  }

  function Sync(h: Host, s: State, rs: seq<Record>): State {
    if rs == [] then s else Process(h, Sync(h, s, rs[..|rs| - 1]), rs[|rs| - 1])
  }

  // ----- what every sync keeps

  predicate Wf(db: Db) {
    && Injective(db.mappings)
    && (forall id | id in db.users :: id < db.nextId)
    && (forall id | id in db.enrollments :: id < db.nextId)
    && (forall a, b | a in db.users && b in db.users && a != b :: db.users[a].email != db.users[b].email)
    && (forall a, b | a in db.enrollments && b in db.enrollments && a != b ::
          !(db.enrollments[a].user == db.enrollments[b].user && db.enrollments[a].section == db.enrollments[b].section))
  }

  predicate SamePeople(a: Db, b: Db) {
    a.users == b.users && a.enrollments == b.enrollments && a.mappings == b.mappings && a.nextId <= b.nextId
  }

  lemma MapKeepsWf(h: Host, db: Db, local: LocalType, id: nat, kind: ExternalType, external: string)
    requires Wf(db)
    ensures Wf(Map(h, db, local, id, kind, external).db)
  {
    var m := Mapping(h.config, local, id, kind, external);
    if Upsert(db.mappings, m).Some? {
      UpsertKeepsInjective(db.mappings, m);
    }
    hide Injective;
  }

  lemma SyncUserKeepsWf(h: Host, db: Db, e: UserEntry)
    requires Wf(db)
    ensures Wf(SyncUser(h, db, e).db)
  {
    hide Injective, Map, Blank;
    var email := Presence(e.email);
    if email.Some? {
      var existing := ExistingUser(h, db, e, email.value);
      var id := if existing.Some? then existing.value else db.nextId;
      var u := NamedUser(db, existing, e, email.value);
      var saved := db.(users := db.users[id := WithRole(h, u, e.role)],
                       nextId := if existing.Some? then db.nextId else db.nextId + 1);
      if UserValid(h, db, id, u) {
        assert Wf(saved);
        MapKeepsWf(h, saved, UserRow, id, UserFeed, e.sourcedId);
      }
    }
  }

  lemma SyncEnrollmentKeepsWf(h: Host, db: Db, e: EnrollmentEntry)
    requires Wf(db)
    ensures Wf(SyncEnrollment(h, db, e).db)
  {
    hide Injective, Map, EnrollmentRole, LocalIdOf;
    var role := EnrollmentRole(h, e.role);
    var user := LocalIdOf(db.mappings, h.config, UserFeed, e.user);
    var section := LocalIdOf(db.mappings, h.config, ClassFeed, e.klass);
    if role.Some? && user.Some? && section.Some? && user.value in db.users && section.value in db.sections {
      var existing := ExistingEnrollment(db, user.value, section.value);
      var id := if existing.Some? then existing.value else db.nextId;
      var saved := db.(enrollments := db.enrollments[id := Enrollment(user.value, section.value, role.value)],
                       nextId := if existing.Some? then db.nextId else db.nextId + 1);
      assert Wf(saved);
      MapKeepsWf(h, saved, EnrollmentRow, id, EnrollmentFeed, e.sourcedId);
    }
  }

  lemma PeopleAside(h: Host, a: Db, b: Db, local: LocalType, id: nat, kind: ExternalType, external: string)
    requires Wf(a) && SamePeople(a, b)
    ensures Wf(Map(h, b, local, id, kind, external).db)
  {
    assert Wf(b) by { hide Injective; }
    MapKeepsWf(h, b, local, id, kind, external);
  }

  lemma SyncOrgKeepsWf(h: Host, db: Db, e: OrgEntry)
    requires Wf(db)
    ensures Wf(SyncOrg(h, db, e).db)
  {
    hide Wf, Map, LocalIdOf;
    forall b: Db, id: nat | SamePeople(db, b) ensures Wf(Map(h, b, SchoolRow, id, OrgFeed, e.sourcedId).db) {
      PeopleAside(h, db, b, SchoolRow, id, OrgFeed, e.sourcedId);
    }
  }

  lemma SyncYearKeepsWf(h: Host, db: Db, e: SessionEntry)
    requires Wf(db)
    ensures Wf(SyncYear(h, db, e).db)
  {
    hide Wf, Map, LocalIdOf, Dates;
    forall b: Db, id: nat | SamePeople(db, b) ensures Wf(Map(h, b, YearRow, id, SessionFeed, e.sourcedId).db) {
      PeopleAside(h, db, b, YearRow, id, SessionFeed, e.sourcedId);
    }
  }

  lemma SyncTermKeepsWf(h: Host, db: Db, e: SessionEntry)
    requires Wf(db)
    ensures Wf(SyncTerm(h, db, e).db)
  {
    hide Wf, Map, LocalIdOf, Dates;
    var (from, until) := Dates(h, e, 120);
    assert SamePeople(db, ParentYear(h, db, e, from, until).0);
    hide ParentYear;
    forall b: Db, id: nat | SamePeople(db, b) ensures Wf(Map(h, b, TermRow, id, SessionFeed, e.sourcedId).db) {
      PeopleAside(h, db, b, TermRow, id, SessionFeed, e.sourcedId);
    }
  }

  lemma SyncClassKeepsWf(h: Host, db: Db, e: ClassEntry)
    requires Wf(db)
    ensures Wf(SyncClass(h, db, e).db)
  {
    hide Wf, Map, LocalIdOf, OrElse;
    hide ResolveTerm;
    forall b: Db, id: nat | SamePeople(db, b) ensures Wf(Map(h, b, SectionRow, id, ClassFeed, e.sourcedId).db) {
      PeopleAside(h, db, b, SectionRow, id, ClassFeed, e.sourcedId);
    }
  }

  /** Throughout any sequence of org and user syncs, failed records included, the mapping table stays
      injective in both directions and every record is counted once as succeeded or failed. */
  lemma {:induction false} SyncKeepsWf(h: Host, s: State, rs: seq<Record>)
    requires Wf(s.db)
    ensures
      var t := Sync(h, s, rs);
      && Wf(t.db) && Injective(t.db.mappings)
      && t.run.processed == s.run.processed + |rs|
      && t.run.processed - s.run.processed == (t.run.succeeded - s.run.succeeded) + (t.run.failed - s.run.failed)
      && s.run.failed <= t.run.failed
  {
    hide SyncOrg, SyncYear, SyncTerm, SyncUser, SyncClass, SyncEnrollment;
    if rs != [] {
      var init, r := rs[..|rs| - 1], rs[|rs| - 1];
      SyncKeepsWf(h, s, init);
      var db := Sync(h, s, init).db;
      hide Injective;
      match r {
        case OfOrg(e) => SyncOrgKeepsWf(h, db, e);
        case OfSession(e) => SyncYearKeepsWf(h, db, e); SyncTermKeepsWf(h, db, e);
        case OfUser(e) => SyncUserKeepsWf(h, db, e);
        case OfClass(e) => SyncClassKeepsWf(h, db, e);
        case OfEnrollment(e) => SyncEnrollmentKeepsWf(h, db, e);
      }
    }
  }
}
