/** What each OneRoster record writes: which row, every column of it, and nothing else. */
module OneRosterRows {
  import opened Wrappers
  import opened Text
  import opened OneRoster

  /** What is left to the mapping once the row is saved. */
  predicate SavedAndMapped(h: Host, o: Outcome, saved: Db, local: LocalType, id: nat, kind: ExternalType,
      external: string) {
    var after := Upsert(saved.mappings, Mapping(h.config, local, id, kind, external));
    o == Outcome(if after.Some? then saved.(mappings := after.value) else saved, after.Some?)
  }

  lemma MapSaves(h: Host, saved: Db, local: LocalType, id: nat, kind: ExternalType, external: string)
    ensures SavedAndMapped(h, Map(h, saved, local, id, kind, external), saved, local, id, kind, external)
  {
    hide Upsert;
  }

  /** A mapping is refused iff its external id is blank or its row is another entry's; otherwise it is put in the
      place of the entry's own or at the end. */
  lemma UpsertRefusedIff(ms: seq<Mapping>, m: Mapping)
    requires Injective(ms)
    ensures
      var taken := exists k :: 0 <= k < |ms| && ms[k].config == m.config && ms[k].localType == m.localType
                     && ms[k].localId == m.localId
                     && !(ms[k].externalType == m.externalType && ms[k].externalId == m.externalId);
      && (Upsert(ms, m).None? <==> Blank(m.externalId) || taken)
      && (Upsert(ms, m).Some? ==>
           && m in Upsert(ms, m).value
           && forall o ::
                o in ms && !(o.config == m.config && o.externalType == m.externalType && o.externalId == m.externalId)
                ==> o in Upsert(ms, m).value)
  {
    var found := FindExternal(ms, m.config, m.externalType, m.externalId);
    var at := if found.Some? then found.value else |ms|;
    forall k | 0 <= k < |ms| && k != at
      ensures !SameExternal(ms[k], m)
    {
      if found.Some? && SameExternal(ms[k], m) {
        OneRowPerExternal(ms, k, found.value);
      }
    }
    if Upsert(ms, m).Some? {
      var after := Upsert(ms, m).value;
      assert after[at] == m && forall k | 0 <= k < |ms| && k != at :: after[k] == ms[k];
    }
  }

  // ----- users

  /** No row is mapped to the entry, and none has its e-mail. */
  predicate UnknownUser(h: Host, db: Db, e: UserEntry, email: string) {
    var mapped := LocalIdOf(db.mappings, h.config, UserFeed, e.sourcedId);
    !(mapped.Some? && mapped.value in db.users) && forall k | k in db.users :: db.users[k].email != email
  }

  /** The user a record is about: the one mapped, else the first with its e-mail, else a new one. */
  predicate AboutUser(h: Host, db: Db, e: UserEntry, email: string, id: nat) {
    var mapped := LocalIdOf(db.mappings, h.config, UserFeed, e.sourcedId);
    if mapped.Some? && mapped.value in db.users then id == mapped.value
    else if UnknownUser(h, db, e, email) then id == db.nextId
    else
      && id in db.users && db.users[id].email == email
      && forall k | k in db.users && db.users[k].email == email :: id <= k
  }

  lemma LeastIsLeast(s: set<nat>)
    requires s != {}
    ensures forall x | x in s :: Least(s) <= x
  {
    LeastExists(s);
  }

  lemma UserFound(h: Host, db: Db, e: UserEntry, email: string) returns (id: nat)
    ensures
      var existing := ExistingUser(h, db, e, email);
      && id == (if existing.Some? then existing.value else db.nextId)
      && (existing.None? <==> UnknownUser(h, db, e, email)) && AboutUser(h, db, e, email, id)
  {
    var existing := ExistingUser(h, db, e, email);
    id := if existing.Some? then existing.value else db.nextId;
    var byEmail := set k | k in db.users && db.users[k].email == email;
    if byEmail != {} {
      LeastIsLeast(byEmail);
      var mapped := LocalIdOf(db.mappings, h.config, UserFeed, e.sourcedId);
      assert !(mapped.Some? && mapped.value in db.users) ==> existing == Some(Least(byEmail));
      assert forall k | k in db.users && db.users[k].email == email :: k in byEmail;
    }
  }

  /** The columns of the row: the e-mail, the names given, else those it had, else "First" and "Last", and one more
      role for a teacher, a student and an administrator, who becomes an admin. */
  predicate UserColumns(h: Host, e: UserEntry, email: string, was: User, row: User) {
    && row.email == email
    && row.firstName == (if Presence(e.givenName).Some? then e.givenName
                         else if was.firstName.Some? then was.firstName else Some("First"))
    && row.lastName == (if Presence(e.familyName).Some? then e.familyName
                        else if was.lastName.Some? then was.lastName else Some("Last"))
    && row.roles == was.roles + (if h.downcase(e.role) == "teacher" then {"teacher"}
                                 else if h.downcase(e.role) == "student" then {"student"}
                                 else if h.downcase(e.role) == "administrator" then {"admin"} else {})
  }

  lemma UserFilled(h: Host, db: Db, e: UserEntry, existing: Option<nat>, email: string)
    requires existing.Some? ==> existing.value in db.users
    ensures
      var was := if existing.Some? then db.users[existing.value] else User(email, None, None, {});
      UserColumns(h, e, email, was, WithRole(h, NamedUser(db, existing, e, email), e.role))
  {
  }

  /** A user record without an e-mail, with an ill-formed one or with another user's writes nothing. */
  lemma UserRefused(h: Host, db: Db, e: UserEntry)
    ensures Presence(e.email).None? ==> SyncUser(h, db, e) == Outcome(db, false)
    ensures Presence(e.email).Some? ==> forall id |
      AboutUser(h, db, e, e.email.value, id)
      && (!h.emailOk(e.email.value) || exists k :: k in db.users && k != id && db.users[k].email == e.email.value) ::
      SyncUser(h, db, e) == Outcome(db, false)
  {
    if Presence(e.email).Some? {
      var id := UserFound(h, db, e, e.email.value);
      hide ExistingUser, WithRole, Map, Blank;
    }
  }

  /** Any other saves its user and maps it. */
  lemma UserWritten(h: Host, db: Db, e: UserEntry) returns (id: nat, row: User)
    requires Presence(e.email).Some? && h.emailOk(e.email.value)
    requires forall k | k in db.users && db.users[k].email == e.email.value :: AboutUser(h, db, e, e.email.value, k)
    ensures
      var email, unknown := e.email.value, UnknownUser(h, db, e, e.email.value);
      && AboutUser(h, db, e, email, id)
      && UserColumns(h, e, email, if unknown then User(email, None, None, {}) else db.users[id], row)
      && SavedAndMapped(h, SyncUser(h, db, e),
           db.(users := db.users[id := row], nextId := db.nextId + if unknown then 1 else 0),
           UserRow, id, UserFeed, e.sourcedId)
  {
    var email := e.email.value;
    id := UserFound(h, db, e, email);
    var existing := ExistingUser(h, db, e, email);
    row := WithRole(h, NamedUser(db, existing, e, email), e.role);
    UserFilled(h, db, e, existing, email);
    var saved := db.(users := db.users[id := row], nextId := if existing.Some? then db.nextId else db.nextId + 1);
    UserSaved(h, db, e, id, existing);
    hide *;
    MapSaves(h, saved, UserRow, id, UserFeed, e.sourcedId);
  }

  /** The save goes through, the e-mail being well-formed and nobody else's. */
  lemma UserSaved(h: Host, db: Db, e: UserEntry, id: nat, existing: Option<nat>)
    requires Presence(e.email).Some? && h.emailOk(e.email.value) && existing == ExistingUser(h, db, e, e.email.value)
    requires id == if existing.Some? then existing.value else db.nextId
    requires forall k | k in db.users && db.users[k].email == e.email.value :: k == id
    ensures
      var row := WithRole(h, NamedUser(db, existing, e, e.email.value), e.role);
      var saved := db.(users := db.users[id := row], nextId := if existing.Some? then db.nextId else db.nextId + 1);
      SyncUser(h, db, e) == Map(h, saved, UserRow, id, UserFeed, e.sourcedId)
  {
    hide ExistingUser, WithRole, Map, UserRole, LocalIdOf;
  }

  // ----- enrolments

  /** An enrolment record is refused unless its role is teacher or student, whatever its case, and user and class are
      mapped to rows. Any other gives the enrolment of that user in that class, the first there is or a new one, that
      role and maps it. */
  lemma EnrollmentWritten(h: Host, db: Db, e: EnrollmentEntry) returns (id: nat)
    ensures
      var role := h.downcase(e.role);
      var user := LocalIdOf(db.mappings, h.config, UserFeed, e.user);
      var section := LocalIdOf(db.mappings, h.config, ClassFeed, e.klass);
      if (role != "teacher" && role != "student") || user.None? || user.value !in db.users
         || section.None? || section.value !in db.sections then
        SyncEnrollment(h, db, e) == Outcome(db, false)
      else
        var unknown := forall k | k in db.enrollments ::
          !(db.enrollments[k].user == user.value && db.enrollments[k].section == section.value);
        && (unknown ==> id == db.nextId)
        && (!unknown ==>
             && id in db.enrollments && db.enrollments[id].user == user.value
             && db.enrollments[id].section == section.value
             && forall k | k in db.enrollments && db.enrollments[k].user == user.value
                           && db.enrollments[k].section == section.value :: id <= k)
        && SavedAndMapped(h, SyncEnrollment(h, db, e),
             db.(enrollments := db.enrollments[id := Enrollment(user.value, section.value, role)],
                 nextId := db.nextId + if unknown then 1 else 0),
             EnrollmentRow, id, EnrollmentFeed, e.sourcedId)
  {
    id := db.nextId;
    var role := h.downcase(e.role);
    var user := LocalIdOf(db.mappings, h.config, UserFeed, e.user);
    var section := LocalIdOf(db.mappings, h.config, ClassFeed, e.klass);
    if (role == "teacher" || role == "student") && user.Some? && user.value in db.users
       && section.Some? && section.value in db.sections {
      var existing := EnrollmentFound(db, user.value, section.value);
      id := if existing.Some? then existing.value else db.nextId;
      hide LocalIdOf, ExistingEnrollment, Map, SavedAndMapped;
      MapSaves(h, db.(enrollments := db.enrollments[id := Enrollment(user.value, section.value, role)],
                      nextId := if existing.Some? then db.nextId else db.nextId + 1),
        EnrollmentRow, id, EnrollmentFeed, e.sourcedId);
    }
  }

  lemma EnrollmentFound(db: Db, user: nat, section: nat) returns (r: Option<nat>)
    ensures r == ExistingEnrollment(db, user, section)
    ensures r.Some? ==> forall k | k in db.enrollments && db.enrollments[k].user == user
                                   && db.enrollments[k].section == section :: r.value <= k
  {
    r := ExistingEnrollment(db, user, section);
    var found := set k | k in db.enrollments && db.enrollments[k].user == user && db.enrollments[k].section == section;
    if found != {} {
      LeastIsLeast(found);
      assert r == Some(Least(found));
      assert forall k | k in db.enrollments && db.enrollments[k].user == user && db.enrollments[k].section == section ::
        k in found;
    }
  }

  // ----- schools, years and terms

  /** The row mapped to an entry, or a new one. */
  predicate MappedOrNew(mapped: Option<nat>, rows: set<nat>, nextId: nat, id: nat, after: nat) {
    if mapped.Some? && mapped.value in rows then id == mapped.value && after == nextId
    else id == nextId && after == nextId + 1
  }

  lemma SchoolWritten(h: Host, db: Db, e: OrgEntry) returns (id: nat, saved: Db)
    ensures MappedOrNew(LocalIdOf(db.mappings, h.config, OrgFeed, e.sourcedId), db.schools.Keys, db.nextId, id,
        saved.nextId)
    ensures
      var row := School(if Presence(e.name).Some? then e.name.value else "Imported School",
                        if Presence(e.identifier).Some? then e.identifier.value else "UTC");
      saved == db.(schools := db.schools[id := row], nextId := saved.nextId)
    ensures SavedAndMapped(h, SyncOrg(h, db, e), saved, SchoolRow, id, OrgFeed, e.sourcedId)
  {
    var mapped := LocalIdOf(db.mappings, h.config, OrgFeed, e.sourcedId);
    var isNew := mapped.None? || mapped.value !in db.schools;
    id := if isNew then db.nextId else mapped.value;
    saved := db.(
      schools := db.schools[id := School(OrElse(e.name, "Imported School"), OrElse(e.identifier, "UTC"))],
      nextId := if isNew then db.nextId + 1 else db.nextId);
    MapSaves(h, saved, SchoolRow, id, OrgFeed, e.sourcedId);
  }

  /** A session starts on its start date or today, and ends on its end date or so many days later, but at least one
      day after it starts. */
  predicate SessionDates(h: Host, e: SessionEntry, days: int, from: int, until: int) {
    && from == (if e.startDate.Some? then e.startDate.value else h.today)
    && var end := if e.endDate.Some? then e.endDate.value else from + days;
       until == if end > from then end else from + 1
  }

  lemma YearWritten(h: Host, db: Db, e: SessionEntry) returns (id: nat, row: Year, saved: Db)
    requires e.kind == SchoolYear
    ensures
      MappedOrNew(LocalIdOf(db.mappings, h.config, SessionFeed, e.sourcedId), db.years.Keys, db.nextId, id,
          saved.nextId)
    ensures row.name == if Presence(e.title).Some? then e.title.value else "Imported School Year"
    ensures SessionDates(h, e, 365, row.startDate, row.endDate)
    ensures saved == db.(years := db.years[id := row], nextId := saved.nextId)
    ensures SavedAndMapped(h, SyncSession(h, db, e), saved, YearRow, id, SessionFeed, e.sourcedId)
  {
    var mapped := LocalIdOf(db.mappings, h.config, SessionFeed, e.sourcedId);
    var isNew := mapped.None? || mapped.value !in db.years;
    id := if isNew then db.nextId else mapped.value;
    var (from, until) := Dates(h, e, 365);
    row := Year(OrElse(e.title, "Imported School Year"), from, until);
    saved := db.(years := db.years[id := row], nextId := if isNew then db.nextId + 1 else db.nextId);
    MapSaves(h, saved, YearRow, id, SessionFeed, e.sourcedId);
  }

  /** The year a term goes in: its parent's, else the last by start date, else a new one, which ends 180 days after
      the term. */
  predicate YearForTerm(h: Host, db: Db, e: SessionEntry, from: int, until: int, year: nat, after: Db) {
    var parent := LocalIdOf(db.mappings, h.config, SessionFeed, e.parent);
    if !Blank(e.parent) && parent.Some? && parent.value in db.years then year == parent.value && after == db
    else if h.lastYear(db.years).Some? && h.lastYear(db.years).value in db.years then
      year == h.lastYear(db.years).value && after == db
    else
      && year == db.nextId
      && after
         == db.(years := db.years[year := Year("Imported Academic Year", from, until + 180)], nextId := db.nextId + 1)
  }

  lemma TermWritten(h: Host, db: Db, e: SessionEntry) returns (id: nat, row: Term, within: Db, saved: Db)
    requires e.kind == TermLike
    ensures row.name == if Presence(e.title).Some? then e.title.value else "Imported Term"
    ensures SessionDates(h, e, 120, row.startDate, row.endDate)
    ensures YearForTerm(h, db, e, row.startDate, row.endDate, row.year, within)
    ensures
      MappedOrNew(LocalIdOf(db.mappings, h.config, SessionFeed, e.sourcedId), within.terms.Keys, within.nextId, id,
        saved.nextId)
    ensures saved == within.(terms := within.terms[id := row], nextId := saved.nextId)
    ensures SavedAndMapped(h, SyncSession(h, db, e), saved, TermRow, id, SessionFeed, e.sourcedId)
  {
    var (from, until) := Dates(h, e, 120);
    var (db1, year) := ParentYear(h, db, e, from, until);
    var mapped := LocalIdOf(db.mappings, h.config, SessionFeed, e.sourcedId);
    var isNew := mapped.None? || mapped.value !in db1.terms;
    id := if isNew then db1.nextId else mapped.value;
    within, row := db1, Term(year, OrElse(e.title, "Imported Term"), from, until);
    saved := db1.(terms := db1.terms[id := row], nextId := if isNew then db1.nextId + 1 else db1.nextId);
    MapSaves(h, saved, TermRow, id, SessionFeed, e.sourcedId);
    hide Map, SavedAndMapped, Blank, LocalIdOf;
  }

  /** Sessions of other kinds are skipped. */
  lemma OtherSessionSkipped(h: Host, db: Db, e: SessionEntry)
    requires e.kind == OtherSession
    ensures SyncSession(h, db, e) == Outcome(db, true)
  {
  }

  // ----- classes

  /** The term a class goes in: its own, else the last by start date, else a new one in the last year or, there being
      none, in a new one. */
  predicate TermForClass(h: Host, db: Db, e: ClassEntry, term: nat, after: Db) {
    var mapped := LocalIdOf(db.mappings, h.config, SessionFeed, e.term);
    if !Blank(e.term) && mapped.Some? && mapped.value in db.terms then term == mapped.value && after == db
    else if h.lastTerm(db.terms).Some? && h.lastTerm(db.terms).value in db.terms then
      term == h.lastTerm(db.terms).value && after == db
    else if h.lastYear(db.years).Some? && h.lastYear(db.years).value in db.years then
      && term == db.nextId
      && after == db.(terms := db.terms[term := Term(h.lastYear(db.years).value, "Imported Term", h.yearBounds.0,
                                                     h.yearBounds.1)],
                      nextId := db.nextId + 1)
    else
      && term == db.nextId + 1
      && after == db.(years := db.years[db.nextId := Year("Imported Academic Year", h.yearBounds.0, h.yearBounds.1)],
                      terms := db.terms[term := Term(db.nextId, "Imported Term", h.yearBounds.0, h.yearBounds.1)],
                      nextId := db.nextId + 2)
  }

  lemma ClassTerm(h: Host, db: Db, e: ClassEntry)
    ensures TermForClass(h, db, e, ResolveTerm(h, db, e).1, ResolveTerm(h, db, e).0)
  {
    hide Blank, LocalIdOf;
  }

  /** The course of a class: the first of that name in the term's year, or a new one; it is given the class's school
      when that is mapped to one, and keeps its own otherwise. */
  predicate CourseForClass(h: Host, db: Db, e: ClassEntry, year: nat, course: nat, row: Course) {
    var name := if Presence(e.title).Some? then e.title.value
      else if Presence(e.classCode).Some? then e.classCode.value else "Imported Course";
    var mapped := LocalIdOf(db.mappings, h.config, OrgFeed, e.school);
    var school := if !Blank(e.school) && mapped.Some? && mapped.value in db.schools then mapped else None;
    var unknown := UnknownCourse(db, year, name);
    && row.year == year && row.name == name
    && (unknown ==> course == db.nextId && row.school == school)
    && (!unknown ==>
         && course in db.courses && db.courses[course].year == year && db.courses[course].name == name
         && (forall k | k in db.courses && db.courses[k].year == year && db.courses[k].name == name :: course <= k)
         && row.school == if school.Some? then school else db.courses[course].school)
  }

  predicate UnknownCourse(db: Db, year: nat, name: string) {
    forall k | k in db.courses :: !(db.courses[k].year == year && db.courses[k].name == name)
  }

  lemma ClassCourse(h: Host, db: Db, e: ClassEntry, year: nat) returns (course: nat, row: Course)
    ensures CourseForClass(h, db, e, year, course, row)
    ensures
      ResolveCourse(h, db, e, year)
      == (db.(courses := db.courses[course := row],
              nextId := db.nextId + if UnknownCourse(db, year, row.name) then 1 else 0), course)
  {
    var school := ResolveSchool(h, db, e);
    var name := OrElse(e.title, OrElse(e.classCode, "Imported Course"));
    var found := set id | id in db.courses && db.courses[id].year == year && db.courses[id].name == name;
    course := if found != {} then Least(found) else db.nextId;
    var was := if found != {} then db.courses[course] else Course(year, name, None);
    row := if school.Some? then was.(school := school) else was;
    if found != {} {
      LeastIsLeast(found);
      assert !UnknownCourse(db, year, name);
    }
    hide Blank, LocalIdOf;
    assert forall k | k in db.courses && db.courses[k].year == year && db.courses[k].name == name :: k in found;
  }

  /** A class record saves its course, and the mapped or a new section of that course and term. */
  lemma ClassWritten(h: Host, db: Db, e: ClassEntry)
    returns (term: nat, within: Db, course: nat, row: Course, id: nat, saved: Db)
    ensures TermForClass(h, db, e, term, within) && term in within.terms
    ensures CourseForClass(h, within, e, within.terms[term].year, course, row)
    ensures
      var taught := within.(courses := within.courses[course := row],
        nextId := within.nextId + if UnknownCourse(within, row.year, row.name) then 1 else 0);
      var name := if Presence(e.title).Some? then e.title.value
        else if Presence(e.classCode).Some? then e.classCode.value else "Imported Section";
      && MappedOrNew(LocalIdOf(db.mappings, h.config, ClassFeed, e.sourcedId), db.sections.Keys, taught.nextId, id,
           saved.nextId)
      && saved == taught.(sections := db.sections[id := Section(course, term, name)], nextId := saved.nextId)
      && SavedAndMapped(h, SyncClass(h, db, e), saved, SectionRow, id, ClassFeed, e.sourcedId)
  {
    ClassTerm(h, db, e);
    var (db1, at) := ResolveTerm(h, db, e);
    term, within := at, db1;
    course, row := ClassCourse(h, within, e, within.terms[term].year);
    var taught := within.(courses := within.courses[course := row],
      nextId := within.nextId + if UnknownCourse(within, row.year, row.name) then 1 else 0);
    id, saved := SectionWritten(h, taught, e, course, term);
    hide ResolveTerm, ResolveCourse, SaveSection, TermForClass, CourseForClass, SavedAndMapped, LocalIdOf,
      UnknownCourse;
    assert within.mappings == db.mappings && within.sections == db.sections;
  }

  lemma SectionWritten(h: Host, db: Db, e: ClassEntry, course: nat, term: nat) returns (id: nat, saved: Db)
    ensures
      var name := if Presence(e.title).Some? then e.title.value
        else if Presence(e.classCode).Some? then e.classCode.value else "Imported Section";
      && MappedOrNew(LocalIdOf(db.mappings, h.config, ClassFeed, e.sourcedId), db.sections.Keys, db.nextId, id,
          saved.nextId)
      && saved == db.(sections := db.sections[id := Section(course, term, name)], nextId := saved.nextId)
      && SavedAndMapped(h, SaveSection(h, db, e, course, term), saved, SectionRow, id, ClassFeed, e.sourcedId)
  {
    var mapped := LocalIdOf(db.mappings, h.config, ClassFeed, e.sourcedId);
    var isNew := mapped.None? || mapped.value !in db.sections;
    id := if isNew then db.nextId else mapped.value;
    saved := db.(
      sections := db.sections[id := Section(course, term, OrElse(e.title, OrElse(e.classCode, "Imported Section")))],
      nextId := if isNew then db.nextId + 1 else db.nextId);
    MapSaves(h, saved, SectionRow, id, ClassFeed, e.sourcedId);
  }

  // ----- counters

  /** Each record is processed once and counted as succeeded or failed. */
  lemma RecordCounted(h: Host, s: State, r: Record)
    ensures
      var o := match r
        case OfOrg(e) => SyncOrg(h, s.db, e)
        case OfSession(e) => SyncSession(h, s.db, e)
        case OfUser(e) => SyncUser(h, s.db, e)
        case OfClass(e) => SyncClass(h, s.db, e)
        case OfEnrollment(e) => SyncEnrollment(h, s.db, e);
      var t := Process(h, s, r);
      && t.db == o.db && t.run.processed == s.run.processed + 1
      && t.run.succeeded == s.run.succeeded + (if o.ok then 1 else 0)
      && t.run.failed == s.run.failed + (if o.ok then 0 else 1)
  {
  }
}
