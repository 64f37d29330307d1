/** What importing a release does to the pack store's uncached lookups. */
module ImportEffects {
  import opened Wrappers
  import opened Text
  import opened Registry
  import opened RegistryTheorems
  import opened PackStore
  import L = Lifecycle

  /** The rows after an import, accepted or not. */
  function RowsAfter(h: Host, db: L.Db, op: L.Op, now: int): Releases {
    var after := L.Apply(h, db, op, now);
    if after.Some? then after.value.rs else db.rs
  }

  /** The row already holds what an import would write. */
  predicate Untouched(r: Release, q: Profile, op: L.Op)
    requires op.Import?
  {
    r.importedBy == op.actor && r.checksum == op.checksum && r.payload == q && r.metadata + op.metadata == r.metadata
  }

  predicate LaterThan(time: int, id: nat, q: Release) { time > q.updatedAt || (time == q.updatedAt && id > q.id) }

  /** Touching row `i` now does not change which release of its profile is the latest: it is already and
      stays later than the others, or another one stays later than it. */
  predicate KeepsLatest(rs: Releases, i: nat, now: int)
    requires i < |rs|
  {
    var latest := LatestEligible(rs, rs[i].key);
    latest.Some?
    && if latest.value.id == rs[i].id then
         forall q | q in rs && q.key == rs[i].key && Eligible(q.status) && q.id != rs[i].id ::
             LaterThan(now, rs[i].id, q)
       else
         latest.value.updatedAt > now || (latest.value.updatedAt == now && latest.value.id > rs[i].id)
  }

  /** An import that no lookup notices: rejected; or of a new version no system pack has; or over a
      version that is not eligible; or over an eligible one that already holds it, or holds its payload
      and keeps the latest release what it is. */
  predicate QuietImport(sys: System, db: L.Db, op: L.Op, now: int)
    requires op.Import?
  {
    var q := Validate(sys.host, op.payload);
    q.Some? && NamesRelease(q.value) ==>
      var key, version := ProfileKey(q.value), ProfileVersion(q.value);
      var i := Find(db.rs, key, version);
      if i.None? then FetchSystem(sys, key, Some(version)).None?
      else Eligible(db.rs[i.value].status) ==> QuietOver(db.rs, i.value, q.value, op, now)
  }

  predicate QuietOver(rs: Releases, i: nat, q: Profile, op: L.Op, now: int)
    requires i < |rs| && op.Import?
  {
    Untouched(rs[i], q, op) || (rs[i].payload == q && KeepsLatest(rs, i, now))
  }

  /** The two lists name the same latest eligible release of a profile. */
  predicate SameLatest(rs: Releases, rs': Releases, key: string) {
    var a, b := LatestEligible(rs, key), LatestEligible(rs', key);
    a.Some? && b.Some? && a.value.id == b.value.id
  }

  // ----- which release is the latest after a touch

  lemma OneRowPerId(rs: Releases, j: nat, k: nat)
    requires Indexed(rs) && j < |rs| && k < |rs| && rs[j].id == rs[k].id
    ensures j == k
  {
  }

  /** The rows after one is replaced are that row and the ones with other ids. */
  lemma RowsAround(rs: Releases, i: nat, row: Release, q: Release)
    requires Indexed(rs) && i < |rs| && row.id == rs[i].id
    ensures q in rs[i := row] <==> q == row || (q in rs && q.id != rs[i].id)
  {
    hide Indexed;
    var after := rs[i := row];
    assert after[i] == row;
    if q in after && q != row {
      var k :| 0 <= k < |after| && after[k] == q;
      assert rs[k] == q;
      if rs[k].id == rs[i].id { OneRowPerId(rs, k, i); }
    }
    if q in rs && q.id != rs[i].id {
      var k :| 0 <= k < |rs| && rs[k] == q;
      assert after[k] == q;
    }
  }

  predicate Touched(old_: Release, row: Release, now: int) {
    row.id == old_.id && row.key == old_.key && row.status == old_.status && row.updatedAt == now
  }

  lemma TouchedLatestStays(rs: Releases, i: nat, row: Release, now: int)
    requires Indexed(rs) && i < |rs| && Eligible(rs[i].status) && Touched(rs[i], row, now)
    requires LatestEligible(rs, row.key).Some? && LatestEligible(rs, row.key).value.id == row.id
    ensures SameLatest(rs, rs[i := row], row.key) <==> KeepsLatest(rs, i, now)
  {
    hide Indexed;
    var b := LatestEligible(rs[i := row], row.key);
    assert rs[i := row][i] == row;
    RowsAround(rs, i, row, b.value);
    if b.value.id == row.id {
      forall q | q in rs && q.key == row.key && Eligible(q.status) && q.id != row.id
        ensures LaterThan(now, row.id, q)
      {
        RowsAround(rs, i, row, q);
        assert Newer(row, q);
      }
    } else {
      assert Newer(b.value, row) && !LaterThan(now, row.id, b.value);
    }
  }

  lemma OtherLatestStays(rs: Releases, i: nat, row: Release, now: int)
    requires Indexed(rs) && i < |rs| && Eligible(rs[i].status) && Touched(rs[i], row, now)
    requires LatestEligible(rs, row.key).Some? && LatestEligible(rs, row.key).value.id != row.id
    ensures SameLatest(rs, rs[i := row], row.key) <==> KeepsLatest(rs, i, now)
  {
    hide Indexed;
    var a, b := LatestEligible(rs, row.key).value, LatestEligible(rs[i := row], row.key);
    assert rs[i := row][i] == row;
    RowsAround(rs, i, row, a);
    RowsAround(rs, i, row, b.value);
    assert Newer(b.value, a) && Newer(b.value, row);
    if b.value != row {
      assert Newer(a, b.value);
    }
  }

  /** The guard is exact. */
  lemma KeepsLatestIff(rs: Releases, i: nat, row: Release, now: int)
    requires Indexed(rs) && i < |rs| && Eligible(rs[i].status) && Touched(rs[i], row, now)
    ensures SameLatest(rs, rs[i := row], row.key) <==> KeepsLatest(rs, i, now)
  {
    hide Indexed, Newer, SameLatest, KeepsLatest;
    var a := LatestEligible(rs, row.key);
    assert rs[i] in rs;
    if a.value.id == row.id {
      TouchedLatestStays(rs, i, row, now);
    } else {
      OtherLatestStays(rs, i, row, now);
    }
  }

  lemma QuietOverIff(rs: Releases, i: nat, row: Release, q: Profile, op: L.Op, now: int)
    requires Indexed(rs) && i < |rs| && Eligible(rs[i].status) && op.Import?
    requires if Untouched(rs[i], q, op) then row == rs[i] else Touched(rs[i], row, now)
    ensures QuietOver(rs, i, q, op, now) <==> rs[i].payload == q && SameLatest(rs, rs[i := row], row.key)
  {
    hide Indexed, KeepsLatest, Newer;
    if Untouched(rs[i], q, op) {
      assert rs[i := row] == rs && rs[i] in rs;
    } else {
      hide SameLatest;
      KeepsLatestIff(rs, i, row, now);
    }
  }

  // ----- lookups over changed rows

  lemma LatestAfterDraft(rs: Releases, row: Release, key: string)
    requires !Eligible(row.status)
    ensures LatestEligible(rs + [row], key) == LatestEligible(rs, key)
  {
    assert (rs + [row])[..|rs|] == rs;
  }

  lemma FindAfterRow(rs: Releases, row: Release, key: string, version: string)
    ensures Find(rs + [row], key, version) == if Named(row, key, version) then Some(|rs|) else Find(rs, key, version)
  {
    assert (rs + [row])[..|rs|] == rs;
  }

  /** The record of a row depends on its payload, id and status. */
  predicate SameRecord(a: Release, b: Release) { a.payload == b.payload && a.id == b.id && a.status == b.status }

  lemma RecordsAlike(h: Host, a: Release, b: Release)
    ensures SameRecord(a, b) ==> RecordForRelease(h, a) == RecordForRelease(h, b)
  {
    hide Validate;
  }

  // ----- a new version

  /** What the import of a new version appends. */
  lemma NewVersion(h: Host, db: L.Db, op: L.Op, now: int) returns (row: Release)
    requires op.Import? && Validate(h, op.payload).Some?
    requires
      var q := Validate(h, op.payload).value;
      NamesRelease(q) && Find(db.rs, ProfileKey(q), ProfileVersion(q)).None?
    ensures
      var q := Validate(h, op.payload).value;
      Named(row, ProfileKey(q), ProfileVersion(q)) && row.status == Draft && RowsAfter(h, db, op, now) == db.rs + [row]
  {
    L.ImportedRow(h, db, op, now);
    hide Validate, L.Apply, NamesRelease, ProfileKey, ProfileVersion;
    var rs := RowsAfter(h, db, op, now);
    row := rs[|db.rs|];
    assert rs == rs[..|db.rs|] + [row];
  }

  lemma DraftLookup(sys: System, rs: Releases, row: Release, req: Request)
    requires row.status == Draft && Find(rs, row.key, row.version).None?
    ensures
      var named := Presence(req.version) == Some(row.version) && req.key == row.key;
      && (!named ==> FetchUncached(sys, rs + [row], req) == FetchUncached(sys, rs, req))
      && (named ==> FetchUncached(sys, rs + [row], req) == None)
      && (named ==> FetchUncached(sys, rs, req) == FetchSystem(sys, row.key, Some(row.version)))
  {
    hide FetchSystem, RecordForRelease, Blank;
    var version := Presence(req.version);
    if version.Some? {
      FindAfterRow(rs, row, req.key, version.value);
    } else {
      LatestAfterDraft(rs, row, req.key);
    }
  }

  // ----- an existing version

  lemma ImportSaves(h: Host, db: L.Db, op: L.Op, now: int)
    requires op.Import? && Validate(h, op.payload).Some?
    requires
      var q := Validate(h, op.payload).value;
      NamesRelease(q) && Find(db.rs, ProfileKey(q), ProfileVersion(q)).Some?
    ensures
      var q := Validate(h, op.payload).value;
      var i, rs := Find(db.rs, ProfileKey(q), ProfileVersion(q)).value, RowsAfter(h, db, op, now);
      |rs| == |db.rs| && if Untouched(db.rs[i], q, op) then rs[i] == db.rs[i] else rs[i].updatedAt == now
  {
    hide Validate, NamesRelease, ProfileKey, ProfileVersion;
  }

  lemma ExistingVersion(h: Host, db: L.Db, op: L.Op, now: int) returns (i: nat, row: Release)
    requires op.Import? && Validate(h, op.payload).Some?
    requires
      var q := Validate(h, op.payload).value;
      NamesRelease(q) && Find(db.rs, ProfileKey(q), ProfileVersion(q)).Some?
    ensures
      var q := Validate(h, op.payload).value;
      && Find(db.rs, ProfileKey(q), ProfileVersion(q)) == Some(i) && i < |db.rs|
      && RowsAfter(h, db, op, now) == db.rs[i := row]
      && Named(row, ProfileKey(q), ProfileVersion(q)) && Named(db.rs[i], ProfileKey(q), ProfileVersion(q))
      && row.payload == q && row.id == db.rs[i].id && row.status == db.rs[i].status
      && if Untouched(db.rs[i], q, op) then row == db.rs[i] else Touched(db.rs[i], row, now)
  {
    L.ImportedRow(h, db, op, now);
    ImportSaves(h, db, op, now);
    hide Validate, L.Apply, NamesRelease, ProfileKey, ProfileVersion;
    var q := Validate(h, op.payload).value;
    i := Find(db.rs, ProfileKey(q), ProfileVersion(q)).value;
    row := RowsAfter(h, db, op, now)[i];
  }

  lemma OtherLookups(sys: System, rs: Releases, i: nat, row: Release, req: Request)
    requires i < |rs| && row.key == rs[i].key && row.version == rs[i].version && row.status == rs[i].status
    requires Presence(req.version).Some? ==> !Named(row, req.key, Presence(req.version).value) || !Eligible(row.status)
    requires Presence(req.version).None? ==> req.key != row.key || !Eligible(row.status)
    ensures FetchUncached(sys, rs[i := row], req) == FetchUncached(sys, rs, req)
  {
    hide FetchSystem, RecordForRelease, Blank, Eligible;
    var version := Presence(req.version);
    if version.Some? {
      L.FindUnmoved(rs, i, row, req.key, version.value);
    } else {
      L.LatestUnmoved(rs, i, row, req.key);
    }
  }

  lemma SameRow(rs: Releases, i: nat, row: Release, a: Release, b: Release)
    requires Indexed(rs) && i < |rs| && SameRecord(row, rs[i])
    requires a in rs && b in rs[i := row] && a.id == b.id
    ensures SameRecord(a, b)
  {
    var j :| 0 <= j < |rs| && rs[j] == a;
    var k :| 0 <= k < |rs| && rs[i := row][k] == b;
    assert rs[k].id == b.id;
    OneRowPerId(rs, j, k);
  }

  /** An eligible row imported with the payload it has. */
  lemma SamePayloadLookups(sys: System, rs: Releases, i: nat, row: Release, req: Request)
    requires Indexed(rs) && i < |rs| && row.key == rs[i].key && row.version == rs[i].version && SameRecord(row, rs[i])
    requires Find(rs, row.key, row.version) == Some(i) && SameLatest(rs, rs[i := row], row.key)
    ensures FetchUncached(sys, rs[i := row], req) == FetchUncached(sys, rs, req)
  {
    hide FetchSystem, RecordForRelease, Blank, Eligible, Indexed, Newer;
    var version := Presence(req.version);
    if version.Some? && Named(row, req.key, version.value) {
      L.FindUnmoved(rs, i, row, req.key, version.value);
      RecordsAlike(sys.host, row, rs[i]);
    } else if version.None? && req.key == row.key {
      var a, b := LatestEligible(rs, row.key).value, LatestEligible(rs[i := row], row.key).value;
      SameRow(rs, i, row, a, b);
      RecordsAlike(sys.host, a, b);
    } else {
      OtherLookups(sys, rs, i, row, req);
    }
  }

  // ----- when no lookup notices

  lemma QuietImportKeeps(sys: System, db: L.Db, op: L.Op, now: int, req: Request)
    requires op.Import? && Indexed(db.rs) && QuietImport(sys, db, op, now)
    ensures FetchUncached(sys, RowsAfter(sys.host, db, op, now), req) == FetchUncached(sys, db.rs, req)
  {
    var q := Validate(sys.host, op.payload);
    if q.Some? {
      L.ValidNames(sys.host, op.payload);
      hide Validate, NamesRelease, ProfileKey, ProfileVersion, FetchUncached, RowsAfter, SameLatest, Indexed,
        FetchSystem, QuietOver, Untouched;
      if Find(db.rs, ProfileKey(q.value), ProfileVersion(q.value)).None? {
        var row := NewVersion(sys.host, db, op, now);
        DraftLookup(sys, db.rs, row, req);
      } else {
        var i, row := ExistingVersion(sys.host, db, op, now);
        if Eligible(row.status) {
          QuietOverIff(db.rs, i, row, q.value, op, now);
          SamePayloadLookups(sys, db.rs, i, row, req);
        } else {
          OtherLookups(sys, db.rs, i, row, req);
        }
      }
    } else {
      RejectedImport(sys.host, db, op, now);
    }
  }

  lemma RejectedImport(h: Host, db: L.Db, op: L.Op, now: int)
    requires op.Import? && Validate(h, op.payload).None?
    ensures L.Apply(h, db, op, now).None? && RowsAfter(h, db, op, now) == db.rs
  {
    hide Validate;
  }

  /** An answer that is withdrawn or replaced. */
  predicate Replaced(before: Option<Record>, after: Option<Record>) {
    Answer(before).Some? && Answer(after) != Answer(before)
  }

  lemma EligibleRecord(h: Host, r: Release)
    requires L.RowImported(h, r)
    ensures RecordForRelease(h, r) == Some(Record(r.payload, TenantRelease, Some(r.id), Some(r.status)))
        && r.payload != map[]
  {
    hide Validate;
  }

  lemma FetchedSystem(sys: System, key: string, version: Option<string>)
    ensures FetchSystem(sys, key, version).Some? ==> FetchSystem(sys, key, version).value.payload != map[]
  {
    hide FindSystem, FallbackProfile;
  }

  /** Any other import changes some lookup, from an answer to a different one or none. */
  lemma LoudImportChanges(sys: System, db: L.Db, op: L.Op, now: int) returns (req: Request)
    requires op.Import? && L.Imported(sys.host, db) && !QuietImport(sys, db, op, now)
    ensures !Blank(req.key)
    ensures Replaced(FetchUncached(sys, db.rs, req), FetchUncached(sys, RowsAfter(sys.host, db, op, now), req))
  {
    L.ValidNames(sys.host, op.payload);
    hide Validate, NamesRelease, ProfileKey, ProfileVersion, RowsAfter, FetchSystem, Blank, Replaced, FetchUncached,
      L.Imported;
    var q := Validate(sys.host, op.payload).value;
    if Find(db.rs, ProfileKey(q), ProfileVersion(q)).None? {
      req := LoudNewVersion(sys, db, op, now);
    } else {
      req := LoudExistingVersion(sys, db, op, now);
    }
  }

  lemma LoudNewVersion(sys: System, db: L.Db, op: L.Op, now: int) returns (req: Request)
    requires op.Import? && Validate(sys.host, op.payload).Some? && NamesRelease(Validate(sys.host, op.payload).value)
    requires
      var q := Validate(sys.host, op.payload).value;
      && Find(db.rs, ProfileKey(q), ProfileVersion(q)).None? && !Blank(ProfileVersion(q))
      && FetchSystem(sys, ProfileKey(q), Some(ProfileVersion(q))).Some?
    ensures req.key == ProfileKey(Validate(sys.host, op.payload).value)
    ensures Replaced(FetchUncached(sys, db.rs, req), FetchUncached(sys, RowsAfter(sys.host, db, op, now), req))
  {
    hide Validate, NamesRelease, ProfileKey, ProfileVersion, RowsAfter, FetchSystem, Blank, Replaced, FetchUncached;
    var q := Validate(sys.host, op.payload).value;
    var key, version := ProfileKey(q), ProfileVersion(q);
    var row := NewVersion(sys.host, db, op, now);
    req := Request(key, Some(version));
    DraftLookup(sys, db.rs, row, req);
    FetchedSystem(sys, key, Some(version));
    SystemReplaced(FetchSystem(sys, key, Some(version)));
  }

  lemma LoudExistingVersion(sys: System, db: L.Db, op: L.Op, now: int) returns (req: Request)
    requires op.Import? && L.Imported(sys.host, db) && !QuietImport(sys, db, op, now)
    requires Validate(sys.host, op.payload).Some? && NamesRelease(Validate(sys.host, op.payload).value)
    requires
      var q := Validate(sys.host, op.payload).value;
      Find(db.rs, ProfileKey(q), ProfileVersion(q)).Some? && !Blank(ProfileVersion(q))
    ensures req.key == ProfileKey(Validate(sys.host, op.payload).value)
    ensures Replaced(FetchUncached(sys, db.rs, req), FetchUncached(sys, RowsAfter(sys.host, db, op, now), req))
  {
    RowsImported(sys.host, db, op, now);
    hide Validate, NamesRelease, ProfileKey, ProfileVersion, RowsAfter, FetchSystem, Blank, Replaced, FetchUncached,
      L.Imported, L.RowImported, SameLatest, Indexed, QuietOver, Untouched;
    var i, row := ExistingVersion(sys.host, db, op, now);
    QuietOverIff(db.rs, i, row, Validate(sys.host, op.payload).value, op, now);
    assert db.rs[i] in db.rs && RowsAfter(sys.host, db, op, now)[i] == row;
    assert row in RowsAfter(sys.host, db, op, now);
    if row.payload != db.rs[i].payload {
      req := Request(row.key, Some(row.version));
      NamedReplaced(sys, db.rs, i, row, req);
    } else {
      req := Request(row.key, None);
      LatestReplaced(sys, db.rs, i, row, row.key);
    }
  }

  lemma SystemReplaced(found: Option<Record>)
    requires found.Some? && found.value.payload != map[]
    ensures Replaced(found, None)
  {
  }

  lemma RowsImported(h: Host, db: L.Db, op: L.Op, now: int)
    requires op.Import? && L.Imported(h, db)
    ensures forall r | r in db.rs || r in RowsAfter(h, db, op, now) :: L.RowImported(h, r)
    ensures Indexed(db.rs)
  {
    if L.Apply(h, db, op, now).Some? {
      L.ApplyKeepsImported(h, db, op, now);
    }
    hide L.Apply, L.RowImported;
  }

  lemma NamedReplaced(sys: System, rs: Releases, i: nat, row: Release, req: Request)
    requires i < |rs| && Eligible(row.status) && row.status == rs[i].status && row.id == rs[i].id
        && row.payload != rs[i].payload
    requires row.key == rs[i].key && row.version == rs[i].version && Find(rs, row.key, row.version) == Some(i)
    requires req.key == row.key && Presence(req.version) == Some(row.version)
    requires L.RowImported(sys.host, row) && L.RowImported(sys.host, rs[i])
    ensures Replaced(FetchUncached(sys, rs, req), FetchUncached(sys, rs[i := row], req))
  {
    hide FetchUncached, RecordForRelease, L.RowImported, Presence, Find, Eligible, Blank;
    L.FindUnmoved(rs, i, row, row.key, row.version);
    assert rs[i := row][i] == row;
    NamedFetch(sys, rs, i, req);
    NamedFetch(sys, rs[i := row], i, req);
    EligibleRecord(sys.host, row);
    EligibleRecord(sys.host, rs[i]);
  }

  lemma NamedFetch(sys: System, rs: Releases, i: nat, req: Request)
    requires i < |rs| && Eligible(rs[i].status) && Find(rs, rs[i].key, rs[i].version) == Some(i)
    requires req.key == rs[i].key && Presence(req.version) == Some(rs[i].version)
    ensures FetchUncached(sys, rs, req) == RecordForRelease(sys.host, rs[i])
  {
    hide RecordForRelease, FetchSystem, Presence, Find;
  }

  lemma LatestReplaced(sys: System, rs: Releases, i: nat, row: Release, key: string)
    requires i < |rs| && Eligible(row.status) && row.status == rs[i].status
    requires row.key == rs[i].key == key && !SameLatest(rs, rs[i := row], key)
    requires forall r | r in rs || r in rs[i := row] :: L.RowImported(sys.host, r)
    ensures Replaced(FetchUncached(sys, rs, Request(key, None)), FetchUncached(sys, rs[i := row], Request(key, None)))
  {
    hide RecordForRelease, L.RowImported, FetchSystem, Newer;
    assert rs[i] in rs && rs[i := row][i] == row && row in rs[i := row];
    var a, b := LatestEligible(rs, key), LatestEligible(rs[i := row], key);
    assert a.Some? && b.Some?;
    EligibleRecord(sys.host, a.value);
    EligibleRecord(sys.host, b.value);
  }

  /** Every lookup is left alone iff the import is quiet. */
  lemma QuietImportIff(sys: System, db: L.Db, op: L.Op, now: int)
    requires op.Import? && L.Imported(sys.host, db)
    ensures
      var rs := RowsAfter(sys.host, db, op, now);
      QuietImport(sys, db, op, now) <==> forall req :: FetchUncached(sys, rs, req) == FetchUncached(sys, db.rs, req)
  {
    hide QuietImport, FetchUncached, RowsAfter, L.Imported;
    if QuietImport(sys, db, op, now) {
      assert Indexed(db.rs) by { RowsImported(sys.host, db, op, now); }
      forall req
        ensures FetchUncached(sys, RowsAfter(sys.host, db, op, now), req) == FetchUncached(sys, db.rs, req)
      {
        QuietImportKeeps(sys, db, op, now, req);
      }
    } else {
      var req := LoudImportChanges(sys, db, op, now);
    }
  }
}
