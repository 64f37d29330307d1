/** What each lifecycle operation writes, column by column, and when it raises. */
module LifecycleColumns {
  import opened Wrappers
  import opened Text
  import opened Registry
  import opened RegistryTheorems
  import opened PackStore
  import opened Lifecycle

  /** The row is as it was but for status, publication date and metadata. */
  predicate Republished(r: Release, a: Release, metadata: Metadata, now: int) {
    && a.status == Published && a.publishedAt == Some(now) && a.metadata == metadata
    && a.(status := r.status, publishedAt := r.publishedAt, metadata := r.metadata, updatedAt := r.updatedAt) == r
    && Stamped(r, a, now)
  }

  /** Some column changed and the row is of now, or none did. */
  predicate Stamped(r: Release, a: Release, now: int) {
    if a.(updatedAt := r.updatedAt) == r then a == r else a.updatedAt == now
  }

  lemma NamedOnce(rs: Releases, i: nat, key: string, version: string)
    requires Indexed(rs) && Find(rs, key, version) == Some(i)
    ensures forall k | 0 <= k < |rs| :: Named(rs[k], key, version) <==> k == i
  {
    forall k | 0 <= k < |rs| && Named(rs[k], key, version)
      ensures k == i
    {
      assert k == i || k < i || i < k;
    }
  }

  /** Publishing raises iff there is no such row. It publishes the named row, deprecates the other published
      rows of the profile, leaves every other row alone, names the default and moves both counters. */
  lemma PublishColumns(h: Host, db: Db, key: string, version: string, metadata: Metadata, now: int)
    requires Indexed(db.rs)
    ensures
      var after := Apply(h, db, Publish(key, version, metadata), now);
      && (after.None? <==> forall k | 0 <= k < |db.rs| :: !(db.rs[k].key == key && db.rs[k].version == version))
      && (after.Some? ==>
           && |after.value.rs| == |db.rs| && after.value.nextId == db.nextId
           && after.value.settings == Settings(Some(key), Some(version), db.settings.assignmentEnabled,
                                               db.settings.resolverBust + 1, db.settings.packBust + 1)
           && forall k | 0 <= k < |db.rs| ::
                var r, a := db.rs[k], after.value.rs[k];
                if r.key == key && r.version == version then Republished(r, a, r.metadata + metadata, now)
                else if r.key == key && r.status == Published then
                  && a.status == Deprecated && a.deprecatedAt == Some(now) && a.updatedAt == now
                  && a.(status := r.status, deprecatedAt := r.deprecatedAt, updatedAt := r.updatedAt) == r
                else a == r)
  {
  }

  /** Deprecating and freezing raise iff there is no such row, and change that row and the counters. */
  lemma DeprecateColumns(h: Host, db: Db, key: string, version: string, metadata: Metadata, now: int)
    requires Indexed(db.rs)
    ensures
      var after := Apply(h, db, Deprecate(key, version, metadata), now);
      && (after.None? <==> forall k | 0 <= k < |db.rs| :: !(db.rs[k].key == key && db.rs[k].version == version))
      && (after.Some? ==>
           && |after.value.rs| == |db.rs| && after.value.nextId == db.nextId
           && after.value.settings == db.settings.(resolverBust := db.settings.resolverBust + 1,
                                                   packBust := db.settings.packBust + 1)
           && forall k | 0 <= k < |db.rs| ::
                var r, a := db.rs[k], after.value.rs[k];
                if r.key == key && r.version == version then
                  && a.status == Deprecated && a.deprecatedAt == Some(now) && a.metadata == r.metadata + metadata
                  && a.(status := r.status, deprecatedAt := r.deprecatedAt, metadata := r.metadata,
                        updatedAt := r.updatedAt) == r
                  && Stamped(r, a, now)
                else a == r)
  {
    var i := Find(db.rs, key, version);
    if i.Some? {
      NamedOnce(db.rs, i.value, key, version);
    }
    hide Find, Indexed;
  }

  lemma FreezeColumns(h: Host, db: Db, key: string, version: string, metadata: Metadata, now: int)
    requires Indexed(db.rs)
    ensures
      var after := Apply(h, db, Freeze(key, version, metadata), now);
      && (after.None? <==> forall k | 0 <= k < |db.rs| :: !(db.rs[k].key == key && db.rs[k].version == version))
      && (after.Some? ==>
           && |after.value.rs| == |db.rs| && after.value.nextId == db.nextId
           && after.value.settings == db.settings.(resolverBust := db.settings.resolverBust + 1,
                                                   packBust := db.settings.packBust + 1)
           && forall k | 0 <= k < |db.rs| ::
                var r, a := db.rs[k], after.value.rs[k];
                if r.key == key && r.version == version then
                  && a.status == Frozen && a.frozenAt == Some(now) && a.metadata == r.metadata + metadata
                  && a.(status := r.status, frozenAt := r.frozenAt, metadata := r.metadata,
                        updatedAt := r.updatedAt) == r
                  && Stamped(r, a, now)
                else a == r)
  {
    var i := Find(db.rs, key, version);
    if i.Some? {
      NamedOnce(db.rs, i.value, key, version);
    }
    hide Find, Indexed;
  }

  /** The row is as it was but for status, the version taken instead and further metadata. */
  predicate Withdrawn(r: Release, a: Release, to: string, metadata: Metadata, now: int) {
    && a.status == RolledBack && a.rolledBackFrom == Some(to) && a.metadata == r.metadata + metadata
    && a.(status := r.status, rolledBackFrom := r.rolledBackFrom, metadata := r.metadata, updatedAt := r.updatedAt) == r
    && Stamped(r, a, now)
  }

  /** The row rolled back to itself: of the second write only what differs from the row as it was gets through. */
  predicate RestoredOverItself(r: Release, a: Release, metadata: Metadata, now: int) {
    && a.status == (if r.status == Published then RolledBack else Published)
    && a.publishedAt == Some(now) && a.rolledBackFrom == Some(r.version)
    && a.metadata == (if r.metadata["rolled_back_from" := r.version] == r.metadata
                      then r.metadata + metadata else r.metadata["rolled_back_from" := r.version])
    && a.(status := r.status, publishedAt := r.publishedAt, rolledBackFrom := r.rolledBackFrom,
          metadata := r.metadata, updatedAt := r.updatedAt) == r
  }

  lemma RollbackWrites(r: Release, from: string, to: string, metadata: Metadata, now: int)
    ensures Withdrawn(r, RolledBackRow(r, to, metadata, now), to, metadata, now)
    ensures Republished(r, RestoredRow(r, r, from, now), r.metadata["rolled_back_from" := from], now)
    ensures
      RestoredOverItself(r, RestoredRow(RolledBackRow(r, r.version, metadata, now), r, r.version, now), metadata, now)
  {
  }

  lemma RollbackRows(rs: Releases, i: nat, j: nat, metadata: Metadata, now: int)
    requires i < |rs| && j < |rs|
    ensures
      var after := Rollback(rs, i, j, metadata, now);
      && |after| == |rs| && (forall k | 0 <= k < |rs| && k != i && k != j :: after[k] == rs[k])
      && (i == j ==> RestoredOverItself(rs[i], after[i], metadata, now))
      && (i != j ==> Withdrawn(rs[i], after[i], rs[j].version, metadata, now))
      && (i != j ==> Republished(rs[j], after[j], rs[j].metadata["rolled_back_from" := rs[i].version], now))
  {
    RollbackWrites(rs[i], rs[i].version, rs[j].version, metadata, now);
    RollbackWrites(rs[j], rs[i].version, rs[j].version, metadata, now);
    hide RolledBackRow, RestoredRow, Withdrawn, Republished, RestoredOverItself;
  }

  lemma ApplyRollBack(h: Host, db: Db, key: string, version: string, to: string, metadata: Metadata, now: int)
    ensures
      var i, j := Find(db.rs, key, version), Find(db.rs, key, to);
      Apply(h, db, RollBack(key, version, to, metadata), now)
      == if i.None? || j.None? then None
         else Some(Db(Rollback(db.rs, i.value, j.value, metadata, now),
                      Settings(Some(key), Some(to), db.settings.assignmentEnabled, db.settings.resolverBust + 1,
                               db.settings.packBust + 1), db.nextId))
  {
    hide Find, Rollback;
  }

  /** Rolling back raises iff either row is missing. The row rolled back from and the target are written, nothing
      else; the target's columns come from the copy loaded before, so of a row rolled back to itself the status
      that copy had and the metadata given are not written again. */
  lemma RollbackColumns(h: Host, db: Db, key: string, version: string, to: string, metadata: Metadata, now: int)
    requires Indexed(db.rs)
    ensures
      var after := Apply(h, db, RollBack(key, version, to, metadata), now);
      && (after.None? <==>
           || (forall k | 0 <= k < |db.rs| :: !(db.rs[k].key == key && db.rs[k].version == version))
           || (forall k | 0 <= k < |db.rs| :: !(db.rs[k].key == key && db.rs[k].version == to)))
      && (after.Some? ==>
           && |after.value.rs| == |db.rs| && after.value.nextId == db.nextId
           && after.value.settings == Settings(Some(key), Some(to), db.settings.assignmentEnabled,
                                               db.settings.resolverBust + 1, db.settings.packBust + 1)
           && forall k | 0 <= k < |db.rs| ::
                var r, a := db.rs[k], after.value.rs[k];
                if r.key != key || (r.version != version && r.version != to) then a == r
                else if version == to then RestoredOverItself(r, a, metadata, now)
                else if r.version == version then Withdrawn(r, a, to, metadata, now)
                else Republished(r, a, r.metadata["rolled_back_from" := version], now))
  {
    var i, j := Find(db.rs, key, version), Find(db.rs, key, to);
    if i.Some? {
      NamedOnce(db.rs, i.value, key, version);
    }
    if j.Some? {
      NamedOnce(db.rs, j.value, key, to);
    }
    ApplyRollBack(h, db, key, version, to, metadata, now);
    hide Apply, Indexed, Find, Withdrawn, Republished, RestoredOverItself;
    if i.Some? && j.Some? {
      RollbackRows(db.rs, i.value, j.value, metadata, now);
      hide Rollback;
    }
  }

  /** A version that has been published over, deprecated or rolled back from is found no more by name. */
  lemma WithdrawnNotFound(sys: System, rs: Releases, k: nat, req: Request)
    requires Indexed(rs) && k < |rs| && !Blank(rs[k].version)
    requires rs[k].status == Deprecated || rs[k].status == RolledBack || rs[k].status == Draft
    requires req.key == rs[k].key && Presence(req.version) == Some(rs[k].version)
    ensures FetchUncached(sys, rs, req) == None
  {
    var i := Find(rs, rs[k].key, rs[k].version);
    assert Named(rs[k], rs[k].key, rs[k].version);
    NamedOnce(rs, i.value, rs[k].key, rs[k].version);
    hide Find, Indexed, FetchSystem, RecordForRelease, Blank;
  }

  /** In particular the versions a publish replaces. */
  lemma PublishWithdraws(sys: System, db: Db, key: string, version: string, metadata: Metadata, now: int, k: nat,
    req: Request)
    requires Indexed(db.rs) && Apply(sys.host, db, Publish(key, version, metadata), now).Some?
    requires k < |db.rs| && db.rs[k].key == key && db.rs[k].version != version && db.rs[k].status == Published
    requires req.key == key && Presence(req.version) == Some(db.rs[k].version)
    ensures FetchUncached(sys, Apply(sys.host, db, Publish(key, version, metadata), now).value.rs, req) == None
  {
    PublishColumns(sys.host, db, key, version, metadata, now);
    OnlyImportsChangeIdentities(sys.host, db, Publish(key, version, metadata), now);
    var after := Apply(sys.host, db, Publish(key, version, metadata), now).value;
    IdentitiesKeepIndexed(db.rs, after.rs);
    assert !Blank(db.rs[k].version) by { PresenceVisible(req.version); }
    hide Apply, Indexed, FetchUncached;
    WithdrawnNotFound(sys, after.rs, k, req);
  }

  lemma PresenceVisible(v: Option<string>)
    ensures Presence(v).Some? ==> !Blank(Presence(v).value)
  {
  }

  lemma IdentitiesKeepIndexed(rs: Releases, rs': Releases)
    requires Indexed(rs) && SameIdentities(rs, rs')
    ensures Indexed(rs')
  {
  }

  /** The row is as it was but for importer, checksum, payload and further metadata. */
  predicate Refilled(r: Release, a: Release, q: Profile, op: Op, now: int)
    requires op.Import?
  {
    && a.importedBy == op.actor && a.checksum == op.checksum && a.payload == q
    && a.metadata == r.metadata + op.metadata
    && a.(importedBy := r.importedBy, checksum := r.checksum, payload := r.payload, metadata := r.metadata,
          updatedAt := r.updatedAt) == r
    && Stamped(r, a, now)
  }

  lemma SavedRefills(r: Release, q: Profile, op: Op, now: int)
    requires op.Import?
    ensures
      Refilled(r, Saved(r, r.(importedBy := op.actor, checksum := op.checksum, payload := q,
                              metadata := r.metadata + op.metadata), now), q, op, now)
  {
  }

  /** Importing raises iff the payload does not validate. It fills in the row of that name, or adds a draft. */
  lemma ImportColumns(h: Host, db: Db, op: Op, now: int)
    requires op.Import? && Indexed(db.rs)
    ensures
      var after := Apply(h, db, op, now);
      && (after.None? <==> Validate(h, op.payload).None?)
      && (after.Some? ==>
           var q := Validate(h, op.payload).value;
           && NamesRelease(q)
           && after.value.settings == db.settings.(packBust := db.settings.packBust + 1)
           && (forall k | 0 <= k < |db.rs| && !Named(db.rs[k], ProfileKey(q), ProfileVersion(q)) ::
                 k < |after.value.rs| && after.value.rs[k] == db.rs[k])
           && (forall k | 0 <= k < |db.rs| && Named(db.rs[k], ProfileKey(q), ProfileVersion(q)) ::
                 && |after.value.rs| == |db.rs| && after.value.nextId == db.nextId
                 && Refilled(db.rs[k], after.value.rs[k], q, op, now))
           && ((forall k | 0 <= k < |db.rs| :: !Named(db.rs[k], ProfileKey(q), ProfileVersion(q))) ==>
                 && |after.value.rs| == |db.rs| + 1 && after.value.nextId == db.nextId + 1
                 && after.value.rs[|db.rs|]
                    == Release(db.nextId, ProfileKey(q), ProfileVersion(q), Draft, q, op.checksum, op.actor,
                               op.metadata, None, None, None, None, now)))
  {
    ApplyImport(h, db, op, now);
    hide Apply;
    if Validate(h, op.payload).Some? {
      ValidNames(h, op.payload);
      hide Validate, NamesRelease;
      ImportRowsColumns(db, Validate(h, op.payload).value, op, now);
      hide ImportRows, Named, Refilled, ProfileKey, ProfileVersion;
    }
  }

  lemma ApplyImport(h: Host, db: Db, op: Op, now: int)
    requires op.Import?
    ensures
      var q := Validate(h, op.payload);
      && (q.None? ==> Apply(h, db, op, now).None?)
      && (q.Some? ==>
           && NamesRelease(q.value)
           && Apply(h, db, op, now) == Some(Db(ImportRows(db, q.value, op, now).0,
                db.settings.(packBust := db.settings.packBust + 1), ImportRows(db, q.value, op, now).1)))
  {
    hide Validate, NamesRelease, ProfileKey, ProfileVersion, ImportRows;
    ValidNames(h, op.payload);
  }

  lemma ImportRowsColumns(db: Db, q: Profile, op: Op, now: int)
    requires op.Import? && Indexed(db.rs) && NamesRelease(q)
    ensures
      var (rs, nextId) := ImportRows(db, q, op, now);
      && (forall k | 0 <= k < |db.rs| && !Named(db.rs[k], ProfileKey(q), ProfileVersion(q)) ::
            k < |rs| && rs[k] == db.rs[k])
      && (forall k | 0 <= k < |db.rs| && Named(db.rs[k], ProfileKey(q), ProfileVersion(q)) ::
            |rs| == |db.rs| && nextId == db.nextId && Refilled(db.rs[k], rs[k], q, op, now))
      && ((forall k | 0 <= k < |db.rs| :: !Named(db.rs[k], ProfileKey(q), ProfileVersion(q))) ==>
            && |rs| == |db.rs| + 1 && nextId == db.nextId + 1
            && rs[|db.rs|] == Release(db.nextId, ProfileKey(q), ProfileVersion(q), Draft, q, op.checksum, op.actor,
                                      op.metadata, None, None, None, None, now))
  {
    hide ProfileKey, ProfileVersion, NamesRelease;
    var i := Find(db.rs, ProfileKey(q), ProfileVersion(q));
    if i.Some? {
      NamedOnce(db.rs, i.value, ProfileKey(q), ProfileVersion(q));
      SavedRefills(db.rs[i.value], q, op, now);
    }
    hide Find, Indexed, Named, Saved, Refilled;
  }
}
