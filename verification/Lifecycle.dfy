/** The release state machine: import, publish, deprecate, freeze and rollback over one tenant's
    release rows and settings. */
module Lifecycle {
  import opened Wrappers
  import opened Text
  import opened Registry
  import opened RegistryTheorems
  import opened PackStore
  import PackStoreProtocol

  datatype Settings = Settings(
    defaultKey: Option<string>, defaultVersion: Option<string>,
    assignmentEnabled: bool, resolverBust: nat, packBust: nat)

  datatype Db = Db(rs: Releases, settings: Settings, nextId: nat)

  type Metadata = map<string, string>

  // ----- what each operation does to the rows, as functions

  /** `save!` touches `updated_at` only when a column changed. */
  function Saved(old_: Release, new_: Release, now: int): Release {
    if new_ == old_ then old_ else new_.(updatedAt := now)
  }

  function Map(rs: Releases, f: Release -> Release): (r: Releases)
    ensures |r| == |rs| && forall i | 0 <= i < |rs| :: r[i] == f(rs[i])
  {
    seq(|rs|, i requires 0 <= i < |rs| => f(rs[i]))
  }

  function AsDeprecated(r: Release, now: int): Release {
    Saved(r, r.(status := Deprecated, deprecatedAt := Some(now)), now)
  }

  function AsPublished(r: Release, metadata: Metadata, now: int): Release {
    Saved(r, r.(status := Published, publishedAt := Some(now), metadata := r.metadata + metadata), now)
  }

  /** Publishing a version: it becomes published and every other published version deprecated. */
  function PublishedRow(r: Release, key: string, version: string, metadata: Metadata, now: int): Release {
    if Named(r, key, version) then AsPublished(r, metadata, now)
    else if r.key == key && r.status == Published then AsDeprecated(r, now)
    else r
  }

  function DeprecatedRow(r: Release, metadata: Metadata, now: int): Release {
    Saved(r, r.(status := Deprecated, deprecatedAt := Some(now), metadata := r.metadata + metadata), now)
  }

  function FrozenRow(r: Release, metadata: Metadata, now: int): Release {
    Saved(r, r.(status := Frozen, frozenAt := Some(now), metadata := r.metadata + metadata), now)
  }

  function RolledBackRow(r: Release, to: string, metadata: Metadata, now: int): Release {
    Saved(r, r.(status := RolledBack, rolledBackFrom := Some(to), metadata := r.metadata + metadata), now)
  }

  /** Republishing the target of a rollback from the copy `loaded` before the row may have changed:
      only the columns that differ from that copy are written. */
  function RestoredRow(row: Release, loaded: Release, from: string, now: int): Release {
    var metadata := loaded.metadata["rolled_back_from" := from];
    var dirty := loaded.(status := Published, publishedAt := Some(now), metadata := metadata) != loaded;
    row.(
      status := if loaded.status == Published then row.status else Published,
      publishedAt := if loaded.publishedAt == Some(now) then row.publishedAt else Some(now),
      metadata := if loaded.metadata == metadata then row.metadata else metadata,
      updatedAt := if dirty then now else row.updatedAt)
  }

  function Rollback(rs: Releases, i: nat, j: nat, metadata: Metadata, now: int): Releases
    requires i < |rs| && j < |rs|
  {
    var rs1 := rs[i := RolledBackRow(rs[i], rs[j].version, metadata, now)];
    rs1[j := RestoredRow(rs1[j], rs[j], rs[i].version, now)]
  }

  function BumpPack(s: Settings): Settings { s.(packBust := s.packBust + 1) }

  function BumpBoth(s: Settings): Settings { BumpPack(s.(resolverBust := s.resolverBust + 1)) }

  function WithDefault(s: Settings, key: string, version: string): Settings {
    s.(defaultKey := Some(key), defaultVersion := Some(version))
  }

  datatype Op =
    | Import(payload: Profile, checksum: Option<string>, actor: Option<nat>, metadata: Metadata)
    | Publish(key: string, version: string, metadata: Metadata)
    | Deprecate(key: string, version: string, metadata: Metadata)
    | Freeze(key: string, version: string, metadata: Metadata)
    | RollBack(key: string, version: string, to: string, metadata: Metadata)

  function NewRow(id: nat, profile: Profile, checksum: Option<string>, actor: Option<nat>, metadata: Metadata,
    now: int): Release
    requires NamesRelease(profile)
  {
    Release(id, ProfileKey(profile), ProfileVersion(profile), Draft, profile, checksum, actor, metadata,
      None, None, None, None, now)
  }

  function ImportRows(db: Db, profile: Profile, op: Op, now: int): (Releases, nat)
    requires op.Import? && NamesRelease(profile)
  {
    var i := Find(db.rs, ProfileKey(profile), ProfileVersion(profile));
    if i.None? then
      (db.rs + [NewRow(db.nextId, profile, op.checksum, op.actor, op.metadata, now)], db.nextId + 1)
    else
      var r := db.rs[i.value];
      (db.rs[i.value := Saved(r, r.(importedBy := op.actor, checksum := op.checksum, payload := profile,
                                    metadata := r.metadata + op.metadata), now)], db.nextId)
  }

  /** One operation; `None` is a `LifecycleError`, raised before anything is written. */
  function Apply(h: Host, db: Db, op: Op, now: int): Option<Db> {
    match op
    case Import(payload, _, _, _) =>
      var profile := Validate(h, payload);
      if profile.None? then None
      else
        var (rs, nextId) := ImportRows(db, profile.value, op, now);
        Some(Db(rs, BumpPack(db.settings), nextId))
    case Publish(key, version, metadata) =>
      if Find(db.rs, key, version).None? then None
      else Some(db.(
        rs := Map(db.rs, r => PublishedRow(r, key, version, metadata, now)),
        settings := BumpBoth(WithDefault(db.settings, key, version))))
    case Deprecate(key, version, metadata) =>
      var i := Find(db.rs, key, version);
      if i.None? then None
      else Some(db.(rs := db.rs[i.value := DeprecatedRow(db.rs[i.value], metadata, now)],
          settings := BumpBoth(db.settings)))
    case Freeze(key, version, metadata) =>
      var i := Find(db.rs, key, version);
      if i.None? then None
      else Some(db.(rs := db.rs[i.value := FrozenRow(db.rs[i.value], metadata, now)],
          settings := BumpBoth(db.settings)))
    case RollBack(key, version, to, metadata) =>
      var i, j := Find(db.rs, key, version), Find(db.rs, key, to);
      if i.None? || j.None? then None
      else Some(db.(
        rs := Rollback(db.rs, i.value, j.value, metadata, now),
        settings := BumpBoth(WithDefault(db.settings, key, to))))
  }

  /** The rows once the other published versions are deprecated and the found one published. */
  lemma PublishedAll(rs: Releases, others: Releases, found: nat, key: string, version: string, metadata: Metadata,
    now: int)
    requires Indexed(rs) && Find(rs, key, version) == Some(found) && |others| == |rs|
    requires forall k | 0 <= k < |rs| ::
      others[k]
      == if rs[k].key == key && rs[k].status == Published && k != found then AsDeprecated(rs[k], now) else rs[k]
    ensures others[found := AsPublished(others[found], metadata, now)]
        == Map(rs, r => PublishedRow(r, key, version, metadata, now))
  {
    hide AsDeprecated, AsPublished;
    forall k | 0 <= k < |rs|
      ensures Named(rs[k], key, version) <==> k == found
    {
      assert k == found || k < found || found < k;
    }
  }

  // ----- the service

  class LifecycleService {
    const host: Host
    var releases: Releases
    var settings: Settings
    var nextId: nat

    constructor (host: Host)
      ensures this.host == host && Contents() == Db([], Settings(None, None, false, 0, 0), 1)
    {
      this.host := host;
      releases, settings, nextId := [], Settings(None, None, false, 0, 0), 1;
    }

    function Contents(): Db
      reads this
    {
      Db(releases, settings, nextId)
    }

    method InvalidatePackStore()
      modifies this`settings
      ensures settings == BumpPack(old(settings))
    {
      settings := settings.(packBust := settings.packBust + 1);
    }

    method InvalidateResolver()
      modifies this`settings
      ensures settings == old(settings).(resolverBust := old(settings).resolverBust + 1)
    {
      settings := settings.(resolverBust := settings.resolverBust + 1);
    }

    method ImportPack(payload: Profile, checksum: Option<string>, actor: Option<nat>, metadata: Metadata, now: int)
      returns (ok: bool)
      modifies this
      ensures ok <==> Apply(host, old(Contents()), Import(payload, checksum, actor, metadata), now).Some?
      ensures ok ==> Apply(host, old(Contents()), Import(payload, checksum, actor, metadata), now) == Some(Contents())
      ensures !ok ==> Contents() == old(Contents())
    {
      ValidNames(host, payload);
      hide Validate, NamesRelease, ProfileKey, ProfileVersion;
      var validation := Validate(host, payload);
      if validation.None? {
        return false;
      }
      var profile := validation.value;
      var i := Find(releases, ProfileKey(profile), ProfileVersion(profile));
      if i.None? {
        releases := releases + [NewRow(nextId, profile, checksum, actor, metadata, now)];
        nextId := nextId + 1;
      } else {
        var r := releases[i.value];
        var filled :=
            r.(importedBy := actor, checksum := checksum, payload := profile, metadata := r.metadata + metadata);
        releases := releases[i.value := Saved(r, filled, now)];
      }
      InvalidatePackStore();
      return true;
    }

    /** The loop of publishing: every other published version of the profile is deprecated. */
    method DeprecateOthers(key: string, found: nat, now: int)
      requires found < |releases|
      modifies this`releases
      ensures |releases| == |old(releases)| && forall k | 0 <= k < |releases| ::
        releases[k] == var r := old(releases)[k];
                       if r.key == key && r.status == Published && k != found then AsDeprecated(r, now) else r
    {
      hide AsDeprecated;
      var i := 0;
      while i < |releases|
        invariant 0 <= i <= |releases| == |old(releases)|
        invariant forall k | 0 <= k < |releases| :: releases[k] ==
                    var r := old(releases)[k];
                    if k < i && r.key == key && r.status == Published && k != found then AsDeprecated(r, now) else r
      {
        var existing := releases[i];
        if existing.key == key && existing.status == Published && i != found {
          releases := releases[i := AsDeprecated(existing, now)];
        }
        i := i + 1;
      }
    }

    method PublishPack(key: string, version: string, metadata: Metadata, now: int) returns (ok: bool)
      modifies this
      ensures ok <==> Apply(host, old(Contents()), Publish(key, version, metadata), now).Some?
      ensures ok && old(Indexed(releases)) ==>
                Apply(host, old(Contents()), Publish(key, version, metadata), now) == Some(Contents())
      ensures !ok ==> Contents() == old(Contents())
    {
      hide AsDeprecated, AsPublished, PublishedRow, Indexed;
      var found := Find(releases, key, version);
      if found.None? {
        return false;
      }
      DeprecateOthers(key, found.value, now);
      ghost var others := releases;
      releases := releases[found.value := AsPublished(releases[found.value], metadata, now)];
      settings := WithDefault(settings, key, version);
      InvalidateResolver();
      InvalidatePackStore();
      if old(Indexed(releases)) {
        PublishedAll(old(releases), others, found.value, key, version, metadata, now);
      }
      return true;
    }

    method DeprecatePack(key: string, version: string, metadata: Metadata, now: int) returns (ok: bool)
      modifies this
      ensures ok <==> Apply(host, old(Contents()), Deprecate(key, version, metadata), now).Some?
      ensures ok ==> Apply(host, old(Contents()), Deprecate(key, version, metadata), now) == Some(Contents())
      ensures !ok ==> Contents() == old(Contents())
    {
      var i := Find(releases, key, version);
      if i.None? {
        return false;
      }
      releases := releases[i.value := DeprecatedRow(releases[i.value], metadata, now)];
      InvalidateResolver();
      InvalidatePackStore();
      return true;
    }

    method FreezePack(key: string, version: string, metadata: Metadata, now: int) returns (ok: bool)
      modifies this
      ensures ok <==> Apply(host, old(Contents()), Freeze(key, version, metadata), now).Some?
      ensures ok ==> Apply(host, old(Contents()), Freeze(key, version, metadata), now) == Some(Contents())
      ensures !ok ==> Contents() == old(Contents())
    {
      var i := Find(releases, key, version);
      if i.None? {
        return false;
      }
      releases := releases[i.value := FrozenRow(releases[i.value], metadata, now)];
      InvalidateResolver();
      InvalidatePackStore();
      return true;
    }

    method RollBackPack(key: string, version: string, to: string, metadata: Metadata, now: int) returns (ok: bool)
      modifies this
      ensures ok <==> Apply(host, old(Contents()), RollBack(key, version, to, metadata), now).Some?
      ensures ok ==> Apply(host, old(Contents()), RollBack(key, version, to, metadata), now) == Some(Contents())
      ensures !ok ==> Contents() == old(Contents())
    {
      var i, j := Find(releases, key, version), Find(releases, key, to);
      if i.None? || j.None? {
        return false;
      }
      var target := releases[j.value];
      releases := releases[i.value := RolledBackRow(releases[i.value], to, metadata, now)];
      releases := releases[j.value := RestoredRow(releases[j.value], target, version, now)];
      settings := WithDefault(settings, key, to);
      InvalidateResolver();
      InvalidatePackStore();
      return true;
    }
  }

  // ----- invariants over every run

  datatype Timed = Timed(op: Op, now: int)

  /** A run; an operation that raises leaves the state as it was. */
  function Run(h: Host, db: Db, ops: seq<Timed>): Db
    decreases |ops|
  {
    if ops == [] then db else
    var next := Apply(h, db, ops[0].op, ops[0].now);
    Run(h, if next.Some? then next.value else db, ops[1..])
  }

  /** A row as `import!` saved it: a validated payload under the key and version the payload names. */
  predicate RowImported(h: Host, r: Release) {
    && Validate(h, r.payload) == Some(r.payload)
    && NamesRelease(r.payload) && r.key == ProfileKey(r.payload) && r.version == ProfileVersion(r.payload)
  }

  /** What the table's own indexes guarantee: the unique one holds and ids are below the next one. */
  predicate Numbered(db: Db) { Indexed(db.rs) && forall i | 0 <= i < |db.rs| :: db.rs[i].id < db.nextId }

  /** Beyond that every row is as imported. */
  predicate Imported(h: Host, db: Db) { Numbered(db) && forall i | 0 <= i < |db.rs| :: RowImported(h, db.rs[i]) }

  predicate SameIdentity(a: Release, b: Release) {
    a.id == b.id && a.key == b.key && a.version == b.version && a.payload == b.payload
  }

  predicate SameIdentities(rs: Releases, rs': Releases) {
    |rs| == |rs'| && forall i | 0 <= i < |rs| :: SameIdentity(rs'[i], rs[i])
  }

  lemma OnlyImportsChangeIdentities(h: Host, db: Db, op: Op, now: int)
    requires !op.Import? && Apply(h, db, op, now).Some?
    ensures SameIdentities(db.rs, Apply(h, db, op, now).value.rs) && Apply(h, db, op, now).value.nextId == db.nextId
  {
    hide Find;
    if op.RollBack? {
      RollbackRows(db.rs, Find(db.rs, op.key, op.version).value, Find(db.rs, op.key, op.to).value, op.metadata, now);
    }
  }

  lemma IdentitiesKeepNumbered(db: Db, db': Db)
    requires Numbered(db) && SameIdentities(db.rs, db'.rs) && db'.nextId == db.nextId
    ensures Numbered(db')
  {
  }

  lemma IdentitiesKeepImported(h: Host, db: Db, db': Db)
    requires Imported(h, db) && SameIdentities(db.rs, db'.rs) && db'.nextId == db.nextId
    ensures Imported(h, db')
  {
    IdentitiesKeepNumbered(db, db');
    hide Numbered, Validate, NamesRelease, ProfileKey, ProfileVersion;
    forall i | 0 <= i < |db.rs| ensures RowImported(h, db'.rs[i]) {
      assert RowImported(h, db.rs[i]) && SameIdentity(db'.rs[i], db.rs[i]);
    }
  }

  lemma ImportedRow(h: Host, db: Db, op: Op, now: int)
    requires op.Import? && Validate(h, op.payload).Some?
    ensures Apply(h, db, op, now).Some?
    ensures
      var q := Validate(h, op.payload).value;
      var i := Find(db.rs, ProfileKey(q), ProfileVersion(q));
      var after := Apply(h, db, op, now).value;
      && NamesRelease(q)
      && (i.None? ==> after.rs[..|db.rs|] == db.rs && |after.rs| == |db.rs| + 1 && after.nextId == db.nextId + 1)
      && (i.Some? ==>
          |after.rs| == |db.rs| && after.rs == db.rs[i.value := after.rs[i.value]] && after.nextId == db.nextId)
      && var r := after.rs[if i.Some? then i.value else |db.rs|];
         && r.payload == q && Named(r, ProfileKey(q), ProfileVersion(q))
         && r.id == (if i.Some? then db.rs[i.value].id else db.nextId)
         && (i.Some? ==> r.status == db.rs[i.value].status) && (i.None? ==> r.status == Draft)
  {
    hide Validate, NamesRelease, ProfileKey, ProfileVersion;
    ValidNames(h, op.payload);
  }

  lemma ImportKeepsNumbered(h: Host, db: Db, op: Op, now: int)
    requires Numbered(db) && op.Import? && Validate(h, op.payload).Some?
    ensures Numbered(Apply(h, db, op, now).value)
  {
    hide Validate, NamesRelease, ProfileKey, ProfileVersion, Apply;
    ImportedRow(h, db, op, now);
    var q := Validate(h, op.payload).value;
    var after := Apply(h, db, op, now).value;
    if Find(db.rs, ProfileKey(q), ProfileVersion(q)).None? {
      assert forall k | 0 <= k < |db.rs| :: after.rs[k] == after.rs[..|db.rs|][k];
    }
  }

  /** No operation breaks the indexes. */
  lemma ApplyKeepsNumbered(h: Host, db: Db, op: Op, now: int)
    requires Numbered(db) && Apply(h, db, op, now).Some?
    ensures Numbered(Apply(h, db, op, now).value)
  {
    hide Numbered;
    if op.Import? {
      ImportKeepsNumbered(h, db, op, now);
    } else {
      OnlyImportsChangeIdentities(h, db, op, now);
      IdentitiesKeepNumbered(db, Apply(h, db, op, now).value);
    }
  }

  lemma ImportKeepsImported(h: Host, db: Db, op: Op, now: int)
    requires Imported(h, db) && op.Import? && Validate(h, op.payload).Some?
    ensures Imported(h, Apply(h, db, op, now).value)
  {
    ImportKeepsNumbered(h, db, op, now);
    ValidatedIsFixed(h, op.payload);
    hide Numbered, Validate, NamesRelease, ProfileKey, ProfileVersion, Apply, Imported, Find;
    var at := OnlyOneRowImported(h, db, op, now);
    StillAllImported(h, db, Apply(h, db, op, now).value, at);
  }

  /** An import saves one row, which holds the validated payload, and leaves the others. */
  lemma OnlyOneRowImported(h: Host, db: Db, op: Op, now: int) returns (at: nat)
    requires op.Import? && Validate(h, op.payload).Some?
    ensures
      var q, rs := Validate(h, op.payload).value, Apply(h, db, op, now).value.rs;
      && at < |rs| && rs[at].payload == q && NamesRelease(q) && Named(rs[at], ProfileKey(q), ProfileVersion(q))
      && forall k | 0 <= k < |rs| && k != at :: k < |db.rs| && rs[k] == db.rs[k]
  {
    ImportedRow(h, db, op, now);
    hide Validate, NamesRelease, ProfileKey, ProfileVersion, Apply, Find;
    var q, rs := Validate(h, op.payload).value, Apply(h, db, op, now).value.rs;
    var i := Find(db.rs, ProfileKey(q), ProfileVersion(q));
    if i.Some? {
      at := i.value;
    } else {
      at := |db.rs|;
      assert forall k | 0 <= k < |db.rs| :: rs[..|db.rs|][k] == rs[k];
    }
  }

  lemma StillAllImported(h: Host, db: Db, after: Db, at: nat)
    requires Imported(h, db) && Numbered(after) && at < |after.rs| && RowImported(h, after.rs[at])
    requires forall k | 0 <= k < |after.rs| && k != at :: k < |db.rs| && after.rs[k] == db.rs[k]
    ensures Imported(h, after)
  {
    hide RowImported, Numbered;
  }

  lemma ApplyKeepsImported(h: Host, db: Db, op: Op, now: int)
    requires Imported(h, db) && Apply(h, db, op, now).Some?
    ensures Imported(h, Apply(h, db, op, now).value)
  {
    hide Imported;
    if op.Import? {
      ImportKeepsImported(h, db, op, now);
    } else {
      OnlyImportsChangeIdentities(h, db, op, now);
      IdentitiesKeepImported(h, db, Apply(h, db, op, now).value);
    }
  }

  lemma ValidNames(h: Host, payload: Profile)
    ensures var q := Validate(h, payload);
            q.Some? ==> NamesRelease(q.value) && !Blank(ProfileKey(q.value)) && !Blank(ProfileVersion(q.value))
  {
  }

  lemma {:induction false} RunKeepsImported(h: Host, db: Db, ops: seq<Timed>)
    requires Imported(h, db)
    ensures Imported(h, Run(h, db, ops))
    decreases |ops|
  {
    if ops != [] {
      var next := Apply(h, db, ops[0].op, ops[0].now);
      if next.Some? {
        ApplyKeepsImported(h, db, ops[0].op, ops[0].now);
        RunKeepsImported(h, next.value, ops[1..]);
      } else {
        RunKeepsImported(h, db, ops[1..]);
      }
    }
  }

  predicate OnePublished(rs: Releases) {
    forall i, j | 0 <= i < j < |rs| && rs[i].key == rs[j].key :: !(rs[i].status == rs[j].status == Published)
  }

  /** Every published version of the profile is one end of the rollback: the guard a caller of
      `rollback!` could check beforehand. */
  predicate RollbackGuard(rs: Releases, key: string, version: string, to: string) {
    forall i | 0 <= i < |rs| && rs[i].key == key && rs[i].status == Published :: rs[i].version in {version, to}
  }

  lemma RollbackRows(rs: Releases, i: nat, j: nat, metadata: Metadata, now: int)
    requires i < |rs| && j < |rs|
    ensures
      var after := Rollback(rs, i, j, metadata, now);
      && |after| == |rs| && (forall k | 0 <= k < |rs| && k != i && k != j :: after[k] == rs[k])
      && (i != j ==> after[i].status == RolledBack && after[j].status == Published)
      && (i == j ==> after[i].status == if rs[i].status == Published then RolledBack else Published)
      && forall k | 0 <= k < |rs| :: SameIdentity(after[k], rs[k])
  {
  }

  /** From a state with at most one published version per profile, a rollback leaves at most one
      exactly when no third version of the profile is published. */
  lemma RollbackKeepsOneIff(h: Host, db: Db, key: string, version: string, to: string, metadata: Metadata, now: int)
    requires Indexed(db.rs) && OnePublished(db.rs)
    requires Apply(h, db, RollBack(key, version, to, metadata), now).Some?
    ensures
      OnePublished(Apply(h, db, RollBack(key, version, to, metadata), now).value.rs)
      <==> RollbackGuard(db.rs, key, version, to)
  {
    hide Rollback, OnePublished, RollbackGuard, Indexed;
    RollbackRowsKeepOneIff(db.rs, Find(db.rs, key, version).value, Find(db.rs, key, to).value, metadata, now);
  }

  lemma RollbackRowsKeepOneIff(rs: Releases, i: nat, j: nat, metadata: Metadata, now: int)
    requires i < |rs| && j < |rs| && rs[i].key == rs[j].key && Indexed(rs) && OnePublished(rs)
    ensures OnePublished(Rollback(rs, i, j, metadata, now))
        <==> RollbackGuard(rs, rs[i].key, rs[i].version, rs[j].version)
  {
    var after, key := Rollback(rs, i, j, metadata, now), rs[i].key;
    RollbackRows(rs, i, j, metadata, now);
    hide Rollback;
    var both := {rs[i].version, rs[j].version};
    if k :| 0 <= k < |rs| && rs[k].key == key && rs[k].status == Published && rs[k].version !in both {
      assert after[k] == rs[k] && after[j].status == Published && after[j].key == key;
      assert k < j || j < k;
    } else {
      forall k | 0 <= k < |rs| && k != i && k != j && rs[k].key == key
        ensures rs[k].status != Published
      {
        assert rs[k].version !in both by {
          OneRowPerVersion(rs, k, i);
          OneRowPerVersion(rs, k, j);
        }
      }
    }
  }

  lemma OneRowPerVersion(rs: Releases, i: nat, j: nat)
    requires Indexed(rs) && i < |rs| && j < |rs| && i != j
    ensures rs[i].key == rs[j].key ==> rs[i].version != rs[j].version
  {
    assert i < j || j < i;
  }

  predicate GuardedOp(db: Db, op: Op) { op.RollBack? ==> RollbackGuard(db.rs, op.key, op.version, op.to) }

  lemma ApplyKeepsOnePublished(h: Host, db: Db, op: Op, now: int)
    requires Indexed(db.rs) && OnePublished(db.rs) && GuardedOp(db, op) && Apply(h, db, op, now).Some?
    ensures OnePublished(Apply(h, db, op, now).value.rs)
  {
    hide Validate, NamesRelease, ProfileKey, ProfileVersion;
    if op.RollBack? {
      RollbackKeepsOneIff(h, db, op.key, op.version, op.to, op.metadata, now);
    }
  }

  /** Every rollback of the run meets the guard when its turn comes. */
  predicate GuardedRun(h: Host, db: Db, ops: seq<Timed>)
    decreases |ops|
  {
    ops != [] ==>
      && GuardedOp(db, ops[0].op)
      && GuardedRun(h, Run(h, db, ops[..1]), ops[1..])
  }

  /** In every run whose rollbacks meet the guard, at most one version per profile is published. */
  lemma {:induction false} RunKeepsOnePublished(h: Host, db: Db, ops: seq<Timed>)
    requires Numbered(db) && OnePublished(db.rs) && GuardedRun(h, db, ops)
    ensures OnePublished(Run(h, db, ops).rs)
    decreases |ops|
  {
    if ops != [] {
      var next := Apply(h, db, ops[0].op, ops[0].now);
      var db' := if next.Some? then next.value else db;
      assert Run(h, db, ops[..1]) == Run(h, db', []) by { assert ops[..1][1..] == []; }
      if next.Some? {
        ApplyKeepsNumbered(h, db, ops[0].op, ops[0].now);
        ApplyKeepsOnePublished(h, db, ops[0].op, ops[0].now);
      }
      RunKeepsOnePublished(h, db', ops[1..]);
    }
  }

  /** Rolling back from the published version meets the guard. */
  lemma FromPublishedMeetsGuard(db: Db, key: string, version: string, to: string)
    requires Indexed(db.rs) && OnePublished(db.rs)
    requires Find(db.rs, key, version).Some? && db.rs[Find(db.rs, key, version).value].status == Published
    ensures RollbackGuard(db.rs, key, version, to)
  {
    var i := Find(db.rs, key, version).value;
    forall k | 0 <= k < |db.rs| && db.rs[k].key == key && db.rs[k].status == Published
      ensures db.rs[k].version in {version, to}
    {
      assert k == i || k < i || i < k;
    }
  }

  predicate DefaultIsPublished(db: Db) {
    && db.settings.defaultKey.Some? && db.settings.defaultVersion.Some?
    && exists i :: 0 <= i < |db.rs| && db.rs[i].status == Published
         && Named(db.rs[i], db.settings.defaultKey.value, db.settings.defaultVersion.value)
  }

  /** Right after a publish, the tenant default names that release, which is published, and no
      other version of its profile is. */
  lemma PublishNamesDefault(h: Host, db: Db, key: string, version: string, metadata: Metadata, now: int)
    requires Indexed(db.rs) && Apply(h, db, Publish(key, version, metadata), now).Some?
    ensures
      var after := Apply(h, db, Publish(key, version, metadata), now).value;
      && after.settings.defaultKey == Some(key) && after.settings.defaultVersion == Some(version)
      && DefaultIsPublished(after)
      && forall i | 0 <= i < |after.rs| && after.rs[i].key == key ::
           after.rs[i].status == Published <==> after.rs[i].version == version
  {
    var after := Apply(h, db, Publish(key, version, metadata), now).value;
    var i := Find(db.rs, key, version).value;
    assert after.rs[i].status == Published && Named(after.rs[i], key, version);
  }

  /** Right after a rollback, the tenant default names the target; it is published unless the target
      was the version rolled back from and already published, in which case the stale copy of the row
      leaves it rolled back. */
  lemma RollbackNamesDefaultIff(h: Host, db: Db, key: string, version: string, to: string, metadata: Metadata, now: int)
    requires Indexed(db.rs) && Apply(h, db, RollBack(key, version, to, metadata), now).Some?
    ensures
      var after := Apply(h, db, RollBack(key, version, to, metadata), now).value;
      && after.settings.defaultKey == Some(key) && after.settings.defaultVersion == Some(to)
      && (DefaultIsPublished(after) <==> version != to || db.rs[Find(db.rs, key, to).value].status != Published)
  {
    var i, j := Find(db.rs, key, version).value, Find(db.rs, key, to).value;
    RollbackRows(db.rs, i, j, metadata, now);
    hide Rollback;
    var after := Apply(h, db, RollBack(key, version, to, metadata), now).value;
    assert Named(after.rs[j], key, to);
    forall k | 0 <= k < |after.rs| && Named(after.rs[k], key, to) ensures k == j {
      assert k == j || k < j || j < k;
    }
  }

  /** Without the guard a rollback can leave two versions published. */
  lemma UnguardedRollback(h: Host, published: Release, draft: Release, other: Release)
    requires published.key == draft.key == other.key && published.id < draft.id < other.id
    requires published.version != draft.version && draft.version != other.version && published.version != other.version
    requires published.status == Published && draft.status == Draft && other.status == Draft
    ensures
      var db := Db([published, draft, other], Settings(None, None, false, 0, 0), other.id + 1);
      var after := Apply(h, db, RollBack(draft.key, draft.version, other.version, map[]), 0);
      OnePublished(db.rs) && after.Some? && !OnePublished(after.value.rs)
  {
    var db := Db([published, draft, other], Settings(None, None, false, 0, 0), other.id + 1);
    assert db.rs[0] == published && db.rs[1] == draft && db.rs[2] == other;
    assert Indexed(db.rs);
    assert Find(db.rs, draft.key, draft.version).Some? && Find(db.rs, draft.key, other.version).Some?;
    assert !RollbackGuard(db.rs, draft.key, draft.version, other.version);
    RollbackKeepsOneIff(h, db, draft.key, draft.version, other.version, map[], 0);
  }

  // ----- what deprecating and freezing do to lookups

  lemma {:induction false} FindUnmoved(rs: Releases, i: nat, row: Release, key: string, version: string)
    requires i < |rs| && row.key == rs[i].key && row.version == rs[i].version
    ensures Find(rs[i := row], key, version) == Find(rs, key, version)
  {
    var n, changed := |rs| - 1, rs[i := row];
    if i == n {
      assert changed[..n] == rs[..n];
    } else {
      assert changed[..n] == rs[..n][i := row];
      FindUnmoved(rs[..n], i, row, key, version);
    }
  }

  function Without(rs: Releases, i: nat): Releases
    requires i < |rs|
  {
    rs[..i] + rs[i + 1..]
  }

  lemma LatestOfInit(rs: Releases, key: string)
    requires rs != []
    ensures
      var last, best := rs[|rs| - 1], LatestEligible(rs[..|rs| - 1], key);
      LatestEligible(rs, key)
      == if last.key != key || !Eligible(last.status) then best
         else if best.Some? && Newer(best.value, last) then best else Some(last)
  {
    hide Eligible, Newer;
  }

  lemma SameLastAlike(a: Releases, b: Releases, key: string)
    requires a != [] && b != [] && a[|a| - 1] == b[|b| - 1]
    requires LatestEligible(a[..|a| - 1], key) == LatestEligible(b[..|b| - 1], key)
    ensures LatestEligible(a, key) == LatestEligible(b, key)
  {
    hide LatestEligible, Eligible, Newer;
    LatestOfInit(a, key);
    LatestOfInit(b, key);
  }

  /** A changed row that is not eligible for the profile, before or after, does not matter. */
  lemma {:induction false} LatestUnmoved(rs: Releases, i: nat, row: Release, key: string)
    requires i < |rs| && (rs[i].key != key || !Eligible(rs[i].status)) && (row.key != key || !Eligible(row.status))
    ensures LatestEligible(rs[i := row], key) == LatestEligible(rs, key)
  {
    var n := |rs| - 1;
    assert rs[i := row][..n] == if i == n then rs[..n] else rs[..n][i := row];
    if i == n {
      LatestOfInit(rs[i := row], key);
      LatestOfInit(rs, key);
      hide LatestEligible, Eligible, Newer;
    } else {
      hide LatestEligible, Eligible, Newer;
      LatestUnmoved(rs[..n], i, row, key);
      SameLastAlike(rs[i := row], rs, key);
    }
  }

  lemma LatestSkips(rs: Releases, key: string)
    requires rs != [] && !Eligible(rs[|rs| - 1].status)
    ensures LatestEligible(rs, key) == LatestEligible(rs[..|rs| - 1], key)
  {
    hide Eligible, Newer;
  }

  lemma WithoutLast(rs: Releases, row: Release)
    requires rs != []
    ensures rs[|rs| - 1 := row][..|rs| - 1] == Without(rs, |rs| - 1)
  {
  }

  lemma WithoutInit(rs: Releases, i: nat, row: Release)
    requires i < |rs| - 1
    ensures
      var n, rest := |rs| - 1, Without(rs, i);
      && rs[i := row][..n] == rs[..n][i := row] && rs[i := row][n] == rs[n]
      && rest != [] && rest[|rest| - 1] == rs[n] && rest[..|rest| - 1] == Without(rs[..n], i)
  {
  }

  lemma LatestWithoutLast(rs: Releases, row: Release, key: string)
    requires rs != [] && !Eligible(row.status)
    ensures LatestEligible(rs[|rs| - 1 := row], key) == LatestEligible(Without(rs, |rs| - 1), key)
  {
    WithoutLast(rs, row);
    hide LatestEligible, Without, Eligible;
    LatestSkips(rs[|rs| - 1 := row], key);
  }

  lemma LatestWithoutStep(rs: Releases, i: nat, row: Release, key: string)
    requires i < |rs| - 1
    requires LatestEligible(rs[..|rs| - 1][i := row], key) == LatestEligible(Without(rs[..|rs| - 1], i), key)
    ensures LatestEligible(rs[i := row], key) == LatestEligible(Without(rs, i), key)
  {
    WithoutInit(rs, i, row);
    hide LatestEligible, Without;
    SameLastAlike(rs[i := row], Without(rs, i), key);
  }

  /** A row that is not eligible might as well not be there. */
  lemma {:induction false} LatestWithout(rs: Releases, i: nat, row: Release, key: string)
    requires i < |rs| && !Eligible(row.status)
    ensures LatestEligible(rs[i := row], key) == LatestEligible(Without(rs, i), key)
  {
    hide LatestEligible, Without, Eligible;
    if i == |rs| - 1 {
      LatestWithoutLast(rs, row, key);
    } else {
      LatestWithout(rs[..|rs| - 1], i, row, key);
      LatestWithoutStep(rs, i, row, key);
    }
  }

  /** What a request asks for, next to a release. */
  predicate Names(req: Request, key: string, version: string) {
    req.key == key && Presence(req.version) == Some(version)
  }

  lemma OtherLookupsUnmoved(sys: System, rs: Releases, i: nat, row: Release, req: Request)
    requires i < |rs| && row.key == rs[i].key && row.version == rs[i].version
    requires if Presence(req.version).Some? then !Names(req, row.key, row.version) else req.key != row.key
    ensures FetchUncached(sys, rs[i := row], req) == FetchUncached(sys, rs, req)
  {
    hide Blank, FetchSystem, RecordForRelease, Eligible;
    if Presence(req.version).Some? {
      FindUnmoved(rs, i, row, req.key, Presence(req.version).value);
    } else {
      LatestUnmoved(rs, i, row, req.key);
    }
  }

  /** A deprecated version is no longer found by name, not even among the system packs. Asking for no
      version finds what it would if the release were not there; every other lookup is unchanged. */
  lemma DeprecateWithdraws(sys: System, db: Db, key: string, version: string, metadata: Metadata, now: int,
    req: Request)
    requires Apply(sys.host, db, Deprecate(key, version, metadata), now).Some? && !Blank(version)
    ensures
      var rs := Apply(sys.host, db, Deprecate(key, version, metadata), now).value.rs;
      if Names(req, key, version) then FetchUncached(sys, rs, req) == None
      else if Presence(req.version).None? && req.key == key then
        FetchUncached(sys, rs, req) == FetchUncached(sys, Without(db.rs, Find(db.rs, key, version).value), req)
      else FetchUncached(sys, rs, req) == FetchUncached(sys, db.rs, req)
  {
    hide Blank, FetchSystem, RecordForRelease, Validate;
    var i := Find(db.rs, key, version).value;
    var row := DeprecatedRow(db.rs[i], metadata, now);
    FindUnmoved(db.rs, i, row, key, version);
    if Presence(req.version).None? && req.key == key {
      LatestWithout(db.rs, i, row, key);
    } else if !Names(req, key, version) {
      OtherLookupsUnmoved(sys, db.rs, i, row, req);
    }
  }

  /** Freezing changes a row: it was not frozen, or at another time, or gains metadata. */
  predicate Refreezes(r: Release, metadata: Metadata, now: int) {
    r.status != Frozen || r.frozenAt != Some(now) || r.metadata + metadata != r.metadata
  }

  /** A frozen version is found by name as it was imported, whatever its status before. Asking for no
      version finds it too when freezing changes its row and the clock is ahead of its profile's releases;
      every lookup for another version or profile, and for none when the row stays, is unchanged. */
  lemma FreezeServes(sys: System, db: Db, key: string, version: string, metadata: Metadata, now: int, req: Request)
    requires Imported(sys.host, db)
    requires Apply(sys.host, db, Freeze(key, version, metadata), now).Some? && !Blank(version)
    ensures
      var rs := Apply(sys.host, db, Freeze(key, version, metadata), now).value.rs;
      var r := db.rs[Find(db.rs, key, version).value];
      var served := Some(Record(r.payload, TenantRelease, Some(r.id), Some(Frozen)));
      if Names(req, key, version) then FetchUncached(sys, rs, req) == served
      else if Presence(req.version).None? && req.key == key then
        if !Refreezes(r, metadata, now) then FetchUncached(sys, rs, req) == FetchUncached(sys, db.rs, req)
        else (forall q | q in db.rs && q.key == key :: q.updatedAt < now) ==> FetchUncached(sys, rs, req) == served
      else FetchUncached(sys, rs, req) == FetchUncached(sys, db.rs, req)
  {
    hide Blank, FetchSystem, Validate;
    var i := Find(db.rs, key, version).value;
    var row := FrozenRow(db.rs[i], metadata, now);
    FindUnmoved(db.rs, i, row, key, version);
    assert RowImported(sys.host, db.rs[i]);
    if Presence(req.version).None? && req.key == key {
      if !Refreezes(db.rs[i], metadata, now) {
        assert db.rs[i := row] == db.rs;
      } else if forall q | q in db.rs && q.key == key :: q.updatedAt < now {
        LatestIsFrozen(db.rs, i, row, now);
      }
    } else if !Names(req, key, version) {
      OtherLookupsUnmoved(sys, db.rs, i, row, req);
    }
  }

  lemma LatestIsFrozen(rs: Releases, i: nat, row: Release, now: int)
    requires i < |rs| && row.key == rs[i].key && row.status == Frozen && row.updatedAt == now
    requires forall q | q in rs && q.key == row.key :: q.updatedAt < now
    ensures LatestEligible(rs[i := row], row.key) == Some(row)
  {
    var latest := LatestEligible(rs[i := row], row.key);
    assert rs[i := row][i] == row;
    assert forall q | q in rs[i := row] :: q == row || q in rs;
  }

  // ----- each operation is one writer of the pack store's protocol

  /** An operation that does not raise, by a writer with an up-to-date tenant, is a protocol run whose
      bump counts: begin, write the rows, bump once. */
  lemma OperationIsOneWrite(c: PackStoreProtocol.Config, db: Db, op: Op, now: int, s: PackStoreProtocol.State,
    writer: nat)
    requires Apply(c.sys.host, db, op, now).Some?
    requires s.rs == db.rs && s.bust == db.settings.packBust && writer !in s.writers
    ensures
      var after := Apply(c.sys.host, db, op, now).value;
      PackStoreProtocol.CountedRun(c, s,
        [PackStoreProtocol.BeginWrite(writer, s.bust), PackStoreProtocol.WriteRows(writer, after.rs),
         PackStoreProtocol.Bump(writer)],
        s.(rs := after.rs, bust := after.settings.packBust))
  {
    hide Apply, PackStoreProtocol.CountedRun;
    OperationBumpsOnce(c.sys.host, db, op, now);
    PackStoreProtocol.OneWriteRuns(c, s, writer, Apply(c.sys.host, db, op, now).value.rs);
  }

  lemma OperationBumpsOnce(h: Host, db: Db, op: Op, now: int)
    requires Apply(h, db, op, now).Some?
    ensures Apply(h, db, op, now).value.settings.packBust == db.settings.packBust + 1
  {
    hide Validate;
  }
}
