/** Migration 1: the rows of a personal store become quarantined memories of the local owner. */
module LegacyImport {
  import opened Schema
  import opened Transactions
  import opened Integrity
  import opened Preservation
  import opened Refinement
  import opened SelfCheck
  import opened EventLog
  import opened Idempotency
  import opened Migrations

  /** The shared tables do not exist yet. */
  predicate IsLegacy(db: Db) {
    db.metadata == map[] && db.embeddings == map[] && db.profiles == map[] && db.vectorTables == map[]
    && db.events == map[] && db.idem == map[] && db.grants == map[]
  }

  function MigrationGrant(b: Bootstrap): Grant {
    Grant(b.owner, "local-migration", b.owner, "legacy-import", 1, GrantKind.Migration, "legacy-import", [],
          [LEGACY_SCOPE], None, None)
  }

  /** `embedded` are the rows that had a vector of their own. */
  function QuarantineRow(env: Env, b: Bootstrap, m: Memory, id: string, embedded: set<string>): Metadata {
    Metadata(b.owner, b.grant, 1, LEGACY_SCOPE, "legacy", [], env.sha256(m.content), "legacy-import",
             if Blank(m.session) then None else Some(m.session), "legacy-import", m.timestamp, m.timestamp, None,
             id in embedded, map[])
  }

  function ImportOf(env: Env, b: Bootstrap, db: Db, embedded: set<string>): Db {
    db.(fts := map id | id in db.memories :: multiset{db.memories[id].content},
        metadata := map id | id in db.memories :: QuarantineRow(env, b, db.memories[id], id, embedded),
        grants := map[b.grant := MigrationGrant(b)])
  }

  /** `_create_shared_memory_schema`: CREATE TABLE fails on a database that has the tables. */
  function CreateShared(env: Env, embedded: set<string>): (Db, Bootstrap) -> Option<Db> {
    (db: Db, b: Bootstrap) => if IsLegacy(db) then Some(ImportOf(env, b, db, embedded)) else None
  }

  /** The import succeeds exactly where none of the shared tables has a row, and leaves one grant, of the kind
      that no client may read with, and for each memory a row that says where it came from. */
  lemma ImportTells(env: Env, embedded: set<string>, b: Bootstrap, db: Db)
    ensures CreateShared(env, embedded)(db, b).Some? <==>
      |db.metadata| == 0 && |db.embeddings| == 0 && |db.profiles| == 0 && |db.vectorTables| == 0
      && |db.events| == 0 && |db.idem| == 0 && |db.grants| == 0
    ensures CreateShared(env, embedded)(db, b).Some? ==>
      var e := CreateShared(env, embedded)(db, b).value;
      e == db.(fts := e.fts, metadata := e.metadata, grants := e.grants)
      && e.grants == map[b.grant := Grant(b.owner, "local-migration", b.owner, "legacy-import", 1, GrantKind.Migration,
                                          "legacy-import", [], ["legacy:unscoped"], None, None)]
      && e.metadata.Keys == db.memories.Keys && e.fts.Keys == db.memories.Keys
      && forall id | id in db.memories ::
           var m := db.memories[id];
           e.fts[id] == multiset{m.content}
           && e.metadata[id] == Metadata(b.owner, b.grant, 1, "legacy:unscoped", "legacy", [], env.sha256(m.content),
                                         "legacy-import", if exists i | 0 <= i < |m.session| :: !IsSpace(m.session[i])
                                                          then Some(m.session) else None,
                                         "legacy-import", m.timestamp, m.timestamp, None, id in embedded, map[])
  {
    LegacyIff(db);
  }

  lemma LegacyIff(db: Db)
    ensures IsLegacy(db) <==>
      |db.metadata| == 0 && |db.embeddings| == 0 && |db.profiles| == 0 && |db.vectorTables| == 0
      && |db.events| == 0 && |db.idem| == 0 && |db.grants| == 0
  {
    EmptyIff(db.metadata);
    EmptyIff(db.embeddings);
    EmptyIff(db.profiles);
    EmptyIff(db.vectorTables);
    EmptyIff(db.events);
    EmptyIff(db.idem);
    EmptyIff(db.grants);
  }

  lemma EmptyIff<K, W>(m: map<K, W>)
    ensures |m| == 0 <==> m == map[]
  {
  }

  function Registry1(env: Env, embedded: set<string>): seq<Migrations.Migration> {
    [Migrations.Migration(1, "mcp_shared_memory_schema", CreateShared(env, embedded))]
  }

  /** Row by row, in the order of the ids. */
  method ImportRows(env: Env, b: Bootstrap, db: Db, embedded: set<string>) returns (after: Db)
    requires IsLegacy(db)
    ensures after == ImportOf(env, b, db, embedded)
  {
    var fts: map<string, multiset<string>> := map id | id in db.memories :: multiset{db.memories[id].content};
    var metadata: map<string, Metadata> := map[];
    var todo := db.memories.Keys;
    while todo != {}
      invariant todo <= db.memories.Keys
      invariant metadata == map id | id in db.memories && id !in todo ::
        QuarantineRow(env, b, db.memories[id], id, embedded)
      decreases todo
    {
      var id :| id in todo;
      metadata := metadata[id := QuarantineRow(env, b, db.memories[id], id, embedded)];
      todo := todo - {id};
    }
    after := db.(fts := fts, metadata := metadata, grants := map[b.grant := MigrationGrant(b)]);
  }

  lemma ImportedRow(env: Env, b: Bootstrap, db: Db, embedded: set<string>, id: string)
    requires IsLegacy(db)
    ensures LocallySound(env, ImportOf(env, b, db, embedded), id) <==>
      id in db.memories || forall w | w in db.keywords :: w.memory != id
  {
  }

  /** The import starts the authority in order exactly if no keyword of the legacy store is orphaned. */
  lemma ImportIsSoundIff(env: Env, b: Bootstrap, db: Db, embedded: set<string>)
    requires IsLegacy(db)
    ensures Inv(env, ImportOf(env, b, db, embedded)) <==> forall w | w in db.keywords :: w.memory in db.memories
  {
    var after := ImportOf(env, b, db, embedded);
    if forall w | w in db.keywords :: w.memory in db.memories {
      forall id ensures LocallySound(env, after, id) {
        ImportedRow(env, b, db, embedded, id);
      }
      LocalIsInv(env, after);
    } else {
      var w :| w in db.keywords && w.memory !in db.memories;
      assert w in after.keywords && w.memory !in after.metadata;
    }
  }

  /** Whatever the keywords, the import verifies itself, and no promise about logs or keys is open. */
  lemma ImportVerifies(env: Env, b: Bootstrap, db: Db, embedded: set<string>)
    requires IsLegacy(db)
    ensures var after := ImportOf(env, b, db, embedded);
      Verified(env, after) && AllLogged(after)
  {
    hide CreatorsExist, EmbeddingKeysHold, AuditKeysHold, RegistryKeysHold, AddCreated, Logged, Untouched, ImportOf;
    ImportedKeys(env, b, db, embedded);
    NothingAddCreated(env, b, db, embedded);
    ImportUntouched(env, b, db, embedded);
  }

  lemma ImportedKeys(env: Env, b: Bootstrap, db: Db, embedded: set<string>)
    requires IsLegacy(db)
    ensures var after := ImportOf(env, b, db, embedded);
      ForeignKeysHold(after) && |after.memories| == |after.metadata| && after.idem == map[]
  {
    var after := ImportOf(env, b, db, embedded);
    assert after.metadata.Keys == after.memories.Keys;
    assert |after.metadata| == |after.metadata.Keys| && |after.memories| == |after.memories.Keys|;
  }

  lemma NothingAddCreated(env: Env, b: Bootstrap, db: Db, embedded: set<string>)
    requires IsLegacy(db)
    ensures forall id :: !AddCreated(ImportOf(env, b, db, embedded), id)
  {
  }

  lemma ImportUntouched(env: Env, b: Bootstrap, db: Db, embedded: set<string>)
    requires IsLegacy(db)
    ensures var after := ImportOf(env, b, db, embedded);
      forall id | id in after.metadata :: id in after.memories && Untouched(env, after, id)
  {
  }

  lemma ImportIsPaired(env: Env, b: Bootstrap, db: Db, embedded: set<string>)
    requires IsLegacy(db)
    ensures Paired(ImportOf(env, b, db, embedded)) && Backed(ImportOf(env, b, db, embedded))
  {
  }

  /** From the migration of a legacy store on, every run keeps the authority in order. */
  lemma OrderFromTheStart(env: Env, b: Bootstrap, db: Db, embedded: set<string>, rs: seq<Request>)
    requires IsLegacy(db) && forall w | w in db.keywords :: w.memory in db.memories
    ensures Inv(env, Run(env, ImportOf(env, b, db, embedded), rs))
    ensures FreshIds(env, ImportOf(env, b, db, embedded), rs)
      <==> AllLogged(Run(env, ImportOf(env, b, db, embedded), rs))
    ensures Backed(Run(env, ImportOf(env, b, db, embedded), rs))
    ensures OutsideLegacyScope(Trace(env, ImportOf(env, b, db, embedded), rs)) ==>
      Verified(env, Run(env, ImportOf(env, b, db, embedded), rs))
  {
    hide Inv, AllLogged, Paired, Backed, FreshIds, ImportOf, Step, Verified, OutsideLegacyScope;
    ImportIsSoundIff(env, b, db, embedded);
    ImportVerifies(env, b, db, embedded);
    RunKeepsInv(env, ImportOf(env, b, db, embedded), rs);
    assert Paired(ImportOf(env, b, db, embedded)) by { ImportIsPaired(env, b, db, embedded); }
    assert Backed(ImportOf(env, b, db, embedded)) by { ImportIsPaired(env, b, db, embedded); }
    RunKeepsBacked(env, ImportOf(env, b, db, embedded), rs);
    RunLoggedIff(env, ImportOf(env, b, db, embedded), rs);
    if OutsideLegacyScope(Trace(env, ImportOf(env, b, db, embedded), rs)) {
      RunStaysVerified(env, ImportOf(env, b, db, embedded), rs);
    }
  }

  /** Running the registry of this build on a store without history yields the import and records it, or
      refuses a store that is not a legacy one. */
  lemma RegistryImports(env: Env, b: Bootstrap, db: Db, embedded: set<string>, clock: int -> string)
    requires ValidBootstrap(b)
    ensures Migrate(Store(db, map[]), b, Registry1(env, embedded), clock)
         == if !IsLegacy(db) then Refused
            else Migrated(Store(ImportOf(env, b, db, embedded), map[1 := Stamp("mcp_shared_memory_schema", clock(1))]),
                          1, [1])
  {
    hide IsLegacy, ImportOf, Blank, Registry;
    var ms := Registry1(env, embedded);
    RegistryIsValid(env, embedded);
    assert Migrations.ApplyAll(ms, b, db, 0, 1) == if IsLegacy(db) then Some(ImportOf(env, b, db, embedded)) else None;
    assert Migrations.Recorded(map[], ms, clock, 0, 0) == map[];
    assert Versions(0, 0) == [];
  }

  lemma RegistryIsValid(env: Env, embedded: set<string>)
    ensures Validate(Registry1(env, embedded)) == Some(Registry1(env, embedded))
  {
    var ms := Registry1(env, embedded);
    assert !IsSpace("mcp_shared_memory_schema"[0]);
    PrefixValidates(ms, 1);
  }
}
