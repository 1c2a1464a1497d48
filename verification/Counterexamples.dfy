/** Concrete runs in which a promise fails, each from one database in order: the inputs behind the
    conditions of the theorems in the other modules. */
module Counterexamples {
  import opened Schema
  import opened Transactions
  import opened Integrity
  import opened Preservation
  import opened Effects
  import opened Idempotency
  import opened EventLog
  import opened SelfCheck
  import opened Maintenance
  import opened Adapter
  import opened Vectors
  import opened Migrations

  // ------------------------------------------------------------- the database

  const plain: Env := Env(
    (content: string) => content,
    (content: string) => {},
    (id: string, g: int) => id,
    (id: string, v: int, op: Operation) => if v == 1 then "first" else if v == 2 then "later" else "last")

  const embedder := Identity("p", "h", "m")
  const provenance := Provenance("p", "h", "m", 1)
  const writer :=
    Grant("owner", "i", "s", "c", 1, OAuth, "client", ["memory:admin"], [LEGACY_SCOPE, "other"], None, None)
  const importer := Grant("owner", "i", "s", "import", 1, GrantKind.Migration, "legacy-import", [], [], None, None)
  const first := ProfileKey("owner", LEGACY_SCOPE, 1)
  const second := ProfileKey("owner", LEGACY_SCOPE, 2)
  const row :=
    Metadata("owner", "importer", 1, LEGACY_SCOPE, "legacy", [], "text", "legacy-import", None, "a", "t", "t", None,
             true, map[])

  /** One imported memory `m`, one client that may write, one provisioned scope. */
  const imported: Db := Db(
    map["m" := Memory("text", "t", "", "")], {}, map["m" := multiset{"text"}], map["m" := row],
    map[], map[first := Profile(provenance, Active, "t", Some("t"), None)], map[], map[], {}, map[], map[],
    map["writer" := writer, "importer" := importer])

  const vector: map<int, Blob> := map[DEFAULT_GENERATION := [0 as bv8, 0, 0, 0]]
  const addOther := Add("writer", LEGACY_SCOPE, "n", "new", "fact", [], None, "a", "k", "d", "t", vector, OpAdd)
  const addAgain := Add("writer", LEGACY_SCOPE, "m", "new", "fact", [], None, "a", "k2", "d", "t", vector, OpAdd)
  const purgeIt := Purge("writer", LEGACY_SCOPE, "m", 1, "a", "k", "d", "x", "t")
  const removeIt := Remove("writer", LEGACY_SCOPE, "m", 1, "a", "k", "d", "t", OpRemove)
  const startSecond := StartBuild(second, provenance, "t")
  const failSecond := FailGeneration("writer", LEGACY_SCOPE, 2, "t")

  function MoveIt(blobs: map<int, Blob>): Request {
    Replace("writer", LEGACY_SCOPE, "m", 1, "new", "fact", [], None, "a", "k", "d", "t", blobs, Some("other"),
            OpReplace)
  }

  lemma ImportedIsSound()
    ensures Inv(plain, imported)
  {
    assert first in imported.profiles;
    assert Served(imported.profiles, "owner", LEGACY_SCOPE);
    assert Sound(plain, imported, "m");
  }

  lemma ImportedIsVerified()
    ensures Verified(plain, imported)
  {
    hide Inv;
    ImportedIsSound();
    InvVerifies(plain, imported);
  }

  lemma NothingIsLogged()
    ensures AllLogged(imported)
  {
  }

  lemma NotBlank(s: string)
    requires |s| > 0 && !IsSpace(s[0])
    ensures !Blank(s)
  {
  }

  lemma Words()
    ensures !Blank("writer") && !Blank(LEGACY_SCOPE) && !Blank("other") && !Blank("m") && !Blank("n") && !Blank("new")
    ensures !Blank("fact") && !Blank("a") && !Blank("k") && !Blank("k2") && !Blank("d") && !Blank("x") && !Blank("t")
  {
    NotBlank("writer"); NotBlank(LEGACY_SCOPE); NotBlank("other"); NotBlank("m"); NotBlank("n"); NotBlank("new");
    NotBlank("fact"); NotBlank("a"); NotBlank("k"); NotBlank("k2"); NotBlank("d"); NotBlank("x"); NotBlank("t");
  }

  lemma WriterMay(db: Db)
    requires db.grants == imported.grants
    ensures CanAdmin(db, "writer", LEGACY_SCOPE) && CanWrite(db, "writer", LEGACY_SCOPE)
      && CanWrite(db, "writer", "other")
    ensures OwnerOf(db, "writer") == "owner"
  {
    assert writer.oauthScopes[0] == "memory:admin" && writer.memoryScopes[0] == LEGACY_SCOPE
        && writer.memoryScopes[1] == "other";
  }

  lemma OneProfileLives()
    ensures LiveProfiles(imported.profiles, "owner", LEGACY_SCOPE).Keys == {DEFAULT_GENERATION}
  {
    assert first in imported.profiles;
    assert 1 in LiveGenerations(imported.profiles, "owner", LEGACY_SCOPE);
  }

  lemma KeyIsUnused(db: Db, op: Operation, key: string, pick: Operation)
    requires forall o: Operation :: IdemKey("writer", o, key) !in db.idem
    ensures Resolve(db, "writer", LEGACY_SCOPE, op, key, "d", pick).Unused?
  {
    NothingFetched(db, OwnerOf(db, "writer"), "writer", LEGACY_SCOPE, key, [pick] + OPERATIONS);
  }

  lemma TwoSteps(env: Env, db: Db, r: Request, q: Request)
    ensures Run(env, db, [r, q]) == Step(env, Step(env, db, r).db, q).db
  {
    hide Step;
    assert [r, q][1..] == [q] && [q][1..] == [];
    assert Run(env, Step(env, Step(env, db, r).db, q).db, []) == Step(env, Step(env, db, r).db, q).db;
  }

  lemma OneStep(env: Env, db: Db, r: Request)
    ensures Run(env, db, [r]) == Step(env, db, r).db
  {
    hide Step;
    assert Run(env, Step(env, db, r).db, []) == Step(env, db, r).db;
  }

  lemma WriterAdds(db: Db, r: Request)
    requires (r == addAgain || r == addOther) && db.grants == imported.grants && db.profiles == imported.profiles
    requires r.memory !in db.metadata && r.memory !in db.memories && db.embeddings == map[]
      && EventKey(r.memory, 1) !in db.events
    requires (forall k | k in db.events :: db.events[k].id != "first")
      && forall o: Operation :: IdemKey("writer", o, r.key) !in db.idem
    ensures Step(plain, db, r) == Reply(AddCommit(plain, db, r), Committed(Receipt(r.memory, 1, "t")))
  {
    hide CanWrite, CanAdmin, OwnerOf, LiveProfiles, Resolve, AddCommit, AddFits, AddWellFormed;
    WriterMay(db);
    OneProfileLives();
    KeyIsUnused(db, OpAdd, r.key, OpAdd);
    AddIsWellFormed(r);
    assert r.blobs.Keys == {DEFAULT_GENERATION};
    assert AddFits(plain, db, r) by { AddHasRoom(db, r); }
  }

  lemma AddIsWellFormed(r: Request)
    requires r == addAgain || r == addOther
    ensures AddWellFormed(r)
  {
    hide Blank;
    Words();
    assert 1 in r.blobs;
  }

  lemma AddHasRoom(db: Db, r: Request)
    requires (r == addAgain || r == addOther) && r.memory !in db.memories && db.embeddings == map[]
      && EventKey(r.memory, 1) !in db.events
    requires (forall k | k in db.events :: db.events[k].id != "first") && IdemKey("writer", OpAdd, r.key) !in db.idem
    ensures AddFits(plain, db, r)
  {
    assert EmbeddingsFit(plain, db.embeddings, r.memory, {DEFAULT_GENERATION});
  }

  lemma WriterPurges(db: Db)
    requires db.grants == imported.grants && db.metadata.Keys >= {"m"} && db.metadata["m"] == row && "m" in db.memories
    requires db.vectorTables == map[] && EventKey("m", 2) !in db.events
      && forall k | k in db.events :: db.events[k].id != "later"
    requires IdemKey("writer", OpPurge, "k") !in db.idem
    ensures Step(plain, db, purgeIt) == Reply(PurgeCommit(plain, db, purgeIt), Committed(Receipt("m", 2, "t")))
  {
    hide CanAdmin, CanWrite, OwnerOf, PurgeCommit, Blank;
    Words();
    WriterMay(db);
    assert LogsFit(plain, db, "writer", "m", 2, OpPurge, "k");
    assert VectorsDeletable(db, "m");
  }

  // --------------------------------------------------- an imported id comes back

  predicate JustPurged(db: Db) {
    db.memories == map[] && db.metadata == map[] && db.keywords == {} && db.embeddings == map[]
    && db.profiles == imported.profiles && db.grants == imported.grants
    && db.idem.Keys == {IdemKey("writer", OpPurge, "k")}
    && EventKey("m", 2) in db.events && db.events.Keys == {EventKey("m", 2)}
    && db.events[EventKey("m", 2)].id == "later"
  }

  /** The imported memory is purged: its only event is the purge, at revision 2. */
  lemma ImportIsPurged()
    ensures Step(plain, imported, purgeIt).out.Committed? && JustPurged(Step(plain, imported, purgeIt).db)
  {
    hide Step, OwnerOf, ClientOf, PurgedVectors;
    WriterPurges(imported);
    assert imported.metadata - {"m"} == map[] && imported.memories - {"m"} == map[];
  }

  lemma PurgedIsPaired(db: Db)
    requires JustPurged(db)
    ensures Paired(db) && !NeverNamed(db, "m")
  {
  }

  /** An imported memory has no first event, so after its purge the same id can be added again. Its
      log then is not dense, and no call on it ever commits: the new content cannot even be purged. */
  lemma ImportedIdComesBack()
    ensures Inv(plain, imported) && AllLogged(imported)
    ensures var db := Run(plain, imported, [purgeIt, addAgain]);
      "m" in db.metadata && db.metadata["m"].creator == "writer" && !Dense(db.events, "m", db.metadata["m"].revision)
      && !CanBeWritten(plain, db, "m")
  {
    hide Inv, Run, Step, Dense, AddCommit, CanBeWritten;
    var db := Step(plain, imported, purgeIt).db;
    ImportedIsSound();
    NothingIsLogged();
    ImportIsPurged();
    WriterAdds(db, addAgain);
    AddIsDenseIff(plain, db, addAgain);
    StepEffect(plain, db, addAgain);
    PurgedIsPaired(db);
    ReAddedForEver(plain, db, addAgain);
    TwoSteps(plain, imported, purgeIt, addAgain);
  }

  // ------------------------------------------------------------- a key used twice

  predicate JustAdded(db: Db) {
    db.metadata.Keys >= {"m"} && db.metadata["m"] == row && "m" in db.memories && db.vectorTables == map[]
    && db.grants == imported.grants && db.events.Keys == {EventKey("n", 1)} && db.events[EventKey("n", 1)].id == "first"
    && db.idem == map[IdemKey("writer", OpAdd, "k") :=
                        IdemRow("owner", "a", "n", LEGACY_SCOPE, "d", Some(Receipt("n", 1, "t")), "t", None)]
  }

  lemma OtherIsAdded()
    ensures Step(plain, imported, addOther).out.Committed? && JustAdded(Step(plain, imported, addOther).db)
  {
    hide Step, AddCommit, JustAdded;
    WriterAdds(imported, addOther);
    OtherIsFiled();
  }

  lemma OtherIsFiled()
    ensures JustAdded(AddCommit(plain, imported, addOther))
  {
    hide ClientOf, OwnerOf, LiveProfiles, NewEmbeddings, CanWrite, CanAdmin;
    WriterMay(imported);
    assert imported.idem == map[] && imported.events == map[];
  }

  lemma KeyIsUsedTwice(db: Db)
    requires JustAdded(db)
    ensures var e := Step(plain, db, purgeIt).db; var k := IdemKey("writer", OpAdd, "k");
      var j := IdemKey("writer", OpPurge, "k");
      k in e.idem && e.idem[k] == db.idem[k] && j in e.idem && e.idem[j].scope == LEGACY_SCOPE
      && e.idem[j].memory == "m" && e.idem[j].purgedAt.Some? && e.grants == imported.grants
  {
    hide Step, ClientOf, OwnerOf, PurgedVectors;
    WriterMay(db);
    WriterPurges(db);
  }

  lemma AddIsAuthorized(db: Db)
    requires db.grants == imported.grants
    ensures Authorized(db, addOther)
  {
    hide CanWrite, CanAdmin, OwnerOf, Blank;
    Words();
    WriterMay(db);
    assert 1 in addOther.blobs;
  }

  /** Memory `n` is added under a key, then memory `m` is purged under the same key. The retry of the add
      is answered with its receipt if the engine returns the row of the add first, and refused as a call
      on `m` if it returns that of the purge. */
  lemma PurgedKeyAnswersTwoWays()
    ensures Inv(plain, imported)
    ensures var db := Run(plain, imported, [addOther, purgeIt]);
      Step(plain, db, WithPick(addOther, OpAdd)) == Reply(db, Replayed(Receipt("n", 1, "t")))
      && Step(plain, db, WithPick(addOther, OpPurge)) == Reply(db, Rejected(KeyPurged("m")))
  {
    hide Inv, Run, Step, JustAdded, Authorized, WithPick;
    var db := Step(plain, imported, addOther).db;
    var e := Step(plain, db, purgeIt).db;
    ImportedIsSound();
    OtherIsAdded();
    FirstRow(db);
    KeyIsUsedTwice(db);
    TwoSteps(plain, imported, addOther, purgeIt);
    RunKeepsInv(plain, imported, [addOther, purgeIt]);
    InvHoldsAuditKeys(plain, e);
    AddIsAuthorized(e);
    ReusedKeyIsAmbiguous(plain, e, addOther, IdemKey("writer", OpPurge, "k"));
  }

  lemma FirstRow(db: Db)
    requires JustAdded(db)
    ensures var k := IdemKey("writer", OpAdd, "k");
      k in db.idem && db.idem[k] == IdemRow("owner", "a", "n", LEGACY_SCOPE, "d", Some(Receipt("n", 1, "t")), "t", None)
  {
  }

  lemma InvHoldsAuditKeys(env: Env, db: Db)
    requires Inv(env, db)
    ensures AuditKeysHold(db)
  {
  }

  // --------------------------------------------------------- a move is tried again

  const target := ProfileKey("owner", "other", 1)

  /** The database with the scope `other` provisioned as `legacy:unscoped` is. */
  const twoScopes: Db :=
    imported.(profiles := imported.profiles[target := Profile(provenance, Active, "t", Some("t"), None)])

  lemma TwoScopesAreSound()
    ensures Inv(plain, twoScopes)
  {
    hide Inv;
    ImportedIsSound();
    assert LiveProfiles(imported.profiles, "owner", "other") == map[] by { OtherIsEmpty(); }
    LiveMeansServed(imported.profiles, "owner", "other");
    NewProfileKeepsInv(plain, imported, target, Profile(provenance, Active, "t", Some("t"), None));
  }

  lemma OtherIsEmpty()
    ensures LiveProfiles(imported.profiles, "owner", "other") == map[]
  {
    assert LiveGenerations(imported.profiles, "owner", "other") == {};
  }

  lemma ScopesAreAlike()
    ensures LiveProfiles(twoScopes.profiles, "owner", LEGACY_SCOPE) == map[DEFAULT_GENERATION := provenance]
    ensures LiveProfiles(twoScopes.profiles, "owner", "other") == map[DEFAULT_GENERATION := provenance]
  {
    assert first in twoScopes.profiles && target in twoScopes.profiles;
    assert LiveGenerations(twoScopes.profiles, "owner", LEGACY_SCOPE) == {1};
    assert LiveGenerations(twoScopes.profiles, "owner", "other") == {1};
  }

  lemma MoveIsAccepted()
    ensures ReplaceRefusal(plain, twoScopes, MoveIt(vector)).None?
  {
    hide LiveProfiles, CanWrite, CanAdmin, OwnerOf, ReplaceFits;
    WriterMay(twoScopes);
    ScopesAreAlike();
    assert vector.Keys == {DEFAULT_GENERATION};
    assert ReplaceFits(plain, twoScopes, MoveIt(vector)) by { MoveHasRoom(); }
  }

  lemma MoveHasRoom()
    ensures ReplaceFits(plain, twoScopes, MoveIt(vector))
  {
    assert vector.Keys == {DEFAULT_GENERATION};
    assert Fresh(twoScopes.embeddings, "m", {DEFAULT_GENERATION}) == {DEFAULT_GENERATION};
    assert EmbeddingsFit(plain, twoScopes.embeddings, "m", {DEFAULT_GENERATION});
  }

  lemma MoveIsWellFormed(db: Db)
    requires db.grants == imported.grants
    ensures ReplaceWellFormed(MoveIt(vector)) && Authorized(db, MoveIt(vector))
  {
    hide Blank, CanWrite, CanAdmin, OwnerOf;
    Words();
    WriterMay(db);
    assert 1 in vector;
    assert MayReach(db, "writer", "other") by { assert writer.memoryScopes[1] == "other"; }
  }

  /** Memory `m` is moved to another scope and the call commits. The same call again, before anything else
      happens, is refused as not authorized: it finds neither its row nor the memory. */
  lemma RetriedMoveIsRefused()
    ensures Inv(plain, twoScopes) && Step(plain, twoScopes, MoveIt(vector)).out.Committed?
    ensures var db := Step(plain, twoScopes, MoveIt(vector)).db;
      Step(plain, db, MoveIt(vector)) == Reply(db, Rejected(NotAuthorized))
  {
    hide Inv, CanWrite, CanAdmin, OwnerOf, Resolve, ReplaceRefusal, ReplaceWellFormed, ReplaceCommit, Authorized,
         Effect, WriteEffect;
    TwoScopesAreSound();
    MoveIsWellFormed(twoScopes);
    WriterMay(twoScopes);
    KeyIsUnused(twoScopes, OpReplace, "k", OpReplace);
    MoveIsAccepted();
    MoveReaches(twoScopes);
    StepEffect(plain, twoScopes, MoveIt(vector));
    CommittedGrants(plain, twoScopes, MoveIt(vector), Step(plain, twoScopes, MoveIt(vector)));
    MoveIsWellFormed(Step(plain, twoScopes, MoveIt(vector)).db);
    MovedIsHidden(plain, twoScopes, MoveIt(vector), Step(plain, twoScopes, MoveIt(vector)).db);
  }

  lemma MoveReaches(db: Db)
    requires db.grants == imported.grants
    ensures MayReach(db, "writer", "other")
  {
    assert writer.memoryScopes[1] == "other";
  }

  lemma CommittedGrants(env: Env, db: Db, r: Request, reply: Reply)
    requires Effect(env, db, r, reply) && reply.out.Committed?
    ensures IsWrite(r) && WriteEffect(env, db, r, reply.db) && reply.db.grants == db.grants
  {
  }

  // ----------------------------------------------------------- a vector outlives

  /** One added memory `n` whose vector is row 7 of the table `v`. */
  const stored: Db := Db(
    map["n" := Memory("text", "t", "", "fact")], {}, map["n" := multiset{"text"}],
    map["n" := Metadata("owner", "writer", 1, LEGACY_SCOPE, "fact", [], "text", "client", None, "a", "t", "t", None,
                        false,
                        map[DEFAULT_GENERATION := provenance])],
    map[EmbeddingKey("n", 1) := Embedding("n", "owner", LEGACY_SCOPE, provenance, [0 as bv8, 0, 0, 0], Some(7), "t")],
    imported.profiles, map[first := "v"], map["v" := {7}], {},
    map[EventKey("n", 1) := Event("first", "owner", "writer", OpAdd, "a", "client", "t", "d")], map[], imported.grants)

  const replaceIt :=
    Replace("writer", LEGACY_SCOPE, "n", 1, "new", "fact", [], None, "a", "k", "d", "t", vector, None, OpReplace)
  const projectIt := Project(map[first := "v"], map["v" := {7, 8}], map[EmbeddingKey("n", 1) := Some(8)])
  const purgeNew := Purge("writer", LEGACY_SCOPE, "n", 2, "a", "k", "d", "x", "t")

  lemma MemoryIsSound()
    ensures Sound(plain, stored, "n")
  {
    assert first in stored.profiles;
    assert Served(stored.profiles, "owner", LEGACY_SCOPE);
    assert KeywordsOf({}, "n") == {};
  }

  lemma StoredIsSound()
    ensures Inv(plain, stored)
  {
    hide Sound;
    MemoryIsSound();
    assert first in stored.profiles;
    assert Served(stored.profiles, "owner", LEGACY_SCOPE);
  }

  lemma ReplaceIsAccepted()
    ensures ReplaceRefusal(plain, stored, replaceIt).None?
  {
    hide LiveProfiles, CanWrite, CanAdmin, OwnerOf;
    WriterMay(stored);
    OneProfileLives();
    assert vector.Keys == {DEFAULT_GENERATION};
    assert Fresh(stored.embeddings, "n", {DEFAULT_GENERATION}) == {};
  }

  lemma ReplaceIsWellFormed()
    ensures ReplaceWellFormed(replaceIt)
  {
    hide Blank;
    Words();
    assert 1 in vector;
  }

  predicate RowIsReplaced(db: Db) {
    "n" in db.metadata && db.metadata["n"].owner == "owner" && db.metadata["n"].scope == LEGACY_SCOPE
    && db.metadata["n"].revision == 2 && "n" in db.memories && db.grants == imported.grants
  }

  predicate OneEmbedding(rows: map<EmbeddingKey, Embedding>) {
    rows.Keys == {EmbeddingKey("n", 1)}
    && rows[EmbeddingKey("n", 1)].owner == "owner" && rows[EmbeddingKey("n", 1)].scope == LEGACY_SCOPE
  }

  predicate LogsOfReplace(events: map<EventKey, Event>, idem: map<IdemKey, IdemRow>) {
    events.Keys == {EventKey("n", 1), EventKey("n", 2)}
    && events[EventKey("n", 1)].id == "first" && events[EventKey("n", 2)].id == "later"
    && idem.Keys == {IdemKey("writer", OpReplace, "k")}
  }

  predicate JustReplaced(db: Db) {
    RowIsReplaced(db) && OneEmbedding(db.embeddings) && LogsOfReplace(db.events, db.idem)
      && db.profiles == imported.profiles
  }

  lemma ReplaceCommits()
    ensures Step(plain, stored, replaceIt)
      == Reply(ReplaceCommit(plain, stored, replaceIt), Committed(Receipt("n", 2, "t")))
  {
    hide CanWrite, CanAdmin, OwnerOf, Resolve, ReplaceRefusal, ReplaceWellFormed, ReplaceCommit;
    ReplaceIsWellFormed();
    WriterMay(stored);
    KeyIsUnused(stored, OpReplace, "k", OpReplace);
    ReplaceIsAccepted();
  }

  lemma StoredIsReplaced()
    ensures Step(plain, stored, replaceIt).out.Committed? && JustReplaced(Step(plain, stored, replaceIt).db)
  {
    hide Step, RowIsReplaced, OneEmbedding, LogsOfReplace, ReplaceCommit;
    ReplaceCommits();
    NewRow();
    NewPlaces();
    NewLogs();
    WriteTouches(plain, stored, replaceIt);
  }

  lemma WriteTouches(env: Env, db: Db, r: Request)
    requires IsWrite(r) && Step(env, db, r).out.Committed?
    ensures Step(env, db, r).db.profiles == db.profiles
  {
    hide Step;
    StepEffect(env, db, r);
  }

  lemma NewRow()
    ensures RowIsReplaced(ReplaceCommit(plain, stored, replaceIt))
  {
    hide ClientOf, LiveProfiles, NewEmbeddings, Refreshed, CanWrite, CanAdmin, Fresh;
    WriterMay(stored);
  }

  lemma NewPlaces()
    ensures OneEmbedding(ReplaceCommit(plain, stored, replaceIt).embeddings)
  {
    hide Step, Inv, ReplaceCommit, OwnerOf, CanWrite, CanAdmin, ReplaceAllowed, ReplaceStep;
    ReplaceCommits();
    StoredIsSound();
    StepIsReplace(plain, stored, replaceIt);
    ReplaceShape(plain, stored, replaceIt);
    ReplacedRows(plain, stored, replaceIt);
    ReplacedLieInTarget(plain, stored, replaceIt, Step(plain, stored, replaceIt).db);
    WriterMay(stored);
    assert replaceIt.blobs.Keys == {1};
  }

  lemma NewLogs()
    ensures var e := ReplaceCommit(plain, stored, replaceIt); LogsOfReplace(e.events, e.idem)
  {
    hide ClientOf, LiveProfiles, NewEmbeddings, Refreshed, OwnerOf, Fresh;
  }

  lemma ProjectedAgain(db: Db)
    requires JustReplaced(db)
    ensures var e := Step(plain, db, projectIt).db;
      JustReplaced(e) && e.vectorTables == map[first := "v"] && e.vectors == map["v" := {7, 8}]
      && e.embeddings[EmbeddingKey("n", 1)].vectorRow == Some(8)
  {
    hide RowIsReplaced, OneEmbedding, LogsOfReplace, Reprojected;
    assert first in imported.profiles;
    ProjectedPlaces(db.embeddings);
    SameRowIsReplaced(db, OutsideStep(db, projectIt).db);
  }

  lemma ProjectedPlaces(rows: map<EmbeddingKey, Embedding>)
    requires OneEmbedding(rows)
    ensures var after := Reprojected(rows, projectIt.rows);
      OneEmbedding(after) && after[EmbeddingKey("n", 1)].vectorRow == Some(8)
  {
    assert EmbeddingKey("n", 1) in rows;
  }

  lemma SameRowIsReplaced(db: Db, e: Db)
    requires RowIsReplaced(db) && e.metadata == db.metadata && e.memories == db.memories && e.grants == db.grants
    ensures RowIsReplaced(e)
  {
  }

  lemma ReplacedIsPurged(db: Db)
    requires JustReplaced(db) && db.vectorTables == map[first := "v"] && db.vectors == map["v" := {7, 8}]
    requires db.embeddings[EmbeddingKey("n", 1)].vectorRow == Some(8)
    ensures Step(plain, db, purgeNew).out.Committed?
  {
    hide CanAdmin, CanWrite, OwnerOf, PurgeCommit, Blank;
    Words();
    WriterMay(db);
    assert LogsFit(plain, db, "writer", "n", 3, OpPurge, "k");
    assert VectorsDeletable(db, "n");
  }

  /** Memory `n` is replaced, projected again and purged. The purge commits, and the vector of the content
      that was replaced is still in its table. */
  lemma OldVectorOutlivesPurge()
    ensures Inv(plain, stored)
    ensures var db := Step(plain, Step(plain, stored, replaceIt).db, projectIt).db;
      var e := Run(plain, Step(plain, stored, replaceIt).db, [projectIt, purgeNew]);
      e == Step(plain, db, purgeNew).db && Step(plain, db, purgeNew).out.Committed?
      && "n" !in e.metadata && "v" in e.vectors && 7 in e.vectors["v"]
  {
    hide Inv, Run, Step, JustReplaced;
    var db := Step(plain, stored, replaceIt).db;
    StoredIsSound();
    StoredIsReplaced();
    ProjectedAgain(db);
    ReplacedIsPurged(Step(plain, db, projectIt).db);
    TwoSteps(plain, db, projectIt, purgeNew);
    assert 1 in replaceIt.blobs;
    ReplaceOrphans(plain, stored, replaceIt, 1, "v", 7);
    assert forall r | r in [projectIt, purgeNew] :: Leaves(r, "v", 7);
    OrphansStay(plain, db, [projectIt, purgeNew], "v", 7);
    StepEffect(plain, Step(plain, db, projectIt).db, purgeNew);
  }

  // ------------------------------------------------------ an imported row is edited

  /** A client with access to `legacy:unscoped` removes an imported memory. The call commits, and from
      then on the database is refused by the check that every opening makes. */
  lemma RemovedImportIsRefused()
    ensures Inv(plain, imported) && Verified(plain, imported)
    ensures Step(plain, imported, removeIt).out.Committed? && !Verified(plain, Step(plain, imported, removeIt).db)
  {
    hide Step, CanWrite, CanAdmin, OwnerOf, Blank, Inv, Verified, Resolve;
    ImportedIsSound();
    ImportedIsVerified();
    Words();
    WriterMay(imported);
    KeyIsUnused(imported, OpRemove, "k", OpRemove);
    EditCommitsIff(plain, imported, removeIt);
    VerifiedUnlessImportEdited(plain, imported, removeIt);
  }

  // ---------------------------------------------------- with a generation building

  /** The database after another generation has been started in `legacy:unscoped`. */
  const building: Db :=
    imported.(profiles := imported.profiles[second := Profile(provenance, Building, "t", None, None)])

  lemma SecondIsBuilding()
    ensures Run(plain, imported, [startSecond]) == building && Inv(plain, building)
  {
    hide Inv;
    ImportedIsSound();
    RunKeepsInv(plain, imported, [startSecond]);
    OneProfileLives();
    OneStep(plain, imported, startSecond);
  }

  lemma WhatLives()
    ensures LiveProfiles(building.profiles, "owner", LEGACY_SCOPE) == map[1 := provenance, 2 := provenance]
    ensures LiveProfiles(building.profiles, "owner", "other") == map[]
    ensures ActiveGenerations(building.profiles, "owner", LEGACY_SCOPE) == {1}
  {
    assert first in building.profiles && second in building.profiles;
    assert LiveGenerations(building.profiles, "owner", LEGACY_SCOPE) == {1, 2};
    assert LiveGenerations(building.profiles, "owner", "other") == {};
    assert 1 in ActiveGenerations(building.profiles, "owner", LEGACY_SCOPE);
  }

  lemma MoveIsPrepared(clock: nat -> string)
    ensures Prepare(embedder, building, "writer", [LEGACY_SCOPE, "other"], vector, clock).outcome.Ready?
  {
    hide LiveProfiles, EnsureAll, EnsureProfiles, OwnerOf, CanWrite, CanAdmin, CoversScopes;
    WriterMay(building);
    BothAreEnsured(clock);
    EnsureTwo(embedder, building, "owner", LEGACY_SCOPE, "other", 1, clock);
    assert vector.Keys == {DEFAULT_GENERATION} && |vector[DEFAULT_GENERATION]| == 4;
    assert CoversScopes(building, "writer", [LEGACY_SCOPE, "other"]) by { WriterCovers(); }
  }

  lemma WriterCovers()
    ensures CoversScopes(building, "writer", [LEGACY_SCOPE, "other"])
  {
    assert writer.oauthScopes[0] == "memory:admin" && writer.memoryScopes[0] == LEGACY_SCOPE
        && writer.memoryScopes[1] == "other";
  }

  lemma BothAreEnsured(clock: nat -> string)
    ensures var one := EnsureProfiles(embedder, building, "owner", LEGACY_SCOPE, 1, clock(0));
      one.db == building && one.error.None?
        && EnsureProfiles(embedder, one.db, "owner", "other", 1, clock(1)).error.None?
  {
    hide LiveProfiles;
    WhatLives();
    assert Expected(embedder, 1) == provenance;
  }

  lemma MoveMeetsTheGuards(e: Db, blobs: map<int, Blob>)
    requires e == building.(profiles := e.profiles) && ValidBlobs(blobs)
    ensures ReplaceWellFormed(MoveIt(blobs)) && CanWrite(e, "writer", LEGACY_SCOPE) && MayReach(e, "writer", "other")
    ensures Resolve(e, "writer", LEGACY_SCOPE, OpReplace, "k", "d", OpReplace).Unused?
    ensures Visible(e, "writer", LEGACY_SCOPE, "m", 1, false).None? && OwnerOf(e, "writer") == "owner"
  {
    hide CanAdmin, Blank, Resolve, ValidBlobs;
    Words();
    WriterMay(e);
    KeyIsUnused(e, OpReplace, "k", OpReplace);
  }

  lemma BlobsAreValid(blobs: map<int, Blob>)
    requires blobs.Keys == {1, 2} && forall g | g in blobs :: blobs[g] == vector[DEFAULT_GENERATION]
    ensures ValidBlobs(blobs)
  {
    assert 1 in blobs;
  }

  /** A memory is to be moved out of a scope with the generations 1 and 2 into one that has none yet. The
      adapter provisions the target with generation 1 and prepares the call, and the repository refuses it. */
  lemma MoveIntoNewScopeIsRefused(clock: nat -> string)
    ensures Inv(plain, building)
    ensures var done := Prepare(embedder, building, "writer", [LEGACY_SCOPE, "other"], vector, clock);
      done.outcome.Ready? && done.outcome.blobs.Keys == {1, 2}
      && Step(plain, done.db, MoveIt(done.outcome.blobs)) == Reply(done.db, Rejected(InvalidArgument))
  {
    hide Inv, Run, Prepare, LiveProfiles, Resolve, CanWrite, MayReach, Visible, ReplaceRefusal, OwnerOf,
         ReplaceWellFormed;
    SecondIsBuilding();
    WhatLives();
    MoveIsPrepared(clock);
    var done := Prepare(embedder, building, "writer", [LEGACY_SCOPE, "other"], vector, clock);
    var r := MoveIt(done.outcome.blobs);
    PreparedAlike(embedder, building, "writer", [LEGACY_SCOPE, "other"], vector, clock);
    MoveMeetsTheGuards(building, vector);
    MoveCoversIff(plain, embedder, building, "writer", LEGACY_SCOPE, "other", vector, clock);
    BlobsAreValid(done.outcome.blobs);
    MoveMeetsTheGuards(done.db, done.outcome.blobs);
    MoveIsRefusedIff(plain, embedder, building, r, vector, clock);
  }

  lemma PreparedAlike(i: Identity, db: Db, grant: string, scopes: seq<string>, blobs: map<int, Blob>,
                      clock: nat -> string)
    requires blobs.Keys == {DEFAULT_GENERATION} && Prepare(i, db, grant, scopes, blobs, clock).outcome.Ready?
    ensures var more := Prepare(i, db, grant, scopes, blobs, clock).outcome.blobs;
      forall g | g in more :: more[g] == blobs[DEFAULT_GENERATION]
  {
  }

  /** A generation is failed, an exception strikes right after the durable COMMIT, and WAL mode cannot be
      restored: the error says that nothing was cleaned, and everything was. */
  lemma CleanedButSaysNot()
    ensures Inv(plain, building)
    ensures var report := Attempt(plain, Disk(building, Wal), failSecond, [], Raise(AfterCommit), RestoreRaises);
      report.end == RecoveryRaised(false) && Cleaned(building, failSecond, report.disk.db)
  {
    hide Inv, MayFail, Droppable, OwnerOf, Blank, FailCommit, Cleaned;
    SecondIsBuilding();
    MayFailSecond();
    Words();
    assert Run(plain, building, []) == building;
    CleanedIffPasses(building, failSecond, Raise(AfterCommit), RestoreRaises);
  }

  lemma MayFailSecond()
    ensures MayFail(building, failSecond)
      && Droppable(building, ProfileKey(OwnerOf(building, "writer"), LEGACY_SCOPE, 2))
  {
    hide LiveProfiles, ActiveGenerations, CanAdmin, CanWrite, OwnerOf;
    WhatLives();
    WriterMay(building);
  }
  // ------------------------------------------------------------ a gap in the history

  const registry: seq<Migration> := [
    Migration.Migration(1, "one", (db: Db, b: Bootstrap) => Some(db)),
    Migration.Migration(2, "two", (db: Db, b: Bootstrap) => Some(db))]

  /** A database that records version 2 but not version 1 is taken for migrated, and version 1 is never applied. */
  lemma GapIsNotNoticed(b: Bootstrap, clock: int -> string)
    requires ValidBootstrap(b)
    ensures var gap := Store(imported, map[2 := Stamp("two", "t")]);
      Migrate(gap, b, registry, clock) == Migrated(gap, 2, [])
  {
    hide Blank, Registry;
    assert !IsSpace("one"[0]) && !IsSpace("two"[0]);
    RegistryIsValid();
    assert Latest(map[2 := Stamp("two", "t")], 2) == 2;
  }

  lemma RegistryIsValid()
    ensures Validate(registry) == Some(registry)
  {
    NotBlank("one"); NotBlank("two");
    PrefixValidates(registry, 2);
  }
}
