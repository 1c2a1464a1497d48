/** Every step keeps `Integrity.Inv`, hence every run does. */
module Preservation {
  import opened Schema
  import opened Transactions
  import opened Integrity

  // ---------------------------------------------------------------------- add

  predicate AddAllowed(env: Env, db: Db, r: Request)
    requires r.Add?
  {
    CanWrite(db, r.grant, r.scope) && r.memory !in db.metadata && ValidBlobs(r.blobs)
    && LiveProfiles(db.profiles, OwnerOf(db, r.grant), r.scope).Keys == r.blobs.Keys && AddFits(env, db, r)
  }

  lemma AddShape(env: Env, db: Db, r: Request)
    requires r.Add? && AddStep(env, db, r).out.Committed?
    ensures AddAllowed(env, db, r) && Resolve(db, r.grant, r.scope, OpAdd, r.key, r.digest, r.pick).Unused?
    ensures AddStep(env, db, r).db == AddCommit(env, db, r)
    ensures AddStep(env, db, r).out == Committed(Receipt(r.memory, 1, r.at))
  {
  }

  lemma AddTouches(env: Env, db: Db, r: Request)
    requires r.Add?
    ensures Touches(db, AddCommit(env, db, r), r.memory)
  {
    var e := AddCommit(env, db, r);
    var live := LiveProfiles(db.profiles, OwnerOf(db, r.grant), r.scope);
    NewRowsAreLocal(db.embeddings,
      NewEmbeddings(env, r.memory, OwnerOf(db, r.grant), r.scope, live, r.blobs, r.at, live.Keys), r.memory);
    NewKeywords(db.keywords, env.keywords(r.content), r.memory);
    PutIsLocal(db.metadata, r.memory, e.metadata[r.memory]);
    PutIsLocal(db.memories, r.memory, e.memories[r.memory]);
    PutIsLocal(db.fts, r.memory, e.fts[r.memory]);
  }

  lemma AddEmbeds(env: Env, db: Db, r: Request)
    requires r.Add? && forall k | k in db.embeddings :: k.memory != r.memory
    ensures var e := AddCommit(env, db, r);
      RowsPoint(e.embeddings, e.profiles, r.memory, OwnerOf(db, r.grant), r.scope)
      && Covers(e.embeddings, e.profiles, r.memory, OwnerOf(db, r.grant), r.scope)
  {
    var owner := OwnerOf(db, r.grant);
    var live := LiveProfiles(db.profiles, owner, r.scope);
    var rows := NewEmbeddings(env, r.memory, owner, r.scope, live, r.blobs, r.at, live.Keys);
    NewRows(env, db.profiles, r.memory, owner, r.scope, r.blobs, r.at, live.Keys);
    LiveRowsCover(db.embeddings + rows, db.profiles, r.memory, owner, r.scope);
  }

  lemma AddLocally(env: Env, db: Db, r: Request)
    requires r.Add? && LocallySound(env, db, r.memory) && AddAllowed(env, db, r)
    ensures LocallySound(env, AddCommit(env, db, r), r.memory)
  {
    AddEmbeds(env, db, r);
    NewKeywords(db.keywords, env.keywords(r.content), r.memory);
    LiveMeansServed(db.profiles, OwnerOf(db, r.grant), r.scope);
  }

  lemma AddKeepsAudit(env: Env, db: Db, r: Request)
    requires r.Add? && AuditKeysHold(db) && r.grant in db.grants
    ensures AuditKeysHold(AddCommit(env, db, r))
  {
    LogsKeepKeys(env, db, AddCommit(env, db, r), r.grant, r.memory, 1, OpAdd, r.actor, r.at, r.digest, r.key,
                 r.scope, Receipt(r.memory, 1, r.at));
  }

  lemma AddKeepsInv(env: Env, db: Db, r: Request)
    requires r.Add? && Inv(env, db) && AddAllowed(env, db, r)
    ensures Inv(env, AddCommit(env, db, r))
  {
    InvIsLocal(env, db, r.memory);
    AddTouches(env, db, r);
    AddLocally(env, db, r);
    AddKeepsAudit(env, db, r);
    TouchKeepsInv(env, db, AddCommit(env, db, r), r.memory);
  }

  // ------------------------------------------------------------------ replace

  predicate Names(db: Db, grant: string, scope: string, id: string, expected: int, deleted: bool) {
    grant in db.grants && expected >= 1 && Visible(db, grant, scope, id, expected, deleted).None?
  }

  predicate ReplaceAllowed(env: Env, db: Db, r: Request)
    requires r.Replace?
  {
    r.memory in db.metadata && r.memory in db.memories
    && CanWrite(db, r.grant, r.scope) && MayReach(db, r.grant, TargetScope(r))
    && r.expected >= 1 && ValidBlobs(r.blobs) && ReplaceRefusal(env, db, r).None?
  }

  lemma NotRefused(env: Env, db: Db, r: Request)
    requires r.Replace? && ReplaceRefusal(env, db, r).None?
    ensures r.memory in db.memories && Visible(db, r.grant, r.scope, r.memory, r.expected, false).None?
    ensures ReplaceFits(env, db, r)
  {
  }

  lemma ReplaceShape(env: Env, db: Db, r: Request)
    requires r.Replace? && ReplaceStep(env, db, r).out.Committed?
    ensures ReplaceAllowed(env, db, r) && Resolve(db, r.grant, r.scope, OpReplace, r.key, r.digest, r.pick).Unused?
    ensures ReplaceStep(env, db, r).db == ReplaceCommit(env, db, r)
    ensures ReplaceStep(env, db, r).out == Committed(Receipt(r.memory, r.expected + 1, r.at))
  {
    NotRefused(env, db, r);
  }

  lemma RefreshIsLocal(rows: map<EmbeddingKey, Embedding>, id: string, scope: string, live: map<int, Provenance>,
                       blobs: map<int, Blob>, at: string, extra: map<EmbeddingKey, Embedding>)
    requires forall k | k in extra :: k.memory == id
    ensures OtherEmbeddings(Refreshed(rows, id, scope, live, blobs, at) + extra, id) == OtherEmbeddings(rows, id)
  {
  }

  lemma ReindexIsLocal(rows: set<Keyword>, id: string, words: set<string>)
    ensures OtherKeywords(Reindexed(rows, id, words), id) == OtherKeywords(rows, id)
    ensures KeywordsOf(Reindexed(rows, id, words), id) == words
  {
    NewKeywords(OtherKeywords(rows, id), words, id);
  }

  lemma ReplaceTouches(env: Env, db: Db, r: Request)
    requires r.Replace? && r.memory in db.metadata && r.memory in db.memories
    ensures Touches(db, ReplaceCommit(env, db, r), r.memory)
  {
    var e := ReplaceCommit(env, db, r);
    var target := TargetScope(r);
    var live := LiveProfiles(db.profiles, OwnerOf(db, r.grant), target);
    RefreshIsLocal(db.embeddings, r.memory, target, live, r.blobs, r.at,
      NewEmbeddings(env, r.memory, OwnerOf(db, r.grant), target, live, r.blobs, r.at,
                    Fresh(db.embeddings, r.memory, live.Keys)));
    ReindexIsLocal(db.keywords, r.memory, env.keywords(r.content));
    PutIsLocal(db.metadata, r.memory, e.metadata[r.memory]);
    PutIsLocal(db.memories, r.memory, e.memories[r.memory]);
    PutIsLocal(db.fts, r.memory, e.fts[r.memory]);
  }

  /** After a replace the rows of the memory lie in the target scope and cover its live profiles:
      present rows are refreshed, missing ones inserted, and a move leaves none behind. */
  lemma RefreshCovers(env: Env, rows: map<EmbeddingKey, Embedding>, profiles: map<ProfileKey, Profile>, id: string,
                      owner: string, source: string, target: string, blobs: map<int, Blob>, at: string)
    requires RowsPoint(rows, profiles, id, owner, source)
    requires LiveProfiles(profiles, owner, target).Keys == blobs.Keys
    requires target != source ==> forall k | k in rows && k.memory == id :: k.generation in blobs
    ensures var live := LiveProfiles(profiles, owner, target);
      var result := Refreshed(rows, id, target, live, blobs, at)
                    + NewEmbeddings(env, id, owner, target, live, blobs, at, Fresh(rows, id, live.Keys));
      RowsCover(result, id, owner, target, live) && RowsPoint(result, profiles, id, owner, target)
  {
    var live := LiveProfiles(profiles, owner, target);
    NewRows(env, profiles, id, owner, target, blobs, at, Fresh(rows, id, live.Keys));
    forall g | g in live ensures ProfileKey(owner, target, g) in profiles {
    }
  }

  lemma ReplaceLocally(env: Env, db: Db, r: Request)
    requires r.Replace? && LocallySound(env, db, r.memory) && ReplaceAllowed(env, db, r)
    ensures LocallySound(env, ReplaceCommit(env, db, r), r.memory)
  {
    var owner := OwnerOf(db, r.grant);
    var target := TargetScope(r);
    RefreshCovers(env, db.embeddings, db.profiles, r.memory, owner, r.scope, target, r.blobs, r.at);
    LiveRowsCover(ReplaceCommit(env, db, r).embeddings, db.profiles, r.memory, owner, target);
    ReindexIsLocal(db.keywords, r.memory, env.keywords(r.content));
    LiveMeansServed(db.profiles, owner, target);
  }

  lemma ReplaceKeepsAudit(env: Env, db: Db, r: Request)
    requires r.Replace? && AuditKeysHold(db) && r.grant in db.grants && r.memory in db.metadata
      && r.memory in db.memories
    ensures AuditKeysHold(ReplaceCommit(env, db, r))
  {
    LogsKeepKeys(env, db, ReplaceCommit(env, db, r), r.grant, r.memory, r.expected + 1, OpReplace, r.actor, r.at,
                 r.digest, r.key,
                 TargetScope(r), Receipt(r.memory, r.expected + 1, r.at));
  }

  lemma ReplaceKeepsInv(env: Env, db: Db, r: Request)
    requires r.Replace? && Inv(env, db) && ReplaceAllowed(env, db, r)
    ensures Inv(env, ReplaceCommit(env, db, r))
  {
    InvIsLocal(env, db, r.memory);
    ReplaceTouches(env, db, r);
    ReplaceLocally(env, db, r);
    ReplaceKeepsAudit(env, db, r);
    TouchKeepsInv(env, db, ReplaceCommit(env, db, r), r.memory);
  }

  // ------------------------------------------------------ remove and restore

  predicate RemoveAllowed(env: Env, db: Db, r: Request)
    requires r.Remove?
  {
    Names(db, r.grant, r.scope, r.memory, r.expected, false) && CanWrite(db, r.grant, r.scope)
    && EventFits(env, db.events, r.memory, r.expected + 1, OpRemove) && IdemKey(r.grant, OpRemove, r.key) !in db.idem
  }

  lemma RemoveShape(env: Env, db: Db, r: Request)
    requires r.Remove? && RemoveStep(env, db, r).out.Committed?
    ensures RemoveAllowed(env, db, r) && Resolve(db, r.grant, r.scope, OpRemove, r.key, r.digest, r.pick).Unused?
    ensures RemoveStep(env, db, r).db == RemoveCommit(env, db, r)
    ensures RemoveStep(env, db, r).out == Committed(Receipt(r.memory, r.expected + 1, r.at))
  {
  }

  predicate RestoreAllowed(env: Env, db: Db, r: Request)
    requires r.Restore?
  {
    Names(db, r.grant, r.scope, r.memory, r.expected, true) && CanAdmin(db, r.grant, r.scope)
    && r.memory in db.memories && FullyEmbedded(db, r.memory, OwnerOf(db, r.grant), r.scope)
    && EventFits(env, db.events, r.memory, r.expected + 1, OpRestore) && IdemKey(r.grant, OpRestore, r.key) !in db.idem
  }

  lemma RestoreShape(env: Env, db: Db, r: Request)
    requires r.Restore? && RestoreStep(env, db, r).out.Committed?
    ensures RestoreAllowed(env, db, r) && Resolve(db, r.grant, r.scope, OpRestore, r.key, r.digest, r.pick).Unused?
    ensures RestoreStep(env, db, r).db == RestoreCommit(env, db, r)
    ensures RestoreStep(env, db, r).out == Committed(Receipt(r.memory, r.expected + 1, r.at))
  {
  }

  lemma RemoveTouches(env: Env, db: Db, r: Request)
    requires r.Remove? && r.memory in db.metadata
    ensures Touches(db, RemoveCommit(env, db, r), r.memory)
  {
    PutIsLocal(db.metadata, r.memory, RemoveCommit(env, db, r).metadata[r.memory]);
  }

  lemma RemoveLocally(env: Env, db: Db, r: Request)
    requires r.Remove? && LocallySound(env, db, r.memory) && RemoveAllowed(env, db, r)
    ensures LocallySound(env, RemoveCommit(env, db, r), r.memory)
  {
  }

  lemma RemoveKeepsAudit(env: Env, db: Db, r: Request)
    requires r.Remove? && AuditKeysHold(db) && r.grant in db.grants && r.memory in db.metadata
    ensures AuditKeysHold(RemoveCommit(env, db, r))
  {
    LogsKeepKeys(env, db, RemoveCommit(env, db, r), r.grant, r.memory, r.expected + 1, OpRemove, r.actor, r.at,
                 r.digest, r.key,
                 r.scope, Receipt(r.memory, r.expected + 1, r.at));
  }

  lemma RemoveKeepsInv(env: Env, db: Db, r: Request)
    requires r.Remove? && Inv(env, db) && RemoveAllowed(env, db, r)
    ensures Inv(env, RemoveCommit(env, db, r))
  {
    InvIsLocal(env, db, r.memory);
    RemoveTouches(env, db, r);
    RemoveLocally(env, db, r);
    RemoveKeepsAudit(env, db, r);
    TouchKeepsInv(env, db, RemoveCommit(env, db, r), r.memory);
  }

  lemma RestoreTouches(env: Env, db: Db, r: Request)
    requires r.Restore? && r.memory in db.metadata && r.memory in db.memories
    ensures Touches(db, RestoreCommit(env, db, r), r.memory)
  {
    var e := RestoreCommit(env, db, r);
    ReindexIsLocal(db.keywords, r.memory, env.keywords(db.memories[r.memory].content));
    PutIsLocal(db.metadata, r.memory, e.metadata[r.memory]);
    PutIsLocal(db.fts, r.memory, e.fts[r.memory]);
  }

  lemma RestoreLocally(env: Env, db: Db, r: Request)
    requires r.Restore? && LocallySound(env, db, r.memory) && RestoreAllowed(env, db, r)
    ensures LocallySound(env, RestoreCommit(env, db, r), r.memory)
  {
    ReindexIsLocal(db.keywords, r.memory, env.keywords(db.memories[r.memory].content));
  }

  lemma RestoreKeepsAudit(env: Env, db: Db, r: Request)
    requires r.Restore? && AuditKeysHold(db) && r.grant in db.grants && r.memory in db.metadata
      && r.memory in db.memories
    ensures AuditKeysHold(RestoreCommit(env, db, r))
  {
    LogsKeepKeys(env, db, RestoreCommit(env, db, r), r.grant, r.memory, r.expected + 1, OpRestore, r.actor, r.at,
                 r.digest, r.key,
                 r.scope, Receipt(r.memory, r.expected + 1, r.at));
  }

  lemma RestoreKeepsInv(env: Env, db: Db, r: Request)
    requires r.Restore? && Inv(env, db) && RestoreAllowed(env, db, r)
    ensures Inv(env, RestoreCommit(env, db, r))
  {
    InvIsLocal(env, db, r.memory);
    RestoreTouches(env, db, r);
    RestoreLocally(env, db, r);
    RestoreKeepsAudit(env, db, r);
    TouchKeepsInv(env, db, RestoreCommit(env, db, r), r.memory);
  }

  // -------------------------------------------------------------------- purge

  predicate PurgeAllowed(env: Env, db: Db, r: Request)
    requires r.Purge?
  {
    CanAdmin(db, r.grant, r.scope)
    && r.memory in db.metadata && db.metadata[r.memory].owner == OwnerOf(db, r.grant)
    && db.metadata[r.memory].scope == r.scope && db.metadata[r.memory].revision == r.expected && r.expected >= 1
    && EventFits(env, db.events, r.memory, r.expected + 1, OpPurge) && IdemKey(r.grant, OpPurge, r.key) !in db.idem
    && VectorsDeletable(db, r.memory) && r.memory in db.memories
  }

  lemma PurgeShape(env: Env, db: Db, r: Request)
    requires r.Purge? && PurgeStep(env, db, r).out.Committed?
    ensures PurgeAllowed(env, db, r) && PurgeStep(env, db, r).db == PurgeCommit(env, db, r)
    ensures PurgeStep(env, db, r).out == Committed(Receipt(r.memory, r.expected + 1, r.at))
  {
  }

  lemma DropRowsIsLocal(rows: map<EmbeddingKey, Embedding>, words: set<Keyword>, id: string)
    ensures OtherEmbeddings(OtherEmbeddings(rows, id), id) == OtherEmbeddings(rows, id)
    ensures OtherKeywords(OtherKeywords(words, id), id) == OtherKeywords(words, id)
  {
  }

  lemma PurgeTouches(env: Env, db: Db, r: Request)
    requires r.Purge?
    ensures Touches(db, PurgeCommit(env, db, r), r.memory)
  {
    DropIsLocal(db.metadata, r.memory);
    DropIsLocal(db.memories, r.memory);
    DropIsLocal(db.fts, r.memory);
    DropRowsIsLocal(db.embeddings, db.keywords, r.memory);
  }

  lemma PurgeKeepsAudit(env: Env, db: Db, r: Request)
    requires r.Purge? && AuditKeysHold(db) && r.grant in db.grants
    ensures AuditKeysHold(PurgeCommit(env, db, r))
  {
  }

  lemma PurgeKeepsInv(env: Env, db: Db, r: Request)
    requires r.Purge? && Inv(env, db) && PurgeAllowed(env, db, r)
    ensures Inv(env, PurgeCommit(env, db, r))
  {
    PurgeTouches(env, db, r);
    PurgeKeepsAudit(env, db, r);
    assert LocallySound(env, PurgeCommit(env, db, r), r.memory);
    TouchKeepsInv(env, db, PurgeCommit(env, db, r), r.memory);
  }

  // ------------------------------------------- generations and outside steps

  /** A step that changes profiles, embeddings and the vector registry but no memory. */
  lemma RemapKeepsInv(env: Env, db: Db, e: Db)
    requires Inv(env, db)
    requires e == db.(profiles := e.profiles, embeddings := e.embeddings, vectorTables := e.vectorTables,
                      vectors := e.vectors)
    requires db.profiles.Keys <= e.profiles.Keys && RegistryKeysHold(e) && OneActive(e.profiles)
      && NeverAbandoned(e.profiles)
    requires EmbeddingKeysHold(e)
    requires forall id | AddCreated(db, id) :: Covered(e, id)
    ensures Inv(env, e)
  {
    forall id | id in e.metadata ensures Sound(env, e, id) {
      assert Sound(env, db, id);
      if AddCreated(e, id) {
        assert AddCreated(db, id);
      }
    }
  }

  /** `key` is live in `after`, and so is every profile of other scopes that was. */
  lemma StillServed(before: map<ProfileKey, Profile>, after: map<ProfileKey, Profile>, key: ProfileKey)
    requires NeverAbandoned(before) && before.Keys <= after.Keys
    requires key in after && IsLive(after[key].status) && key.generation >= 1
    requires forall k | k in after :: k in before || k == key
    requires forall k | k in before && !(k.owner == key.owner && k.scope == key.scope) :: after[k] == before[k]
    ensures NeverAbandoned(after)
  {
    forall k | k in after ensures Served(after, k.owner, k.scope) {
      if !(k.owner == key.owner && k.scope == key.scope) {
        var j :| j in before && j.owner == k.owner && j.scope == k.scope && IsLive(before[j].status);
        assert after[j] == before[j];
      }
    }
  }

  lemma SwitchKeepsOneActive(profiles: map<ProfileKey, Profile>, active: ProfileKey, building: ProfileKey, at: string)
    requires OneActive(profiles) && active in profiles && profiles[active].status == Active
    requires active.owner == building.owner && active.scope == building.scope
    ensures OneActive(Switched(profiles, active, building, at))
  {
  }

  lemma SwitchKeepsOrder(profiles: map<ProfileKey, Profile>, active: ProfileKey, building: ProfileKey, at: string)
    requires OneActive(profiles) && NeverAbandoned(profiles)
    requires active in profiles && building in profiles && active != building
    requires profiles[active].status == Active
    requires active.owner == building.owner && active.scope == building.scope
    ensures OneActive(Switched(profiles, active, building, at))
    ensures NeverAbandoned(Switched(profiles, active, building, at))
  {
    SwitchKeepsOneActive(profiles, active, building, at);
    StillServed(profiles, Switched(profiles, active, building, at), building);
  }

  /** Parity makes the rows of the building generation cover every memory of the scope. */
  lemma ParityCovers(db: Db, r: Request, id: string)
    requires r.Cutover? && id in db.metadata && Covered(db, id) && OneActive(db.profiles)
    requires var owner := OwnerOf(db, r.grant);
      ActiveGenerations(db.profiles, owner, r.scope) == {r.expected}
      && InParity(db, owner, r.scope, r.expected, r.building)
    ensures Covered(CutoverCommit(db, OwnerOf(db, r.grant), r), id)
  {
    var owner := OwnerOf(db, r.grant);
    var e := CutoverCommit(db, owner, r);
    forall p | p in e.profiles && p.owner == db.metadata[id].owner && p.scope == db.metadata[id].scope
               && e.profiles[p].status == Active
      ensures var k := EmbeddingKey(id, p.generation);
        k in db.embeddings && db.embeddings[k].owner == p.owner && db.embeddings[k].scope == p.scope
        && db.embeddings[k].provenance == e.profiles[p].provenance
    {
      if p == ProfileKey(owner, r.scope, r.building) {
        assert id in Canonical(db.metadata, owner, r.scope);
        assert id in Embedded(db.embeddings, owner, r.scope, r.building);
        assert ProfileOf(db.embeddings, EmbeddingKey(id, r.building)) == p;
      } else {
        assert db.profiles[p] == e.profiles[p];
      }
    }
  }

  lemma ActiveProfile(profiles: map<ProfileKey, Profile>, owner: string, scope: string, g: int)
    requires g in ActiveGenerations(profiles, owner, scope)
    ensures ProfileKey(owner, scope, g) in profiles && profiles[ProfileKey(owner, scope, g)].status == Active
  {
  }

  lemma CutoverKeepsInv(env: Env, db: Db, r: Request)
    requires r.Cutover? && Inv(env, db) && CutoverStep(db, r).out.Applied?
    ensures Inv(env, CutoverStep(db, r).db)
  {
    var owner := OwnerOf(db, r.grant);
    var e := CutoverCommit(db, owner, r);
    ActiveProfile(db.profiles, owner, r.scope, r.expected);
    SwitchKeepsOrder(db.profiles, ProfileKey(owner, r.scope, r.expected), ProfileKey(owner, r.scope, r.building), r.at);
    forall id | AddCreated(db, id) ensures Covered(e, id) {
      assert Sound(env, db, id);
      ParityCovers(db, r, id);
    }
    RemapKeepsInv(env, db, e);
  }

  lemma FailKeepsOrder(profiles: map<ProfileKey, Profile>, key: ProfileKey, at: string)
    requires OneActive(profiles) && NeverAbandoned(profiles)
    requires key in profiles && profiles[key].status == Building
    requires ActiveGenerations(profiles, key.owner, key.scope) != {}
    ensures var after := profiles[key := profiles[key].(status := Failed, retiredAt := Some(at))];
      OneActive(after) && NeverAbandoned(after)
  {
    var g :| g in ActiveGenerations(profiles, key.owner, key.scope);
    ActiveProfile(profiles, key.owner, key.scope, g);
    StillServed(profiles, profiles[key := profiles[key].(status := Failed, retiredAt := Some(at))],
                ProfileKey(key.owner, key.scope, g));
  }

  lemma FailCovers(db: Db, key: ProfileKey, at: string, id: string)
    requires key in db.profiles && db.profiles[key].status == Building && id in db.metadata && Covered(db, id)
    ensures Covered(FailCommit(db, key, at), id)
  {
  }

  lemma FailKeepsKeys(db: Db, key: ProfileKey, at: string)
    requires key in db.profiles && EmbeddingKeysHold(db) && RegistryKeysHold(db)
    ensures EmbeddingKeysHold(FailCommit(db, key, at)) && RegistryKeysHold(FailCommit(db, key, at))
  {
  }

  lemma FailKeepsInv(env: Env, db: Db, r: Request)
    requires r.FailGeneration? && Inv(env, db) && FailStep(db, r).out.Applied?
    ensures Inv(env, FailStep(db, r).db)
  {
    var key := ProfileKey(OwnerOf(db, r.grant), r.scope, r.building);
    var e := FailCommit(db, key, r.at);
    FailKeepsOrder(db.profiles, key, r.at);
    FailKeepsKeys(db, key, r.at);
    forall id | AddCreated(db, id) ensures Covered(e, id) {
      assert Sound(env, db, id);
      FailCovers(db, key, r.at, id);
    }
    RemapKeepsInv(env, db, e);
  }

  lemma NewProfileOrder(profiles: map<ProfileKey, Profile>, key: ProfileKey, row: Profile)
    requires OneActive(profiles) && NeverAbandoned(profiles) && key !in profiles && IsLive(row.status)
      && key.generation >= 1
    requires row.status == Active ==> !Served(profiles, key.owner, key.scope)
    ensures OneActive(profiles[key := row]) && NeverAbandoned(profiles[key := row])
  {
    StillServed(profiles, profiles[key := row], key);
  }

  lemma NewProfileCovers(db: Db, key: ProfileKey, row: Profile, id: string)
    requires id in db.metadata && Covered(db, id) && Served(db.profiles, db.metadata[id].owner, db.metadata[id].scope)
    requires row.status == Active ==> !Served(db.profiles, key.owner, key.scope)
    ensures Covered(db.(profiles := db.profiles[key := row]), id)
  {
  }

  lemma NewProfileKeepsKeys(db: Db, key: ProfileKey, row: Profile)
    requires EmbeddingKeysHold(db) && RegistryKeysHold(db)
    ensures var e := db.(profiles := db.profiles[key := row]); EmbeddingKeysHold(e) && RegistryKeysHold(e)
  {
  }

  /** A profile inserted under a new key, ACTIVE only where nothing was live. */
  lemma NewProfileKeepsInv(env: Env, db: Db, key: ProfileKey, row: Profile)
    requires Inv(env, db) && key !in db.profiles && IsLive(row.status) && key.generation >= 1
    requires row.status == Active ==> !Served(db.profiles, key.owner, key.scope)
    ensures Inv(env, db.(profiles := db.profiles[key := row]))
  {
    NewProfileOrder(db.profiles, key, row);
    NewProfileKeepsKeys(db, key, row);
    forall id | AddCreated(db, id) ensures Covered(db.(profiles := db.profiles[key := row]), id) {
      assert Sound(env, db, id);
      NewProfileCovers(db, key, row, id);
    }
    RemapKeepsInv(env, db, db.(profiles := db.profiles[key := row]));
  }

  /** Rows may be added, and the vector row of any may change. */
  predicate Extends(e: map<EmbeddingKey, Embedding>, rows: map<EmbeddingKey, Embedding>) {
    forall k | k in rows :: k in e && e[k].owner == rows[k].owner && e[k].scope == rows[k].scope
                            && e[k].provenance == rows[k].provenance
  }

  lemma ExtensionKeepsInv(env: Env, db: Db, e: Db)
    requires Inv(env, db) && e == db.(embeddings := e.embeddings, vectorTables := e.vectorTables, vectors := e.vectors)
    requires Extends(e.embeddings, db.embeddings) && EmbeddingKeysHold(e) && RegistryKeysHold(e)
    ensures Inv(env, e)
  {
    forall x | AddCreated(db, x) ensures Covered(e, x) {
      assert Sound(env, db, x);
    }
    RemapKeepsInv(env, db, e);
  }

  lemma BackfillKeepsKeys(db: Db, id: string, key: ProfileKey, row: Embedding)
    requires EmbeddingKeysHold(db) && Backfillable(db, id, key, row)
    ensures var e := db.(embeddings := db.embeddings[EmbeddingKey(id, key.generation) := row]);
      EmbeddingKeysHold(e) && Extends(e.embeddings, db.embeddings)
  {
  }

  lemma BackfillKeepsInv(env: Env, db: Db, id: string, key: ProfileKey, row: Embedding)
    requires Inv(env, db) && Backfillable(db, id, key, row)
    ensures Inv(env, db.(embeddings := db.embeddings[EmbeddingKey(id, key.generation) := row]))
  {
    BackfillKeepsKeys(db, id, key, row);
    ExtensionKeepsInv(env, db, db.(embeddings := db.embeddings[EmbeddingKey(id, key.generation) := row]));
  }

  lemma ProjectKeepsKeys(db: Db, e: Db, rows: map<EmbeddingKey, Option<int>>)
    requires EmbeddingKeysHold(db) && e.metadata == db.metadata && e.profiles == db.profiles
    requires e.embeddings == Reprojected(db.embeddings, rows)
    ensures EmbeddingKeysHold(e) && Extends(e.embeddings, db.embeddings)
  {
  }

  lemma ProjectKeepsInv(env: Env, db: Db, tables: map<ProfileKey, string>, vectors: map<string, set<int>>,
                        rows: map<EmbeddingKey, Option<int>>)
    requires Inv(env, db) && tables.Keys <= db.profiles.Keys
    ensures Inv(env, db.(vectorTables := tables, vectors := vectors, embeddings := Reprojected(db.embeddings, rows)))
  {
    var e := db.(vectorTables := tables, vectors := vectors, embeddings := Reprojected(db.embeddings, rows));
    ProjectKeepsKeys(db, e, rows);
    ExtensionKeepsInv(env, db, e);
  }

  /** Grants keep their owner and kind for ever. */
  lemma RegrantKeepsInv(env: Env, db: Db, grants: map<string, Grant>)
    requires Inv(env, db) && db.grants.Keys <= grants.Keys
    requires forall g | g in db.grants :: grants[g].owner == db.grants[g].owner && grants[g].kind == db.grants[g].kind
    ensures Inv(env, db.(grants := grants))
  {
    var e := db.(grants := grants);
    forall id | id in e.metadata ensures Sound(env, e, id) {
      assert Sound(env, db, id);
      assert AddCreated(e, id) <==> AddCreated(db, id);
    }
  }

  lemma OutsideKeepsInv(env: Env, db: Db, r: Request)
    requires Inv(env, db)
    ensures Inv(env, OutsideStep(db, r).db)
  {
    hide Inv, Backfillable, Reprojected;
    match r
    case EnsureProfile(owner, scope, identity, at) =>
      LiveMeansServed(db.profiles, owner, scope);
      var first := ProfileKey(owner, scope, DEFAULT_GENERATION);
      if OutsideStep(db, r).db != db {
        NewProfileKeepsInv(env, db, first, Profile(identity, Active, at, Some(at), None));
      }
    case Bind(id, row) =>
      if Unclaimed(db, id, row) { RegrantKeepsInv(env, db, db.grants[id := row]); }
    case Revoke(id, at) =>
      if id in db.grants { RegrantKeepsInv(env, db, db.grants[id := db.grants[id].(revokedAt := Some(at))]); }
    case Unlink(id, at) =>
      if id in db.grants { RegrantKeepsInv(env, db, db.grants[id := db.grants[id].(unlinkedAt := Some(at))]); }
    case StartBuild(key, identity, at) =>
      if Startable(db, key) { NewProfileKeepsInv(env, db, key, Profile(identity, Building, at, None, None)); }
    case Backfill(id, key, row) =>
      if Backfillable(db, id, key, row) { BackfillKeepsInv(env, db, id, key, row); }
    case Project(tables, vectors, rows) =>
      if OutsideStep(db, r).out.Applied? { ProjectKeepsInv(env, db, tables, vectors, rows); }
    case _ =>
  }

  // -------------------------------------------------------------------- steps

  // Each call either leaves the database alone or commits.

  lemma AddQuiet(env: Env, db: Db, r: Request)
    requires r.Add?
    ensures var reply := AddStep(env, db, r);
      reply.out.Committed? || ((reply.out.Rejected? || reply.out.Replayed?) && reply.db == db)
  {
  }

  lemma AddStepKeepsInv(env: Env, db: Db, r: Request)
    requires r.Add? && Inv(env, db)
    ensures Inv(env, AddStep(env, db, r).db)
  {
    if AddStep(env, db, r).out.Committed? {
      AddShape(env, db, r);
      AddKeepsInv(env, db, r);
    } else {
      AddQuiet(env, db, r);
    }
  }

  lemma ReplaceQuiet(env: Env, db: Db, r: Request)
    requires r.Replace?
    ensures var reply := ReplaceStep(env, db, r);
      reply.out.Committed? || ((reply.out.Rejected? || reply.out.Replayed?) && reply.db == db)
  {
  }

  lemma ReplaceStepKeepsInv(env: Env, db: Db, r: Request)
    requires r.Replace? && Inv(env, db)
    ensures Inv(env, ReplaceStep(env, db, r).db)
  {
    if ReplaceStep(env, db, r).out.Committed? {
      ReplaceShape(env, db, r);
      ReplaceKeepsInv(env, db, r);
    } else {
      ReplaceQuiet(env, db, r);
    }
  }

  lemma RemoveQuiet(env: Env, db: Db, r: Request)
    requires r.Remove?
    ensures var reply := RemoveStep(env, db, r);
      reply.out.Committed? || ((reply.out.Rejected? || reply.out.Replayed?) && reply.db == db)
  {
  }

  lemma RemoveStepKeepsInv(env: Env, db: Db, r: Request)
    requires r.Remove? && Inv(env, db)
    ensures Inv(env, RemoveStep(env, db, r).db)
  {
    if RemoveStep(env, db, r).out.Committed? {
      RemoveShape(env, db, r);
      RemoveKeepsInv(env, db, r);
    } else {
      RemoveQuiet(env, db, r);
    }
  }

  lemma RestoreQuiet(env: Env, db: Db, r: Request)
    requires r.Restore?
    ensures var reply := RestoreStep(env, db, r);
      reply.out.Committed? || ((reply.out.Rejected? || reply.out.Replayed?) && reply.db == db)
  {
  }

  lemma RestoreStepKeepsInv(env: Env, db: Db, r: Request)
    requires r.Restore? && Inv(env, db)
    ensures Inv(env, RestoreStep(env, db, r).db)
  {
    if RestoreStep(env, db, r).out.Committed? {
      RestoreShape(env, db, r);
      RestoreKeepsInv(env, db, r);
    } else {
      RestoreQuiet(env, db, r);
    }
  }

  lemma PurgeQuiet(env: Env, db: Db, r: Request)
    requires r.Purge?
    ensures var reply := PurgeStep(env, db, r);
      reply.out.Committed? || ((reply.out.Rejected? || reply.out.Replayed?) && reply.db == db)
  {
  }

  lemma PurgeStepKeepsInv(env: Env, db: Db, r: Request)
    requires r.Purge? && Inv(env, db)
    ensures Inv(env, PurgeStep(env, db, r).db)
  {
    if PurgeStep(env, db, r).out.Committed? {
      PurgeShape(env, db, r);
      PurgeKeepsInv(env, db, r);
    } else {
      PurgeQuiet(env, db, r);
    }
  }

  lemma CutoverStepKeepsInv(env: Env, db: Db, r: Request)
    requires r.Cutover? && Inv(env, db)
    ensures Inv(env, CutoverStep(db, r).db)
  {
    if CutoverStep(db, r).out.Applied? { CutoverKeepsInv(env, db, r); }
  }

  lemma StepKeepsInv(env: Env, db: Db, r: Request)
    requires Inv(env, db)
    ensures Inv(env, Step(env, db, r).db)
  {
    if r.Add? { AddStepKeepsInv(env, db, r); }
    else if r.Replace? { ReplaceStepKeepsInv(env, db, r); }
    else if r.Remove? { RemoveStepKeepsInv(env, db, r); }
    else if r.Restore? { RestoreStepKeepsInv(env, db, r); }
    else if r.Purge? { PurgeStepKeepsInv(env, db, r); }
    else if r.Cutover? { CutoverStepKeepsInv(env, db, r); }
    else if r.FailGeneration? { if FailStep(db, r).out.Applied? { FailKeepsInv(env, db, r); } }
    else { OutsideKeepsInv(env, db, r); }
  }

  lemma {:induction false} RunKeepsInv(env: Env, db: Db, rs: seq<Request>)
    requires Inv(env, db)
    ensures Inv(env, Run(env, db, rs))
    decreases |rs|
  {
    if rs != [] {
      StepKeepsInv(env, db, rs[0]);
      RunKeepsInv(env, Step(env, db, rs[0]).db, rs[1..]);
    }
  }
}
