/** A summary of every call: what a committed write does to the logs and to the row it names, and
    that any other call leaves memories and logs alone. Later modules argue from this summary. */
module Effects {
  import opened Schema
  import opened Transactions
  import opened Integrity
  import opened Preservation

  predicate IsWrite(r: Request) {
    r.Add? || r.Replace? || r.Remove? || r.Restore? || r.Purge?
  }

  function OperationOf(r: Request): Operation
    requires IsWrite(r)
  {
    if r.Add? then OpAdd else if r.Replace? then OpReplace else if r.Remove? then OpRemove
    else if r.Restore? then OpRestore else OpPurge
  }

  /** The revision that a write reports when it commits. */
  function NextRevision(r: Request): int
    requires IsWrite(r)
  {
    if r.Add? then 1 else r.expected + 1
  }

  /** The scope under which a write files its idempotency row. */
  function FiledScope(r: Request): string
    requires IsWrite(r)
  {
    if r.Replace? then TargetScope(r) else r.scope
  }

  /** One event row, under a new key and a new id. */
  predicate Appends(env: Env, db: Db, r: Request, e: Db)
    requires IsWrite(r)
  {
    EventFits(env, db.events, r.memory, NextRevision(r), OperationOf(r))
    && e.events == WithEvent(env, db, r.grant, r.memory, NextRevision(r), OperationOf(r), r.actor, r.at, r.digest)
  }

  /** One idempotency row, under a new key; a purge also turns every row of the memory into a deny row. */
  predicate Files(db: Db, r: Request, e: Db)
    requires IsWrite(r)
  {
    var key := IdemKey(r.grant, OperationOf(r), r.key);
    key !in db.idem
    && if r.Purge? then
         e.idem == Scrubbed(db.idem[key := IdemRow(OwnerOf(db, r.grant), r.actor, r.memory, r.scope, r.denyDigest, None,
                                                   r.at, Some(r.at))],
                            OwnerOf(db, r.grant), r.memory, r.denyDigest, r.at)
       else e.idem == WithReceipt(db, r.grant, OperationOf(r), r.key, r.actor, FiledScope(r), r.digest,
                                  Receipt(r.memory, NextRevision(r), r.at))
  }

  /** The compare-and-set on the row: the writer owns it, it lies in the scope, it had the expected
      revision and state; owner, creator and creation time stay; revision and state move on. */
  predicate Moves(db: Db, r: Request, e: Db)
    requires IsWrite(r)
  {
    var id := r.memory;
    (if r.Add? then id !in db.metadata
     else id in db.metadata && db.metadata[id].owner == OwnerOf(db, r.grant) && db.metadata[id].scope == r.scope
          && db.metadata[id].revision == r.expected
          && ((r.Replace? || r.Remove?) ==> db.metadata[id].deletedAt.None?)
          && (r.Restore? ==> db.metadata[id].deletedAt.Some?))
    && (if r.Purge? then id !in e.metadata
        else id in e.metadata && e.metadata[id].revision == NextRevision(r)
             && e.metadata[id].owner == OwnerOf(db, r.grant)
             && e.metadata[id].scope == FiledScope(r) && (e.metadata[id].deletedAt.Some? <==> r.Remove?)
             && e.metadata[id].creator == (if r.Add? then r.grant else db.metadata[id].creator))
  }

  predicate Stores(db: Db, r: Request, e: Db)
    requires IsWrite(r)
  {
    (r.Add? || r.Replace? ==> r.memory in e.memories && e.memories[r.memory].content == r.content)
    && (r.Remove? || r.Restore? ==> e.memories == db.memories)
    && (r.Purge? ==> r.memory !in e.memories)
  }

  predicate WriteEffect(env: Env, db: Db, r: Request, e: Db)
    requires IsWrite(r)
  {
    Usable(db, r.grant) && MayReach(db, r.grant, r.scope)
    && (!r.Purge? ==> Resolve(db, r.grant, r.scope, OperationOf(r), r.key, r.digest, r.pick).Unused?)
    && Touches(db, e, r.memory) && Moves(db, r, e) && Stores(db, r, e) && Appends(env, db, r, e) && Files(db, r, e)
  }

  /** Grants may come, be revoked or unlinked, but keep owner, kind and scopes. */
  predicate GrantsKept(g: map<string, Grant>, h: map<string, Grant>) {
    g.Keys <= h.Keys && forall k | k in g ::
      h[k].owner == g[k].owner && h[k].kind == g[k].kind && h[k].sourceClient == g[k].sourceClient
      && h[k].oauthScopes == g[k].oauthScopes && h[k].memoryScopes == g[k].memoryScopes
  }

  predicate QuietEffect(db: Db, e: Db) {
    e.memories == db.memories && e.keywords == db.keywords && e.fts == db.fts && e.metadata == db.metadata
    && e.events == db.events && e.idem == db.idem && GrantsKept(db.grants, e.grants)
  }

  predicate Effect(env: Env, db: Db, r: Request, reply: Reply) {
    (if reply.out.Committed? then
       IsWrite(r) && WriteEffect(env, db, r, reply.db)
       && reply.out.receipt == Receipt(r.memory, NextRevision(r), r.at)
     else QuietEffect(db, reply.db))
    && (reply.out.Rejected? || reply.out.Replayed? ==> reply.db == db)
    && (reply.out.Applied? ==> !IsWrite(r))
    && (reply.out.Replayed? ==> IsWrite(r))
    && (IsWrite(r) || r.Cutover? || r.FailGeneration? ==> reply.db.grants == db.grants)
  }

  predicate Quiet(db: Db, reply: Reply) {
    (reply.out.Rejected? || reply.out.Applied?) && QuietEffect(db, reply.db) && (reply.out.Rejected? ==> reply.db == db)
  }

  lemma QuietIsEffect(env: Env, db: Db, r: Request, reply: Reply)
    requires !IsWrite(r) && Quiet(db, reply) && (r.Cutover? || r.FailGeneration? ==> reply.db.grants == db.grants)
    ensures Effect(env, db, r, reply)
  {
  }

  lemma UnchangedIsEffect(env: Env, db: Db, r: Request, reply: Reply)
    requires IsWrite(r) && reply.db == db && (reply.out.Rejected? || reply.out.Replayed?)
    ensures Effect(env, db, r, reply)
  {
  }

  lemma AddCommitEffect(env: Env, db: Db, r: Request)
    requires r.Add? && AddAllowed(env, db, r) && Resolve(db, r.grant, r.scope, OpAdd, r.key, r.digest, r.pick).Unused?
    ensures WriteEffect(env, db, r, AddCommit(env, db, r))
  {
    AddTouches(env, db, r);
    assert NextRevision(r) == 1 && OperationOf(r) == OpAdd && FiledScope(r) == r.scope;
  }

  lemma AddEffect(env: Env, db: Db, r: Request)
    requires r.Add?
    ensures Effect(env, db, r, AddStep(env, db, r))
  {
    if AddStep(env, db, r).out.Committed? {
      AddShape(env, db, r);
      AddCommitEffect(env, db, r);
    } else {
      AddQuiet(env, db, r);
      UnchangedIsEffect(env, db, r, AddStep(env, db, r));
    }
  }

  lemma ReplaceMoves(env: Env, db: Db, r: Request)
    requires r.Replace? && r.memory in db.memories && Visible(db, r.grant, r.scope, r.memory, r.expected, false).None?
    ensures Moves(db, r, ReplaceCommit(env, db, r)) && Stores(db, r, ReplaceCommit(env, db, r))
  {
  }

  lemma ReplaceFiles(env: Env, db: Db, r: Request)
    requires r.Replace? && r.memory in db.memories && r.memory in db.metadata && ReplaceFits(env, db, r)
    ensures Appends(env, db, r, ReplaceCommit(env, db, r)) && Files(db, r, ReplaceCommit(env, db, r))
  {
    assert NextRevision(r) == r.expected + 1 && OperationOf(r) == OpReplace && FiledScope(r) == TargetScope(r);
  }

  lemma ReplaceCommitEffect(env: Env, db: Db, r: Request)
    requires r.Replace? && ReplaceAllowed(env, db, r)
      && Resolve(db, r.grant, r.scope, OpReplace, r.key, r.digest, r.pick).Unused?
    ensures WriteEffect(env, db, r, ReplaceCommit(env, db, r))
  {
    NotRefused(env, db, r);
    ReplaceTouches(env, db, r);
    ReplaceMoves(env, db, r);
    ReplaceFiles(env, db, r);
  }

  lemma ReplaceEffect(env: Env, db: Db, r: Request)
    requires r.Replace?
    ensures Effect(env, db, r, ReplaceStep(env, db, r))
  {
    if ReplaceStep(env, db, r).out.Committed? {
      ReplaceShape(env, db, r);
      ReplaceCommitEffect(env, db, r);
    } else {
      ReplaceQuiet(env, db, r);
      UnchangedIsEffect(env, db, r, ReplaceStep(env, db, r));
    }
  }

  lemma RemoveCommitEffect(env: Env, db: Db, r: Request)
    requires r.Remove? && RemoveAllowed(env, db, r)
      && Resolve(db, r.grant, r.scope, OpRemove, r.key, r.digest, r.pick).Unused?
    ensures WriteEffect(env, db, r, RemoveCommit(env, db, r))
  {
    RemoveTouches(env, db, r);
    assert NextRevision(r) == r.expected + 1 && OperationOf(r) == OpRemove && FiledScope(r) == r.scope;
  }

  lemma RemoveEffect(env: Env, db: Db, r: Request)
    requires r.Remove?
    ensures Effect(env, db, r, RemoveStep(env, db, r))
  {
    if RemoveStep(env, db, r).out.Committed? {
      RemoveShape(env, db, r);
      RemoveCommitEffect(env, db, r);
    } else {
      RemoveQuiet(env, db, r);
      UnchangedIsEffect(env, db, r, RemoveStep(env, db, r));
    }
  }

  lemma RestoreCommitEffect(env: Env, db: Db, r: Request)
    requires r.Restore? && RestoreAllowed(env, db, r)
      && Resolve(db, r.grant, r.scope, OpRestore, r.key, r.digest, r.pick).Unused?
    ensures WriteEffect(env, db, r, RestoreCommit(env, db, r))
  {
    RestoreTouches(env, db, r);
    assert NextRevision(r) == r.expected + 1 && OperationOf(r) == OpRestore && FiledScope(r) == r.scope;
  }

  lemma RestoreEffect(env: Env, db: Db, r: Request)
    requires r.Restore?
    ensures Effect(env, db, r, RestoreStep(env, db, r))
  {
    if RestoreStep(env, db, r).out.Committed? {
      RestoreShape(env, db, r);
      RestoreCommitEffect(env, db, r);
    } else {
      RestoreQuiet(env, db, r);
      UnchangedIsEffect(env, db, r, RestoreStep(env, db, r));
    }
  }

  lemma PurgeCommitEffect(env: Env, db: Db, r: Request)
    requires r.Purge? && PurgeAllowed(env, db, r)
    ensures WriteEffect(env, db, r, PurgeCommit(env, db, r))
  {
    PurgeTouches(env, db, r);
    assert NextRevision(r) == r.expected + 1 && OperationOf(r) == OpPurge && FiledScope(r) == r.scope;
  }

  lemma PurgeEffect(env: Env, db: Db, r: Request)
    requires r.Purge?
    ensures Effect(env, db, r, PurgeStep(env, db, r))
  {
    if PurgeStep(env, db, r).out.Committed? {
      PurgeShape(env, db, r);
      PurgeCommitEffect(env, db, r);
    } else {
      PurgeQuiet(env, db, r);
      UnchangedIsEffect(env, db, r, PurgeStep(env, db, r));
    }
  }

  lemma CutoverQuiet(db: Db, r: Request)
    requires r.Cutover?
    ensures Quiet(db, CutoverStep(db, r)) && CutoverStep(db, r).db.grants == db.grants
  {
    assert QuietEffect(db, CutoverCommit(db, OwnerOf(db, r.grant), r));
  }

  lemma FailQuiet(db: Db, r: Request)
    requires r.FailGeneration?
    ensures Quiet(db, FailStep(db, r)) && FailStep(db, r).db.grants == db.grants
  {
    hide CanAdmin, ActiveGenerations, OwnerOf, Droppable;
    if FailStep(db, r).out.Applied? {
      assert QuietEffect(db, FailCommit(db, ProfileKey(OwnerOf(db, r.grant), r.scope, r.building), r.at));
    }
  }

  lemma ReprofileQuiet(db: Db, profiles: map<ProfileKey, Profile>)
    ensures QuietEffect(db, db.(profiles := profiles)) && QuietEffect(db, db)
  {
  }

  lemma EnsureQuiet(db: Db, r: Request)
    requires r.EnsureProfile?
    ensures Quiet(db, EnsureStep(db, r))
  {
    ReprofileQuiet(db, EnsureStep(db, r).db.profiles);
  }

  lemma RegrantQuiet(db: Db, grants: map<string, Grant>)
    requires GrantsKept(db.grants, grants)
    ensures QuietEffect(db, db.(grants := grants))
  {
  }

  lemma ReindexQuiet(db: Db, embeddings: map<EmbeddingKey, Embedding>, tables: map<ProfileKey, string>,
                     vectors: map<string, set<int>>)
    ensures QuietEffect(db, db.(vectorTables := tables, vectors := vectors, embeddings := embeddings))
    ensures QuietEffect(db, db.(embeddings := embeddings))
  {
  }

  lemma BindQuiet(db: Db, id: string, row: Grant)
    ensures Unclaimed(db, id, row) ==> QuietEffect(db, db.(grants := db.grants[id := row]))
  {
    if Unclaimed(db, id, row) { RegrantQuiet(db, db.grants[id := row]); }
  }

  lemma RevokeQuiet(db: Db, id: string, at: string)
    requires id in db.grants
    ensures QuietEffect(db, db.(grants := db.grants[id := db.grants[id].(revokedAt := Some(at))]))
    ensures QuietEffect(db, db.(grants := db.grants[id := db.grants[id].(unlinkedAt := Some(at))]))
  {
    RegrantQuiet(db, db.grants[id := db.grants[id].(revokedAt := Some(at))]);
    RegrantQuiet(db, db.grants[id := db.grants[id].(unlinkedAt := Some(at))]);
  }

  lemma OutsideQuiet(db: Db, r: Request)
    ensures Quiet(db, OutsideStep(db, r))
  {
    hide QuietEffect, EnsureStep, Unclaimed, Startable, Backfillable, Reprojected;
    ReprofileQuiet(db, db.profiles);
    match r
    case EnsureProfile(_, _, _, _) => EnsureQuiet(db, r);
    case Bind(id, row) => BindQuiet(db, id, row);
    case Revoke(id, at) => if id in db.grants { RevokeQuiet(db, id, at); }
    case Unlink(id, at) => if id in db.grants { RevokeQuiet(db, id, at); }
    case StartBuild(key, identity, at) =>
      ReprofileQuiet(db, db.profiles[key := Profile(identity, Building, at, None, None)]);
    case Backfill(id, key, row) =>
      ReindexQuiet(db, db.embeddings[EmbeddingKey(id, key.generation) := row], db.vectorTables, db.vectors);
    case Project(tables, vectors, rows) => ReindexQuiet(db, Reprojected(db.embeddings, rows), tables, vectors);
    case _ =>
  }

  lemma StepEffect(env: Env, db: Db, r: Request)
    ensures Effect(env, db, r, Step(env, db, r))
  {
    if r.Add? { AddEffect(env, db, r); }
    else if r.Replace? { ReplaceEffect(env, db, r); }
    else if r.Remove? { RemoveEffect(env, db, r); }
    else if r.Restore? { RestoreEffect(env, db, r); }
    else if r.Purge? { PurgeEffect(env, db, r); }
    else if r.Cutover? { CutoverQuiet(db, r); QuietIsEffect(env, db, r, CutoverStep(db, r)); }
    else if r.FailGeneration? { FailQuiet(db, r); QuietIsEffect(env, db, r, FailStep(db, r)); }
    else { OutsideQuiet(db, r); QuietIsEffect(env, db, r, OutsideStep(db, r)); }
  }
}
