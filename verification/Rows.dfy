/** The rows that each committed call leaves behind, column by column, and over whole runs the vector
    that a memory has in each generation. */
module Rows {
  import opened Schema
  import opened Transactions
  import opened Integrity
  import opened Preservation
  import opened Effects
  import opened Answers

  // -------------------------------------------------------------- what is told

  /** `told` lists the live generations of the scope with their provenance. */
  ghost predicate TellsLive(db: Db, owner: string, scope: string, told: map<int, Provenance>) {
    forall g ::
      (g in told <==> Lives(db, owner, scope, g))
      && (g in told && Lives(db, owner, scope, g) ==> told[g] == db.profiles[ProfileKey(owner, scope, g)].provenance)
  }

  lemma LiveIsTold(db: Db, owner: string, scope: string)
    ensures TellsLive(db, owner, scope, LiveProfiles(db.profiles, owner, scope))
  {
    LiveAt(db, owner, scope);
  }

  /** Profiles, grants and every vector table are as before. */
  predicate Elsewhere(db: Db, e: Db) {
    e.profiles == db.profiles && e.grants == db.grants && e.vectorTables == db.vectorTables && e.vectors == db.vectors
    && e.legacyVectors == db.legacyVectors
  }

  /** The event of the call, and the idempotency row that answers its retry. */
  predicate LogsOf(env: Env, db: Db, r: Request, op: Operation, revision: int, scope: string, e: Db)
    requires IsWrite(r) && r.grant in db.grants
  {
    var g := db.grants[r.grant];
    e.events == db.events[EventKey(r.memory, revision) :=
      Event(env.eventId(r.memory, revision, op), g.owner, r.grant, op, r.actor, g.sourceClient, r.at, r.digest)]
    && e.idem == db.idem[IdemKey(r.grant, op, r.key) :=
      IdemRow(g.owner, r.actor, r.memory, scope, r.digest, Some(Receipt(r.memory, revision, r.at)), r.at, None)]
  }

  lemma GrantOf(db: Db, grant: string)
    requires grant in db.grants
    ensures OwnerOf(db, grant) == db.grants[grant].owner && ClientOf(db, grant) == db.grants[grant].sourceClient
  {
  }

  /** The embedding row of the memory in generation `g`. */
  function RowAt(db: Db, id: string, g: int): Option<Embedding> {
    if EmbeddingKey(id, g) in db.embeddings then Some(db.embeddings[EmbeddingKey(id, g)]) else None
  }

  function SessionTold(conversation: Option<string>): string {
    match conversation case Some(c) => c case None => ""
  }

  lemma KeywordRowsAt(words: set<string>, id: string, w: Keyword)
    ensures w in KeywordRows(words, id) <==> w.memory == id && w.keyword in words
  {
    assert w == Keyword(w.keyword, w.memory);
  }

  // ---------------------------------------------------------------------- add

  /** The metadata row: new, at revision 1, of the caller. */
  ghost predicate RowAdded(env: Env, db: Db, r: Request, e: Db)
    requires r.Add? && r.grant in db.grants
  {
    var g := db.grants[r.grant];
    r.memory in e.metadata && TellsLive(db, g.owner, r.scope, e.metadata[r.memory].provenance)
    && e.metadata == db.metadata[r.memory :=
         Metadata(g.owner, r.grant, 1, r.scope, r.kind, r.tags, env.sha256(r.content), g.sourceClient, r.conversation,
                  r.actor, r.at, r.at, None, false, e.metadata[r.memory].provenance)]
  }

  ghost predicate TextsAdded(env: Env, db: Db, r: Request, e: Db)
    requires r.Add?
  {
    e.memories == db.memories[r.memory := Memory(r.content, r.at, SessionTold(r.conversation), r.kind)]
    && (forall w ::
          w in e.keywords <==> w in db.keywords || (w.memory == r.memory && w.keyword in env.keywords(r.content)))
    && e.fts.Keys == db.fts.Keys + {r.memory} && e.fts[r.memory] == Bag(db.fts, r.memory) + multiset{r.content}
  }

  /** A row for each live generation, with the vector given for it. */
  ghost predicate VectorsAdded(env: Env, db: Db, r: Request, e: Db)
    requires r.Add? && r.grant in db.grants
  {
    var owner := db.grants[r.grant].owner;
    forall g ::
      RowAt(e, r.memory, g) ==
      if g in r.blobs && Lives(db, owner, r.scope, g)
      then Some(Embedding(env.embeddingId(r.memory, g), owner, r.scope,
                          db.profiles[ProfileKey(owner, r.scope, g)].provenance, r.blobs[g], None, r.at))
      else RowAt(db, r.memory, g)
  }

  lemma AddVectors(env: Env, db: Db, r: Request)
    requires r.Add? && AddAllowed(env, db, r) && r.grant in db.grants
    ensures VectorsAdded(env, db, r, AddCommit(env, db, r))
  {
    hide LiveProfiles, AddFits, WithEvent, WithReceipt, KeywordRows, CanWrite;
    GrantOf(db, r.grant);
    LiveAt(db, db.grants[r.grant].owner, r.scope);
  }

  lemma AddTexts(env: Env, db: Db, r: Request)
    requires r.Add?
    ensures TextsAdded(env, db, r, AddCommit(env, db, r))
  {
    hide LiveProfiles, WithEvent, WithReceipt, NewEmbeddings;
    forall w ensures w in KeywordRows(env.keywords(r.content), r.memory)
      <==> w.memory == r.memory && w.keyword in env.keywords(r.content)
    {
      KeywordRowsAt(env.keywords(r.content), r.memory, w);
    }
  }

  lemma AddRow(env: Env, db: Db, r: Request)
    requires r.Add? && r.grant in db.grants
    ensures var e := AddCommit(env, db, r);
      Elsewhere(db, e) && LogsOf(env, db, r, OpAdd, 1, r.scope, e) && RowAdded(env, db, r, e)
  {
    hide LiveProfiles, NewEmbeddings, TellsLive;
    GrantOf(db, r.grant);
    LiveIsTold(db, db.grants[r.grant].owner, r.scope);
  }

  /** A committed add writes these rows. */
  lemma AddWrites(env: Env, db: Db, r: Request)
    requires r.Add? && Step(env, db, r).out.Committed?
    ensures r.grant in db.grants
    ensures var e := Step(env, db, r).db;
      RowAdded(env, db, r, e) && TextsAdded(env, db, r, e) && VectorsAdded(env, db, r, e)
      && LogsOf(env, db, r, OpAdd, 1, r.scope, e) && Elsewhere(db, e)
  {
    hide AddCommit, LogsOf, Elsewhere, RowAdded, TextsAdded, VectorsAdded, AddFits, LiveProfiles;
    AddShape(env, db, r);
    AddRow(env, db, r);
    AddTexts(env, db, r);
    AddVectors(env, db, r);
  }

  // ------------------------------------------------------------------ replace

  /** The metadata row: owner, creator and time of creation stay, all else is that of the call. */
  ghost predicate RowReplaced(env: Env, db: Db, r: Request, e: Db)
    requires r.Replace? && r.grant in db.grants && r.memory in db.metadata
  {
    var g, row := db.grants[r.grant], db.metadata[r.memory];
    r.memory in e.metadata && TellsLive(db, g.owner, Target(r), e.metadata[r.memory].provenance)
    && e.metadata == db.metadata[r.memory :=
         Metadata(row.owner, row.creator, r.expected + 1, Target(r), r.kind, r.tags, env.sha256(r.content),
                  g.sourceClient,
                  r.conversation, r.actor, row.createdAt, r.at, None, false, e.metadata[r.memory].provenance)]
  }

  ghost predicate TextsReplaced(env: Env, db: Db, r: Request, e: Db)
    requires r.Replace? && r.memory in db.memories
  {
    e.memories == db.memories[r.memory :=
      Memory(r.content, db.memories[r.memory].timestamp, SessionTold(r.conversation), r.kind)]
    && (forall w ::
          w in e.keywords <==> if w.memory == r.memory then w.keyword in env.keywords(r.content) else w in db.keywords)
    && e.fts == db.fts[r.memory := multiset{r.content}]
  }

  /** In each live generation of the target the row has the vector given for it and no place yet; a row
      that was there keeps its id. Rows of other generations stay as they are. */
  ghost predicate VectorsReplaced(env: Env, db: Db, r: Request, e: Db)
    requires r.Replace? && r.grant in db.grants
  {
    var owner := db.grants[r.grant].owner;
    forall g ::
      RowAt(e, r.memory, g) ==
      if g in r.blobs && Lives(db, owner, Target(r), g) then
        var provenance := db.profiles[ProfileKey(owner, Target(r), g)].provenance;
        match RowAt(db, r.memory, g)
        case Some(row) => Some(Embedding(row.id, row.owner, Target(r), provenance, r.blobs[g], None, r.at))
        case None => Some(Embedding(env.embeddingId(r.memory, g), owner, Target(r), provenance, r.blobs[g], None, r.at))
      else RowAt(db, r.memory, g)
  }

  lemma ReplaceVectors(env: Env, db: Db, r: Request)
    requires r.Replace? && ReplaceAllowed(env, db, r) && r.grant in db.grants
    ensures VectorsReplaced(env, db, r, ReplaceCommit(env, db, r))
  {
    hide LiveProfiles, ReplaceRefusal, WithEvent, WithReceipt, Reindexed, Revised, CanWrite;
    var owner := db.grants[r.grant].owner;
    GrantOf(db, r.grant);
    LiveAt(db, owner, Target(r));
    LiveRowsOnly(env, db, r);
  }

  lemma LiveRowsOnly(env: Env, db: Db, r: Request)
    requires r.Replace? && ReplaceRefusal(env, db, r).None? && r.grant in db.grants
    ensures LiveProfiles(db.profiles, db.grants[r.grant].owner, Target(r)).Keys == r.blobs.Keys
  {
    hide LiveProfiles, ReplaceFits, Projected, Visible;
    GrantOf(db, r.grant);
  }

  lemma ReplaceTexts(env: Env, db: Db, r: Request)
    requires r.Replace? && r.memory in db.metadata && r.memory in db.memories
    ensures TextsReplaced(env, db, r, ReplaceCommit(env, db, r))
  {
    hide LiveProfiles, WithEvent, WithReceipt, Refreshed, NewEmbeddings, Revised;
    forall w ensures w in KeywordRows(env.keywords(r.content), r.memory)
      <==> w.memory == r.memory && w.keyword in env.keywords(r.content)
    {
      KeywordRowsAt(env.keywords(r.content), r.memory, w);
    }
  }

  lemma ReplaceRow(env: Env, db: Db, r: Request)
    requires r.Replace? && ReplaceAllowed(env, db, r) && r.grant in db.grants
    ensures var e := ReplaceCommit(env, db, r);
      Elsewhere(db, e) && LogsOf(env, db, r, OpReplace, r.expected + 1, Target(r), e) && RowReplaced(env, db, r, e)
  {
    hide LiveProfiles, ReplaceFits, Refreshed, NewEmbeddings, Reindexed, CanWrite, TellsLive;
    GrantOf(db, r.grant);
    LiveIsTold(db, db.grants[r.grant].owner, Target(r));
    assert Visible(db, r.grant, r.scope, r.memory, r.expected, false).None?;
  }

  /** A committed replace writes these rows. */
  lemma ReplaceWrites(env: Env, db: Db, r: Request)
    requires r.Replace? && Step(env, db, r).out.Committed?
    ensures r.grant in db.grants && r.memory in db.metadata && r.memory in db.memories
    ensures var e := Step(env, db, r).db;
      RowReplaced(env, db, r, e) && TextsReplaced(env, db, r, e) && VectorsReplaced(env, db, r, e)
      && LogsOf(env, db, r, OpReplace, r.expected + 1, Target(r), e) && Elsewhere(db, e)
  {
    hide ReplaceCommit, LogsOf, Elsewhere, RowReplaced, TextsReplaced, VectorsReplaced, ReplaceRefusal, ReplaceStep,
         CanWrite;
    StepOfReplace(env, db, r);
    ReplaceShape(env, db, r);
    assert MayReach(db, r.grant, Target(r));
    ReplaceRow(env, db, r);
    ReplaceTexts(env, db, r);
    ReplaceVectors(env, db, r);
  }

  lemma StepOfReplace(env: Env, db: Db, r: Request)
    requires r.Replace?
    ensures Step(env, db, r) == ReplaceStep(env, db, r) && TargetScope(r) == Target(r)
  {
    hide ReplaceStep;
  }

  // ------------------------------------------------------- remove and restore

  /** The row is stamped by the call and becomes a tombstone or ceases to be one. */
  predicate RowStamped(db: Db, r: Request, deletedAt: Option<string>, e: Db)
    requires (r.Remove? || r.Restore?) && r.grant in db.grants && r.memory in db.metadata
  {
    var row := db.metadata[r.memory];
    e.metadata == db.metadata[r.memory :=
      Metadata(row.owner, row.creator, r.expected + 1, row.scope, row.kind, row.tags, row.contentHash,
               db.grants[r.grant].sourceClient, row.conversation, r.actor, row.createdAt, r.at, deletedAt,
               row.reindexRequired, row.provenance)]
  }

  /** A committed remove turns the row into a tombstone, files its logs, and touches no other table. */
  lemma RemoveWrites(env: Env, db: Db, r: Request)
    requires r.Remove? && Step(env, db, r).out.Committed?
    ensures r.grant in db.grants && r.memory in db.metadata
    ensures var e := Step(env, db, r).db;
      RowStamped(db, r, Some(r.at), e) && LogsOf(env, db, r, OpRemove, r.expected + 1, r.scope, e) && Elsewhere(db, e)
      && e.memories == db.memories && e.keywords == db.keywords && e.fts == db.fts && e.embeddings == db.embeddings
  {
    hide CanWrite, EventFits;
    RemoveShape(env, db, r);
    GrantOf(db, r.grant);
  }

  /** A committed restore makes the row live again, rebuilds its keywords and its full text from the
      content that the remove had left, and touches no vector. */
  lemma RestoreWrites(env: Env, db: Db, r: Request)
    requires r.Restore? && Step(env, db, r).out.Committed?
    ensures r.grant in db.grants && r.memory in db.metadata && r.memory in db.memories
    ensures var e := Step(env, db, r).db; var content := db.memories[r.memory].content;
      RowStamped(db, r, None, e) && LogsOf(env, db, r, OpRestore, r.expected + 1, r.scope, e) && Elsewhere(db, e)
      && e.memories == db.memories && e.embeddings == db.embeddings && e.fts == db.fts[r.memory := multiset{content}]
      && (forall w ::
            w in e.keywords <==> if w.memory == r.memory then w.keyword in env.keywords(content) else w in db.keywords)
  {
    hide CanAdmin, EventFits, FullyEmbedded, RestoreStep, KeywordRows;
    StepOfRestore(env, db, r);
    RestoreShape(env, db, r);
    GrantOf(db, r.grant);
    var words := env.keywords(db.memories[r.memory].content);
    forall w ensures w in KeywordRows(words, r.memory) <==> w.memory == r.memory && w.keyword in words {
      KeywordRowsAt(words, r.memory, w);
    }
  }

  lemma StepOfRestore(env: Env, db: Db, r: Request)
    requires r.Restore?
    ensures Step(env, db, r) == RestoreStep(env, db, r)
    ensures Step(env, db, r).out.Committed? ==> r.grant in db.grants
  {
    hide Resolve, FullyEmbedded, RestoreCommit, Visible, LogsFit, RowWellFormed;
  }

  // -------------------------------------------------------------------- purge

  /** No table that holds contents, words, vectors or state of memories has a row of the memory. */
  predicate Erased(e: Db, id: string) {
    id !in e.memories && id !in e.metadata && id !in e.fts && id !in e.legacyVectors
    && (forall w | w in e.keywords :: w.memory != id) && (forall k | k in e.embeddings :: k.memory != id)
  }

  /** Every idempotency row of the memory forgets its receipt and its payload and denies for good; the
      others stay, and the purge files a deny row of its own. */
  predicate Scrubs(db: Db, r: Request, e: Db)
    requires r.Purge? && r.grant in db.grants
  {
    var own := IdemKey(r.grant, OpPurge, r.key);
    var owner := db.grants[r.grant].owner;
    e.idem.Keys == db.idem.Keys + {own}
    && (own in e.idem && e.idem[own]
        == IdemRow(owner, r.actor, r.memory, r.scope, r.denyDigest, None, r.at, Some(r.at)))
    && forall k | k in db.idem && k != own ::
      k in e.idem
      && e.idem[k] == if db.idem[k].owner == owner && db.idem[k].memory == r.memory
                      then IdemRow(owner, db.idem[k].actor, r.memory, db.idem[k].scope, r.denyDigest, None,
                                   db.idem[k].createdAt, Some(r.at))
                      else db.idem[k]
  }

  /** A committed purge erases the memory, keeps every row of the others, and leaves only its event. */
  lemma PurgeWrites(env: Env, db: Db, r: Request)
    requires r.Purge? && Step(env, db, r).out.Committed?
    ensures r.grant in db.grants
    ensures var e := Step(env, db, r).db; var g := db.grants[r.grant];
      Erased(e, r.memory) && Scrubs(db, r, e)
      && e.events == db.events[EventKey(r.memory, r.expected + 1) :=
           Event(env.eventId(r.memory, r.expected + 1, OpPurge), g.owner, r.grant, OpPurge, r.actor, g.sourceClient,
                 r.at, r.digest)]
    ensures var e := Step(env, db, r).db;
      e.memories == db.memories - {r.memory} && e.metadata == db.metadata - {r.memory} && e.fts == db.fts - {r.memory}
      && e.legacyVectors == db.legacyVectors - {r.memory}
      && (forall w | w in db.keywords && w.memory != r.memory :: w in e.keywords)
      && (forall k | k in db.embeddings && k.memory != r.memory ::
            k in e.embeddings && e.embeddings[k] == db.embeddings[k])
      && e.keywords <= db.keywords && e.embeddings.Keys <= db.embeddings.Keys && e.profiles == db.profiles
      && e.grants == db.grants && e.vectorTables == db.vectorTables
  {
    hide CanAdmin, PurgeStep, PurgedVectors, LogsFit, VectorsDeletable;
    StepOfPurge(env, db, r);
    PurgeShape(env, db, r);
    GrantOf(db, r.grant);
  }

  lemma StepOfPurge(env: Env, db: Db, r: Request)
    requires r.Purge?
    ensures Step(env, db, r) == PurgeStep(env, db, r)
    ensures Step(env, db, r).out.Committed? ==> r.grant in db.grants && IdemKey(r.grant, OpPurge, r.key) !in db.idem
  {
    hide VectorsDeletable, PurgeCommit, PurgeWellFormed;
  }

  // ---------------------------------------------------- vectors over whole runs

  datatype Stored = Stored(blob: Blob, at: string)

  /** The vector of a memory in a generation, and when it was stored. */
  function StoredAt(db: Db, k: EmbeddingKey): Option<Stored> {
    if k in db.embeddings then Some(Stored(db.embeddings[k].blob, db.embeddings[k].createdAt)) else None
  }

  /** What one call makes of it, told from the call and its outcome: a committed add or replace that gives
      a vector for the generation stores it, a backfill stores its own, a purge of the memory or the
      failure of the generation in its scope drops it, and every other call leaves it alone. */
  function StoredNext(db: Db, r: Request, out: Outcome, k: EmbeddingKey, before: Option<Stored>): Option<Stored> {
    if out.Committed? && (r.Add? || r.Replace?) && r.memory == k.memory && k.generation in r.blobs
    then Some(Stored(r.blobs[k.generation], r.at))
    else if out.Committed? && r.Purge? && r.memory == k.memory then None
    else if out.Applied? && r.Backfill? && r.memory == k.memory && r.profile.generation == k.generation
    then Some(Stored(r.row.blob, r.row.createdAt))
    else if out.Applied? && r.FailGeneration? && r.building == k.generation && k.memory in db.metadata
            && r.grant in db.grants && db.metadata[k.memory].owner == db.grants[r.grant].owner
            && db.metadata[k.memory].scope == r.scope
    then None
    else before
  }

  function StoredTold(env: Env, db: Db, rs: seq<Request>, k: EmbeddingKey, before: Option<Stored>): Option<Stored>
    decreases |rs|
  {
    if rs == [] then before
    else
      var reply := Step(env, db, rs[0]);
      StoredTold(env, reply.db, rs[1..], k, StoredNext(db, rs[0], reply.out, k, before))
  }

  lemma AddStores(env: Env, db: Db, r: Request, k: EmbeddingKey)
    requires r.Add? && Step(env, db, r).out.Committed?
    ensures StoredAt(Step(env, db, r).db, k) == StoredNext(db, r, Step(env, db, r).out, k, StoredAt(db, k))
  {
    hide Step, RowAdded, TextsAdded, LogsOf, Elsewhere, Lives, Effect;
    AddWrites(env, db, r);
    AddGivesLive(env, db, r);
    var e := Step(env, db, r).db;
    if k.memory == r.memory {
      assert k == EmbeddingKey(r.memory, k.generation)
          && RowAt(e, r.memory, k.generation) == RowAt(e, r.memory, k.generation);
    } else {
      OthersKeepVectors(env, db, r, k);
    }
  }

  lemma AddGivesLive(env: Env, db: Db, r: Request)
    requires r.Add? && Step(env, db, r).out.Committed? && r.grant in db.grants
    ensures forall g | g in r.blobs :: Lives(db, db.grants[r.grant].owner, r.scope, g)
  {
    hide Step, Lives, Entitled, GoodAdd, KeyFiled, AddRoom, Filed;
    AddAnswers(env, db, r);
  }

  lemma OthersKeepVectors(env: Env, db: Db, r: Request, k: EmbeddingKey)
    requires IsWrite(r) && Step(env, db, r).out.Committed? && k.memory != r.memory
    ensures StoredAt(Step(env, db, r).db, k) == StoredAt(db, k)
  {
    hide Step, Appends, Files, Moves, Stores, Resolve;
    StepEffect(env, db, r);
    SameEmbedding(Step(env, db, r).db.embeddings, db.embeddings, r.memory, k);
  }

  lemma ReplaceStores(env: Env, db: Db, r: Request, k: EmbeddingKey)
    requires r.Replace? && Step(env, db, r).out.Committed?
    ensures StoredAt(Step(env, db, r).db, k) == StoredNext(db, r, Step(env, db, r).out, k, StoredAt(db, k))
  {
    hide Step, RowReplaced, TextsReplaced, LogsOf, Elsewhere, Lives, Effect;
    ReplaceWrites(env, db, r);
    ReplaceGivesLive(env, db, r);
    var e := Step(env, db, r).db;
    if k.memory == r.memory {
      assert k == EmbeddingKey(r.memory, k.generation)
          && RowAt(e, r.memory, k.generation) == RowAt(e, r.memory, k.generation);
    } else {
      OthersKeepVectors(env, db, r, k);
    }
  }

  lemma ReplaceGivesLive(env: Env, db: Db, r: Request)
    requires r.Replace? && Step(env, db, r).out.Committed? && r.grant in db.grants
    ensures forall g | g in r.blobs :: Lives(db, db.grants[r.grant].owner, Target(r), g)
  {
    hide Step, Lives, Entitled, GoodReplace, KeyFiled, ReplaceRoom, AlikeScopes, HasPlace, Stands, Filed;
    ReplaceAnswers(env, db, r);
  }

  lemma OtherWriteStores(env: Env, db: Db, r: Request, k: EmbeddingKey)
    requires IsWrite(r) && !r.Add? && !r.Replace? && Step(env, db, r).out.Committed?
    ensures StoredAt(Step(env, db, r).db, k) == StoredNext(db, r, Step(env, db, r).out, k, StoredAt(db, k))
  {
    hide Step, RowStamped, LogsOf, Elsewhere, Scrubs;
    if r.Remove? { RemoveWrites(env, db, r); }
    else if r.Restore? { RestoreWrites(env, db, r); }
    else { PurgeWrites(env, db, r); }
  }

  /** Failing a generation takes the rows of its scope: those of the memories that lie in it. */
  lemma FailStores(env: Env, db: Db, r: Request, k: EmbeddingKey)
    requires r.FailGeneration? && Step(env, db, r).out.Applied? && EmbeddingKeysHold(db)
    ensures StoredAt(Step(env, db, r).db, k) == StoredNext(db, r, Step(env, db, r).out, k, StoredAt(db, k))
  {
    hide AddStep, ReplaceStep, RemoveStep, RestoreStep, PurgeStep, CutoverStep, OutsideStep, Droppable,
         ActiveGenerations;
    GrantOf(db, r.grant);
  }

  lemma QuietStores(env: Env, db: Db, r: Request, k: EmbeddingKey)
    requires !IsWrite(r) && !(r.FailGeneration? && Step(env, db, r).out.Applied?)
    ensures StoredAt(Step(env, db, r).db, k) == StoredNext(db, r, Step(env, db, r).out, k, StoredAt(db, k))
  {
    hide CutoverStep, FailStep, OutsideStep;
    if r.Cutover? { CutoverKeepsRows(db, r); }
    if r.FailGeneration? { UnfailedKeepsRows(db, r); }
    if !r.Cutover? && !r.FailGeneration? { OutsideStores(db, r, k); }
  }

  lemma CutoverKeepsRows(db: Db, r: Request)
    requires r.Cutover?
    ensures KeepsRows(db, CutoverStep(db, r).db)
  {
    hide KeepsRows, CanAdmin, InParity, ActiveGenerations, CutoverWellFormed, Switched, OwnerOf;
    var owner := OwnerOf(db, r.grant);
    var former, later := ProfileKey(owner, r.scope, r.expected), ProfileKey(owner, r.scope, r.building);
    ReprofileKeepsRows(db, Switched(db.profiles, former, later, r.at));
  }

  lemma UnfailedKeepsRows(db: Db, r: Request)
    requires r.FailGeneration?
    ensures !FailStep(db, r).out.Applied? ==> FailStep(db, r).db == db
  {
    hide CanAdmin, MayFail, Droppable, FailCommit;
  }

  lemma OutsideStores(db: Db, r: Request, k: EmbeddingKey)
    requires !IsWrite(r) && !r.Cutover? && !r.FailGeneration?
    ensures var reply := OutsideStep(db, r); StoredAt(reply.db, k) == StoredNext(db, r, reply.out, k, StoredAt(db, k))
  {
    hide OutsideStep, Reprojected;
    if r.Backfill? { BackfillAdds(db, r); }
    else if r.Project? { ProjectKeeps(db, r, k); }
    else { OutsideKeepsRows(db, r); }
  }

  lemma BackfillAdds(db: Db, r: Request)
    requires r.Backfill?
    ensures var reply := OutsideStep(db, r);
      reply.db.embeddings
        == if reply.out.Applied? then db.embeddings[EmbeddingKey(r.memory, r.profile.generation) := r.row]
           else db.embeddings
  {
    hide Backfillable;
  }

  lemma ProjectKeeps(db: Db, r: Request, k: EmbeddingKey)
    requires r.Project?
    ensures StoredAt(OutsideStep(db, r).db, k) == StoredAt(db, k)
  {
    hide Reprojected;
    ReprojectedKeeps(db.embeddings, r.rows, k);
  }

  predicate KeepsRows(db: Db, e: Db) { e.embeddings == db.embeddings }

  lemma ReprofileKeepsRows(db: Db, profiles: map<ProfileKey, Profile>)
    ensures KeepsRows(db, db) && KeepsRows(db, db.(profiles := profiles))
  {
  }

  lemma RegrantKeepsRows(db: Db, grants: map<string, Grant>)
    ensures KeepsRows(db, db.(grants := grants))
  {
  }

  lemma OutsideKeepsRows(db: Db, r: Request)
    requires !IsWrite(r) && !r.Cutover? && !r.FailGeneration? && !r.Backfill? && !r.Project?
    ensures KeepsRows(db, OutsideStep(db, r).db)
  {
    hide KeepsRows, EnsureStep, Unclaimed, Startable;
    ReprofileKeepsRows(db, db.profiles);
    match r
    case EnsureProfile(_, _, _, _) => EnsureKeepsRows(db, r);
    case Bind(id, row) => RegrantKeepsRows(db, db.grants[id := row]);
    case Revoke(id, at) =>
      if id in db.grants { RegrantKeepsRows(db, db.grants[id := db.grants[id].(revokedAt := Some(at))]); }
    case Unlink(id, at) =>
      if id in db.grants { RegrantKeepsRows(db, db.grants[id := db.grants[id].(unlinkedAt := Some(at))]); }
    case StartBuild(key, identity, at) =>
      ReprofileKeepsRows(db, db.profiles[key := Profile(identity, Building, at, None, None)]);
    case _ =>
  }

  lemma ReprojectedKeeps(rows: map<EmbeddingKey, Embedding>, places: map<EmbeddingKey, Option<int>>, k: EmbeddingKey)
    ensures k in Reprojected(rows, places) <==> k in rows
    ensures k in rows ==> Reprojected(rows, places)[k] == rows[k].(vectorRow := Reprojected(rows, places)[k].vectorRow)
  {
  }

  lemma EnsureKeepsRows(db: Db, r: Request)
    requires r.EnsureProfile?
    ensures KeepsRows(db, EnsureStep(db, r).db)
  {
    hide KeepsRows, LiveProfiles;
    var first := ProfileKey(r.owner, r.scope, DEFAULT_GENERATION);
    ReprofileKeepsRows(db, db.profiles[first := Profile(r.identity, Active, r.at, Some(r.at), None)]);
  }

  /** Over every run, a memory's vector in each generation is the one of the last call that stored it:
      the last committed add or replace that gave one for the generation, or the backfill. */
  lemma {:induction false} RunStores(env: Env, db: Db, rs: seq<Request>, k: EmbeddingKey)
    requires Inv(env, db)
    ensures StoredAt(Run(env, db, rs), k) == StoredTold(env, db, rs, k, StoredAt(db, k))
    decreases |rs|
  {
    hide Step, StoredAt, StoredNext, AllSound, Effect, OneToOne, CreatorsExist;
    if rs != [] {
      var r, reply := rs[0], Step(env, db, rs[0]);
      StepKeepsInv(env, db, r);
      StepStores(env, db, r, k);
      RunStores(env, reply.db, rs[1..], k);
    }
  }

  lemma StepStores(env: Env, db: Db, r: Request, k: EmbeddingKey)
    requires EmbeddingKeysHold(db)
    ensures StoredAt(Step(env, db, r).db, k) == StoredNext(db, r, Step(env, db, r).out, k, StoredAt(db, k))
  {
    hide Step, StoredAt, EmbeddingKeysHold, WriteEffect, QuietEffect;
    if IsWrite(r) {
      StepEffect(env, db, r);
      if Step(env, db, r).out.Committed? {
        if r.Add? { AddStores(env, db, r, k); }
        else if r.Replace? { ReplaceStores(env, db, r, k); }
        else { OtherWriteStores(env, db, r, k); }
      }
    } else if r.FailGeneration? && Step(env, db, r).out.Applied? {
      FailStores(env, db, r, k);
    } else {
      QuietStores(env, db, r, k);
    }
  }
}
