/** The repository as the code runs it: one statement after the other on the tables of an open
    transaction, each of which may meet a constraint or an exception. Commit makes the tables of the
    transaction those of the database; anything else drops them. */
module Repository {
  import opened Sets
  import opened Schema
  import opened Transactions
  import opened Integrity
  import opened Preservation
  import opened SelfCheck
  import opened Maintenance

  /** The seams at which the code lets a test raise inside a transaction. */
  datatype Stage =
    | NoFault
    | MemoryStage | KeywordStage | FtsStage | MetadataStage | EmbeddingStage | EventStage | IdempotencyStage
    | VectorStage | RetiredStage | ActivatedStage

  function After(e: Option<Error>, fault: Stage, stage: Stage): Option<Error> {
    if e.None? && fault == stage then Some(Interrupted) else e
  }

  /** What a sequence of statements may report: a constraint only if one is violated, an
      exception only if one was injected. */
  predicate Explained(e: Option<Error>, fits: bool, fault: Stage) {
    (e.None? ==> fits)
    && (e.Some? ==>
          (e.value == ConstraintFailed && !fits) || (e.value == Interrupted && fault != NoFault))
  }

  lemma OneMore(env: Env, rows: map<EmbeddingKey, Embedding>, id: string, owner: string, scope: string,
                live: map<int, Provenance>, blobs: map<int, Blob>, at: string, done: set<int>, g: int)
    ensures rows + NewEmbeddings(env, id, owner, scope, live, blobs, at, done + {g})
         == (rows + NewEmbeddings(env, id, owner, scope, live, blobs, at, done))
              [EmbeddingKey(id, g) := NewEmbedding(env, id, owner, scope, live, blobs, at, g)]
  {
  }

  lemma OneMoreFits(env: Env, rows: map<EmbeddingKey, Embedding>, id: string, owner: string, scope: string,
                    live: map<int, Provenance>, blobs: map<int, Blob>, at: string, done: set<int>, g: int)
    requires EmbeddingsFit(env, rows, id, done) && g !in done
    ensures var present := rows + NewEmbeddings(env, id, owner, scope, live, blobs, at, done);
      EmbeddingsFit(env, rows, id, done + {g})
      <==> EmbeddingKey(id, g) !in present && EmbeddingIdFree(present, env.embeddingId(id, g))
  {
    var extra := NewEmbeddings(env, id, owner, scope, live, blobs, at, done);
    var present := rows + extra;
    forall h | h in done
      ensures EmbeddingKey(id, h) in present && present[EmbeddingKey(id, h)].id == env.embeddingId(id, h)
    {
      assert EmbeddingKey(id, h) in extra;
    }
    forall k | k in present && k !in rows
      ensures k.generation in done && present[k].id == env.embeddingId(id, k.generation)
    {
      assert k in extra;
    }
    assert forall k | k in rows :: k !in extra && present[k] == rows[k];
  }

  lemma FewerFit(env: Env, rows: map<EmbeddingKey, Embedding>, id: string, few: set<int>, all: set<int>)
    requires few <= all && EmbeddingsFit(env, rows, id, all)
    ensures EmbeddingsFit(env, rows, id, few)
  {
  }

  // -------------------------------------------------------------- statements

  method InsertKeywords(rows: set<Keyword>, words: set<string>, id: string)
    returns (after: set<Keyword>, e: Option<Error>)
    ensures Explained(e, KeywordRows(words, id) !! rows, NoFault)
    ensures e.None? ==> after == rows + KeywordRows(words, id)
  {
    after := rows;
    var todo := words;
    while todo != {}
      invariant todo <= words
      invariant after == rows + KeywordRows(words - todo, id)
      invariant KeywordRows(words - todo, id) !! rows
      decreases |todo|
    {
      var w :| w in todo;
      if Keyword(w, id) in after {
        assert Keyword(w, id) in KeywordRows(words, id);
        return after, Some(ConstraintFailed);
      }
      after := after + {Keyword(w, id)};
      todo := todo - {w};
    }
    e := None;
  }

  method InsertEmbeddings(env: Env, rows: map<EmbeddingKey, Embedding>, id: string, owner: string, scope: string,
                          live: map<int, Provenance>, blobs: map<int, Blob>, at: string, generations: set<int>)
    returns (after: map<EmbeddingKey, Embedding>, e: Option<Error>)
    ensures Explained(e, EmbeddingsFit(env, rows, id, generations), NoFault)
    ensures e.None? ==> after == rows + NewEmbeddings(env, id, owner, scope, live, blobs, at, generations)
  {
    after := rows;
    var todo, done := generations, {};
    while todo != {}
      invariant todo !! done && todo + done == generations
      invariant after == rows + NewEmbeddings(env, id, owner, scope, live, blobs, at, done)
      invariant EmbeddingsFit(env, rows, id, done)
      decreases |todo|
    {
      SomeNumber(todo);
      var g :| g in todo;
      OneMore(env, rows, id, owner, scope, live, blobs, at, done, g);
      OneMoreFits(env, rows, id, owner, scope, live, blobs, at, done, g);
      if EmbeddingKey(id, g) in after || !EmbeddingIdFree(after, env.embeddingId(id, g)) {
        if EmbeddingsFit(env, rows, id, generations) { FewerFit(env, rows, id, done + {g}, generations); }
        return after, Some(ConstraintFailed);
      }
      after := after[EmbeddingKey(id, g) := NewEmbedding(env, id, owner, scope, live, blobs, at, g)];
      todo, done := todo - {g}, done + {g};
    }
    e := None;
  }

  method InsertLogs(env: Env, db: Db, grant: string, id: string, revision: int, op: Operation, actor: string,
                    at: string, digest: string, key: string, scope: string, fault: Stage)
    returns (events: map<EventKey, Event>, idem: map<IdemKey, IdemRow>, e: Option<Error>)
    ensures Explained(e, LogsFit(env, db, grant, id, revision, op, key), fault)
    ensures e.None? ==> events == WithEvent(env, db, grant, id, revision, op, actor, at, digest)
    ensures e.None? ==> idem == WithReceipt(db, grant, op, key, actor, scope, digest, Receipt(id, revision, at))
  {
    events, idem, e := db.events, db.idem, None;
    if !EventFits(env, events, id, revision, op) { return events, idem, Some(ConstraintFailed); }
    events := events[EventKey(id, revision) :=
      Event(env.eventId(id, revision, op), OwnerOf(db, grant), grant, op, actor, ClientOf(db, grant), at, digest)];
    if fault == EventStage { return events, idem, Some(Interrupted); }
    if IdemKey(grant, op, key) in idem { return events, idem, Some(ConstraintFailed); }
    idem := idem[IdemKey(grant, op, key) :=
      IdemRow(OwnerOf(db, grant), actor, id, scope, digest, Some(Receipt(id, revision, at)), at, None)];
    if fault == IdempotencyStage { return events, idem, Some(Interrupted); }
  }

  // --------------------------------------------------------------------- add

  method InsertAll(env: Env, db: Db, r: Request, fault: Stage) returns (work: Db, e: Option<Error>)
    requires r.Add? && LiveProfiles(db.profiles, OwnerOf(db, r.grant), r.scope).Keys == r.blobs.Keys
    ensures Explained(e, AddFits(env, db, r), fault)
    ensures e.None? ==> work == AddCommit(env, db, r)
  {
    hide LogsFit, NewEmbeddings, EmbeddingsFit, KeywordRows, WithEvent, WithReceipt, LiveProfiles;
    work := db;
    var owner := OwnerOf(db, r.grant);
    var live := LiveProfiles(db.profiles, owner, r.scope);
    if r.memory in db.memories { return work, Some(ConstraintFailed); }
    var memories := db.memories[r.memory := Memory(r.content, r.at, SessionOf(r.conversation), r.kind)];
    if fault == MemoryStage { return work, Some(Interrupted); }

    var keywords;
    keywords, e := InsertKeywords(db.keywords, env.keywords(r.content), r.memory);
    e := After(e, fault, KeywordStage);
    if e.Some? { return; }

    var fts := db.fts[r.memory := Bag(db.fts, r.memory) + multiset{r.content}];
    if fault == FtsStage { return work, Some(Interrupted); }

    var metadata := db.metadata[r.memory :=
      Metadata(owner, r.grant, 1, r.scope, r.kind, r.tags, env.sha256(r.content), ClientOf(db, r.grant),
               r.conversation, r.actor, r.at, r.at, None, false, live)];
    if fault == MetadataStage { return work, Some(Interrupted); }

    var embeddings;
    embeddings, e := InsertEmbeddings(env, db.embeddings, r.memory, owner, r.scope, live, r.blobs, r.at, live.Keys);
    e := After(e, fault, EmbeddingStage);
    if e.Some? { return; }

    var events, idem;
    events, idem, e := InsertLogs(env, db, r.grant, r.memory, 1, OpAdd, r.actor, r.at, r.digest, r.key, r.scope, fault);
    if e.Some? { return; }
    work := db.(memories := memories, keywords := keywords, fts := fts, metadata := metadata,
                embeddings := embeddings, events := events, idem := idem);
  }

  // ----------------------------------------------------------------- replace

  function Only(live: map<int, Provenance>, some: set<int>): map<int, Provenance> {
    map g | g in live && g in some :: live[g]
  }

  /** The embedding rows of a replace after the generations `done`. */
  function Replaced(env: Env, rows: map<EmbeddingKey, Embedding>, id: string, owner: string, target: string,
                    live: map<int, Provenance>, blobs: map<int, Blob>, at: string,
                    done: set<int>): map<EmbeddingKey, Embedding>
  {
    Refreshed(rows, id, target, Only(live, done), blobs, at)
    + NewEmbeddings(env, id, owner, target, live, blobs, at, Fresh(rows, id, done))
  }

  function Update(row: Embedding, scope: string, provenance: Provenance, blob: Blob, at: string): Embedding {
    row.(scope := scope, provenance := provenance, blob := blob, vectorRow := None, createdAt := at)
  }

  lemma RefreshOneMore(rows: map<EmbeddingKey, Embedding>, id: string, target: string, live: map<int, Provenance>,
                       blobs: map<int, Blob>, at: string, done: set<int>, g: int)
    requires g in live && g in blobs && g !in done
    ensures var k := EmbeddingKey(id, g); var before := Refreshed(rows, id, target, Only(live, done), blobs, at);
      (k in before <==> k in rows) && (k in rows ==> before[k] == rows[k])
      && Refreshed(rows, id, target, Only(live, done + {g}), blobs, at)
         == if k in rows then before[k := Update(rows[k], target, live[g], blobs[g], at)] else before
  {
  }

  lemma FreshOneMore(rows: map<EmbeddingKey, Embedding>, id: string, done: set<int>, g: int)
    ensures Fresh(rows, id, done + {g})
         == if EmbeddingKey(id, g) in rows then Fresh(rows, id, done) else Fresh(rows, id, done) + {g}
  {
  }

  lemma UpdateLeft(left: map<EmbeddingKey, Embedding>, right: map<EmbeddingKey, Embedding>, k: EmbeddingKey,
                   row: Embedding)
    requires k !in right
    ensures left[k := row] + right == (left + right)[k := row]
  {
  }

  lemma ReplaceOneMore(env: Env, rows: map<EmbeddingKey, Embedding>, id: string, owner: string, target: string,
                       live: map<int, Provenance>, blobs: map<int, Blob>, at: string, done: set<int>, g: int)
    requires g in live && g in blobs && g !in done && done <= live.Keys
    ensures var k := EmbeddingKey(id, g);
      var before := Replaced(env, rows, id, owner, target, live, blobs, at, done);
      (k in before <==> k in rows) && (k in rows ==> before[k] == rows[k])
      && Replaced(env, rows, id, owner, target, live, blobs, at, done + {g})
         == before[k := if k in rows then Update(rows[k], target, live[g], blobs[g], at)
                        else NewEmbedding(env, id, owner, target, live, blobs, at, g)]
  {
    var k := EmbeddingKey(id, g);
    var left := Refreshed(rows, id, target, Only(live, done), blobs, at);
    var right := NewEmbeddings(env, id, owner, target, live, blobs, at, Fresh(rows, id, done));
    RefreshOneMore(rows, id, target, live, blobs, at, done, g);
    FreshOneMore(rows, id, done, g);
    if k in rows {
      UpdateLeft(left, right, k, Update(rows[k], target, live[g], blobs[g], at));
    } else {
      OneMore(env, left, id, owner, target, live, blobs, at, Fresh(rows, id, done), g);
    }
  }

  lemma ReplaceIdsKept(env: Env, rows: map<EmbeddingKey, Embedding>, id: string, owner: string, target: string,
                       live: map<int, Provenance>, blobs: map<int, Blob>, at: string, done: set<int>, name: string)
    ensures var before := Replaced(env, rows, id, owner, target, live, blobs, at, done);
      EmbeddingIdFree(before, name) <==>
        EmbeddingIdFree(rows, name) && forall h | h in Fresh(rows, id, done) :: env.embeddingId(id, h) != name
  {
    var extra := NewEmbeddings(env, id, owner, target, live, blobs, at, Fresh(rows, id, done));
    var before := Replaced(env, rows, id, owner, target, live, blobs, at, done);
    forall k | k in rows ensures k in before && before[k].id == rows[k].id {
      assert k !in extra;
    }
    forall h | h in Fresh(rows, id, done)
      ensures EmbeddingKey(id, h) in before && before[EmbeddingKey(id, h)].id == env.embeddingId(id, h)
    {
      assert EmbeddingKey(id, h) in extra;
    }
  }

  lemma ReplaceFitsOneMore(env: Env, rows: map<EmbeddingKey, Embedding>, id: string, done: set<int>, g: int)
    requires EmbeddingsFit(env, rows, id, Fresh(rows, id, done)) && g !in done
    ensures EmbeddingsFit(env, rows, id, Fresh(rows, id, done + {g})) <==>
      (EmbeddingKey(id, g) in rows
       || (EmbeddingIdFree(rows, env.embeddingId(id, g))
           && forall h | h in Fresh(rows, id, done) :: env.embeddingId(id, h) != env.embeddingId(id, g)))
  {
    if EmbeddingKey(id, g) in rows {
      assert Fresh(rows, id, done + {g}) == Fresh(rows, id, done);
    } else {
      assert g in Fresh(rows, id, done + {g});
      assert Fresh(rows, id, done + {g}) == Fresh(rows, id, done) + {g};
    }
  }

  /** The UPDATE of one generation, or the INSERT if it hit no row. */
  method RefreshOne(env: Env, ghost rows: map<EmbeddingKey, Embedding>, present: map<EmbeddingKey, Embedding>,
                    id: string, owner: string, source: string, target: string, live: map<int, Provenance>,
                    blobs: map<int, Blob>, at: string, ghost done: set<int>, g: int)
    returns (after: map<EmbeddingKey, Embedding>, e: Option<Error>)
    requires g in live && g in blobs && g !in done && done <= live.Keys
    requires forall k | k in rows && k.memory == id :: rows[k].owner == owner && rows[k].scope == source
    requires present == Replaced(env, rows, id, owner, target, live, blobs, at, done)
    requires EmbeddingsFit(env, rows, id, Fresh(rows, id, done))
    ensures Explained(e, EmbeddingsFit(env, rows, id, Fresh(rows, id, done + {g})), NoFault)
    ensures e.None? ==> after == Replaced(env, rows, id, owner, target, live, blobs, at, done + {g})
  {
    var k := EmbeddingKey(id, g);
    ReplaceOneMore(env, rows, id, owner, target, live, blobs, at, done, g);
    ReplaceIdsKept(env, rows, id, owner, target, live, blobs, at, done, env.embeddingId(id, g));
    ReplaceFitsOneMore(env, rows, id, done, g);
    after, e := present, None;
    if k in present && present[k].owner == owner && present[k].scope == source {
      after := present[k := Update(present[k], target, live[g], blobs[g], at)];
    } else if k in present || !EmbeddingIdFree(present, env.embeddingId(id, g)) {
      e := Some(ConstraintFailed);
    } else {
      after := present[k := NewEmbedding(env, id, owner, target, live, blobs, at, g)];
    }
  }

  lemma FewerFreshFit(env: Env, rows: map<EmbeddingKey, Embedding>, id: string, few: set<int>, all: set<int>)
    requires few <= all
    ensures EmbeddingsFit(env, rows, id, Fresh(rows, id, all)) ==> EmbeddingsFit(env, rows, id, Fresh(rows, id, few))
  {
    if EmbeddingsFit(env, rows, id, Fresh(rows, id, all)) {
      FewerFit(env, rows, id, Fresh(rows, id, few), Fresh(rows, id, all));
    }
  }

  lemma ReplacedEnds(env: Env, rows: map<EmbeddingKey, Embedding>, id: string, owner: string, target: string,
                     live: map<int, Provenance>, blobs: map<int, Blob>, at: string)
    ensures Replaced(env, rows, id, owner, target, live, blobs, at, {}) == rows
    ensures Replaced(env, rows, id, owner, target, live, blobs, at, live.Keys)
         == Refreshed(rows, id, target, live, blobs, at)
            + NewEmbeddings(env, id, owner, target, live, blobs, at, Fresh(rows, id, live.Keys))
    ensures EmbeddingsFit(env, rows, id, Fresh(rows, id, {}))
  {
    assert Only(live, live.Keys) == live;
  }

  /** How far the loop of a replace has come. */
  predicate Halfway(env: Env, rows: map<EmbeddingKey, Embedding>, after: map<EmbeddingKey, Embedding>, id: string,
                    owner: string, target: string, live: map<int, Provenance>, blobs: map<int, Blob>, at: string,
                    done: set<int>)
  {
    after == Replaced(env, rows, id, owner, target, live, blobs, at, done)
      && EmbeddingsFit(env, rows, id, Fresh(rows, id, done))
  }

  method RefreshNext(env: Env, ghost rows: map<EmbeddingKey, Embedding>, present: map<EmbeddingKey, Embedding>,
                     id: string, owner: string, source: string, target: string, live: map<int, Provenance>,
                     blobs: map<int, Blob>, at: string, todo: set<int>)
    returns (after: map<EmbeddingKey, Embedding>, e: Option<Error>, left: set<int>)
    requires live.Keys == blobs.Keys && {} < todo <= live.Keys
    requires forall k | k in rows && k.memory == id :: rows[k].owner == owner && rows[k].scope == source
    requires Halfway(env, rows, present, id, owner, target, live, blobs, at, live.Keys - todo)
    ensures Explained(e, e.None? || EmbeddingsFit(env, rows, id, Fresh(rows, id, live.Keys)), NoFault)
    ensures e.None? ==> left < todo && Halfway(env, rows, after, id, owner, target, live, blobs, at, live.Keys - left)
  {
    SomeNumber(todo);
    var g :| g in todo;
    ghost var done := live.Keys - todo;
    after, e := RefreshOne(env, rows, present, id, owner, source, target, live, blobs, at, done, g);
    left := todo - {g};
    assert live.Keys - left == done + {g};
    FewerFreshFit(env, rows, id, done + {g}, live.Keys);
  }

  method RefreshEmbeddings(env: Env, rows: map<EmbeddingKey, Embedding>, id: string, owner: string, source: string,
                           target: string, live: map<int, Provenance>, blobs: map<int, Blob>, at: string)
    returns (after: map<EmbeddingKey, Embedding>, e: Option<Error>)
    requires live.Keys == blobs.Keys
    requires forall k | k in rows && k.memory == id :: rows[k].owner == owner && rows[k].scope == source
    ensures Explained(e, EmbeddingsFit(env, rows, id, Fresh(rows, id, live.Keys)), NoFault)
    ensures e.None? ==> Halfway(env, rows, after, id, owner, target, live, blobs, at, live.Keys)
  {
    after := rows;
    var todo := live.Keys;
    ReplacedEnds(env, rows, id, owner, target, live, blobs, at);
    assert live.Keys - todo == {};
    while todo != {}
      invariant todo <= live.Keys
      invariant Halfway(env, rows, after, id, owner, target, live, blobs, at, live.Keys - todo)
      decreases todo
    {
      after, e, todo := RefreshNext(env, rows, after, id, owner, source, target, live, blobs, at, todo);
      if e.Some? { return; }
    }
    assert live.Keys - todo == live.Keys;
    e := None;
  }

  /** The metadata row of a memory and its embedding rows lie where the transaction looks for them. */
  predicate AtHome(db: Db, id: string, owner: string, scope: string) {
    id in db.metadata && db.metadata[id].owner == owner && db.metadata[id].scope == scope
    && forall k | k in db.embeddings && k.memory == id ::
      db.embeddings[k].owner == owner && db.embeddings[k].scope == scope
  }

  /** DELETE FROM keywords, then INSERT of the new ones. */
  method ReindexKeywords(rows: set<Keyword>, words: set<string>, id: string)
    returns (after: set<Keyword>, e: Option<Error>)
    ensures e.None? && after == Reindexed(rows, id, words)
  {
    after, e := InsertKeywords(OtherKeywords(rows, id), words, id);
  }

  /** DELETE FROM memories_fts, then INSERT of the new row. */
  method ReindexText(fts: map<string, multiset<string>>, id: string, content: string)
    returns (after: map<string, multiset<string>>)
    ensures after == fts[id := multiset{content}]
  {
    after := fts - {id};
    assert Bag(after, id) + multiset{content} == multiset{content};
    after := after[id := Bag(after, id) + multiset{content}];
  }

  method ReplaceContent(env: Env, db: Db, r: Request, fault: Stage)
    returns (memories: map<string, Memory>, keywords: set<Keyword>, fts: map<string, multiset<string>>,
             metadata: map<string, Metadata>, interrupted: bool)
    requires r.Replace? && r.memory in db.memories && r.memory in db.metadata
    ensures interrupted ==> fault != NoFault
    ensures !interrupted ==> var commit := ReplaceCommit(env, db, r);
      memories == commit.memories && keywords == commit.keywords && fts == commit.fts && metadata == commit.metadata
  {
    memories, keywords, fts, metadata, interrupted := db.memories, db.keywords, db.fts, db.metadata, true;
    memories := memories[r.memory :=
      memories[r.memory].(content := r.content, session := SessionOf(r.conversation), tag := r.kind)];
    if fault == MemoryStage { return; }
    var e;
    keywords, e := ReindexKeywords(keywords, env.keywords(r.content), r.memory);
    if fault == KeywordStage { return; }
    fts := ReindexText(fts, r.memory, r.content);
    if fault == FtsStage { return; }
    metadata := metadata[r.memory := Revised(env, metadata[r.memory], r, ClientOf(db, r.grant),
                                             LiveProfiles(db.profiles, OwnerOf(db, r.grant), TargetScope(r)))];
    interrupted := fault == MetadataStage;
  }

  /** The foreign key of the embeddings on (memory, owner, scope), checked at COMMIT after a move. */
  predicate NoneLeftBehind(rows: map<EmbeddingKey, Embedding>, id: string, target: string) {
    forall k | k in rows && k.memory == id :: rows[k].scope == target
  }

  lemma MovedMeansRefreshed(env: Env, rows: map<EmbeddingKey, Embedding>, id: string, owner: string, source: string,
                            target: string, live: map<int, Provenance>, blobs: map<int, Blob>, at: string)
    requires live.Keys == blobs.Keys
    requires forall k | k in rows && k.memory == id :: rows[k].scope == source
    ensures NoneLeftBehind(Replaced(env, rows, id, owner, target, live, blobs, at, live.Keys), id, target)
      <==> (target != source ==> OnlyIn(rows, id, blobs.Keys))
  {
    ReplacedEnds(env, rows, id, owner, target, live, blobs, at);
    var left := Refreshed(rows, id, target, live, blobs, at);
    var right := NewEmbeddings(env, id, owner, target, live, blobs, at, Fresh(rows, id, live.Keys));
    var after := left + right;
    forall k | k in rows && k.memory == id
      ensures k in after && (after[k].scope == target <==> k.generation in blobs || target == source)
    {
      assert k !in right;
    }
  }

  method ReplaceEmbeddings(env: Env, rows: map<EmbeddingKey, Embedding>, id: string, owner: string, source: string,
                           target: string, live: map<int, Provenance>, blobs: map<int, Blob>, at: string)
    returns (after: map<EmbeddingKey, Embedding>, left: bool, e: Option<Error>)
    requires live.Keys == blobs.Keys
    requires forall k | k in rows && k.memory == id :: rows[k].owner == owner && rows[k].scope == source
    ensures Explained(e, EmbeddingsFit(env, rows, id, Fresh(rows, id, blobs.Keys)), NoFault)
    ensures e.None? ==>
      after == Refreshed(rows, id, target, live, blobs, at)
               + NewEmbeddings(env, id, owner, target, live, blobs, at, Fresh(rows, id, live.Keys))
      && (left <==> target != source && !OnlyIn(rows, id, blobs.Keys))
  {
    after, e := RefreshEmbeddings(env, rows, id, owner, source, target, live, blobs, at);
    ReplacedEnds(env, rows, id, owner, target, live, blobs, at);
    MovedMeansRefreshed(env, rows, id, owner, source, target, live, blobs, at);
    left := !NoneLeftBehind(after, id, target);
  }

  method ReplaceIndexAndLogs(env: Env, db: Db, grant: string, id: string, revision: int, actor: string, at: string,
                             digest: string, key: string, source: string, target: string, live: map<int, Provenance>,
                             blobs: map<int, Blob>, fault: Stage)
    returns (embeddings: map<EmbeddingKey, Embedding>, events: map<EventKey, Event>, idem: map<IdemKey, IdemRow>,
             e: Option<Error>)
    requires live.Keys == blobs.Keys && AtHome(db, id, OwnerOf(db, grant), source)
    ensures Explained(e, RowsFit(env, db, grant, id, revision, key, target != source, blobs.Keys), fault)
    ensures e.None? ==>
      embeddings == Refreshed(db.embeddings, id, target, live, blobs, at)
        + NewEmbeddings(env, id, OwnerOf(db, grant), target, live, blobs, at, Fresh(db.embeddings, id, live.Keys))
      && events == WithEvent(env, db, grant, id, revision, OpReplace, actor, at, digest)
      && idem == WithReceipt(db, grant, OpReplace, key, actor, target, digest, Receipt(id, revision, at))
  {
    events, idem := db.events, db.idem;
    var left;
    embeddings, left, e :=
      ReplaceEmbeddings(env, db.embeddings, id, OwnerOf(db, grant), source, target, live, blobs, at);
    e := After(e, fault, EmbeddingStage);
    if e.Some? { return; }
    events, idem, e := InsertLogs(env, db, grant, id, revision, OpReplace, actor, at, digest, key, target, fault);
    if e.None? && left { e := Some(ConstraintFailed); }
  }

  method ReplaceRest(env: Env, db: Db, r: Request, fault: Stage)
    returns (embeddings: map<EmbeddingKey, Embedding>, events: map<EventKey, Event>, idem: map<IdemKey, IdemRow>,
             e: Option<Error>)
    requires r.Replace? && r.memory in db.memories && AtHome(db, r.memory, OwnerOf(db, r.grant), r.scope)
    requires LiveProfiles(db.profiles, OwnerOf(db, r.grant), TargetScope(r)).Keys == r.blobs.Keys
    ensures Explained(e, ReplaceFits(env, db, r), fault)
    ensures e.None? ==> var commit := ReplaceCommit(env, db, r);
      embeddings == commit.embeddings && events == commit.events && idem == commit.idem
  {
    hide RowsFit, Refreshed, NewEmbeddings, WithEvent, WithReceipt, LiveProfiles, Revised, Reindexed, Fresh;
    var live := LiveProfiles(db.profiles, OwnerOf(db, r.grant), TargetScope(r));
    embeddings, events, idem, e :=
      ReplaceIndexAndLogs(env, db, r.grant, r.memory, r.expected + 1, r.actor, r.at, r.digest,
                                                       r.key, r.scope, TargetScope(r), live, r.blobs, fault);
  }

  method ReplaceAll(env: Env, db: Db, r: Request, fault: Stage) returns (work: Db, e: Option<Error>)
    requires r.Replace? && r.memory in db.memories && AtHome(db, r.memory, OwnerOf(db, r.grant), r.scope)
    requires LiveProfiles(db.profiles, OwnerOf(db, r.grant), TargetScope(r)).Keys == r.blobs.Keys
    ensures Explained(e, ReplaceFits(env, db, r), fault)
    ensures e.None? ==> work == ReplaceCommit(env, db, r)
  {
    work := db;
    var memories, keywords, fts, metadata, interrupted;
    memories, keywords, fts, metadata, interrupted := ReplaceContent(env, db, r, fault);
    if interrupted { return work, Some(Interrupted); }
    var embeddings, events, idem;
    embeddings, events, idem, e := ReplaceRest(env, db, r, fault);
    work := db.(memories := memories, keywords := keywords, fts := fts, metadata := metadata,
                embeddings := embeddings, events := events, idem := idem);
  }

  // ------------------------------------------------------- remove and restore

  method RemoveAll(env: Env, db: Db, r: Request, fault: Stage) returns (work: Db, e: Option<Error>)
    requires r.Remove? && r.memory in db.metadata
    ensures Explained(e, LogsFit(env, db, r.grant, r.memory, r.expected + 1, OpRemove, r.key), fault)
    ensures e.None? ==> work == RemoveCommit(env, db, r)
  {
    work := db.(metadata := db.metadata[r.memory := db.metadata[r.memory].(
      revision := r.expected + 1, sourceClient := ClientOf(db, r.grant), actor := r.actor,
      updatedAt := r.at, deletedAt := Some(r.at))]);
    if fault == MetadataStage { return work, Some(Interrupted); }
    var events, idem;
    events, idem, e := InsertLogs(env, work, r.grant, r.memory, r.expected + 1, OpRemove, r.actor, r.at, r.digest,
                                  r.key, r.scope, fault);
    if e.Some? { return; }
    work := work.(events := events, idem := idem);
  }

  method RestoreAll(env: Env, db: Db, r: Request, fault: Stage) returns (work: Db, e: Option<Error>)
    requires r.Restore? && r.memory in db.metadata && r.memory in db.memories
    ensures Explained(e, LogsFit(env, db, r.grant, r.memory, r.expected + 1, OpRestore, r.key), fault)
    ensures e.None? ==> work == RestoreCommit(env, db, r)
  {
    work := db;
    var content := db.memories[r.memory].content;
    var keywords, fts;
    keywords, e := ReindexKeywords(db.keywords, env.keywords(content), r.memory);
    if fault == KeywordStage { e := Some(Interrupted); return; }
    fts := ReindexText(db.fts, r.memory, content);
    if fault == FtsStage { e := Some(Interrupted); return; }

    var metadata := db.metadata[r.memory := db.metadata[r.memory].(
      revision := r.expected + 1, sourceClient := ClientOf(db, r.grant), actor := r.actor,
      updatedAt := r.at, deletedAt := None)];
    if fault == MetadataStage { e := Some(Interrupted); return; }

    var events, idem;
    events, idem, e := InsertLogs(env, db, r.grant, r.memory, r.expected + 1, OpRestore, r.actor, r.at, r.digest,
                                  r.key, r.scope, fault);
    if e.Some? { return; }
    work := db.(keywords := keywords, fts := fts, metadata := metadata, events := events, idem := idem);
  }

  // ------------------------------------------------------------------- purge

  /** The embedding rows of a memory whose generation has a registered vector table. */
  function Linked(rows: map<EmbeddingKey, Embedding>, tables: map<ProfileKey, string>, id: string): set<EmbeddingKey> {
    set k | k in rows && k.memory == id && ProfileOf(rows, k) in tables
  }

  function Physical(rows: map<EmbeddingKey, Embedding>, tables: map<ProfileKey, string>, keys: set<EmbeddingKey>,
                    table: string): set<int> {
    set k | k in keys && k in rows && ProfileOf(rows, k) in tables && tables[ProfileOf(rows, k)] == table
      && rows[k].vectorRow.Some?
      :: rows[k].vectorRow.value
  }

  function VectorsWithout(rows: map<EmbeddingKey, Embedding>, tables: map<ProfileKey, string>,
                          vectors: map<string, set<int>>, keys: set<EmbeddingKey>): map<string, set<int>>
  {
    map t | t in vectors :: vectors[t] - Physical(rows, tables, keys, t)
  }

  lemma PhysicalOneMore(rows: map<EmbeddingKey, Embedding>, tables: map<ProfileKey, string>, keys: set<EmbeddingKey>,
                        k: EmbeddingKey, table: string)
    requires k in rows && ProfileOf(rows, k) in tables && rows[k].vectorRow.Some?
    ensures Physical(rows, tables, keys + {k}, table)
         == if tables[ProfileOf(rows, k)] == table
            then Physical(rows, tables, keys, table) + {rows[k].vectorRow.value}
              else Physical(rows, tables, keys, table)
  {
  }

  lemma WithoutOneMore(rows: map<EmbeddingKey, Embedding>, tables: map<ProfileKey, string>,
                       vectors: map<string, set<int>>, keys: set<EmbeddingKey>, k: EmbeddingKey)
    requires k in rows && ProfileOf(rows, k) in tables && rows[k].vectorRow.Some?
      && tables[ProfileOf(rows, k)] in vectors
    ensures var t := tables[ProfileOf(rows, k)]; var before := VectorsWithout(rows, tables, vectors, keys);
      VectorsWithout(rows, tables, vectors, keys + {k}) == before[t := before[t] - {rows[k].vectorRow.value}]
  {
    var t := tables[ProfileOf(rows, k)];
    var before := VectorsWithout(rows, tables, vectors, keys);
    forall u | u in vectors
      ensures VectorsWithout(rows, tables, vectors, keys + {k})[u]
           == before[t := before[t] - {rows[k].vectorRow.value}][u]
    {
      PhysicalOneMore(rows, tables, keys, k, u);
    }
  }

  lemma PurgedIsWithout(db: Db, id: string)
    ensures PurgedVectors(db, id)
      == VectorsWithout(db.embeddings, db.vectorTables, db.vectors, Linked(db.embeddings, db.vectorTables, id))
  {
    forall t | t in db.vectors
      ensures PurgedVectors(db, id)[t]
        == db.vectors[t] - Physical(db.embeddings, db.vectorTables, Linked(db.embeddings, db.vectorTables, id), t)
    {
    }
  }

  predicate Deletable(rows: map<EmbeddingKey, Embedding>, tables: map<ProfileKey, string>,
                      vectors: map<string, set<int>>, k: EmbeddingKey)
    requires k in rows && ProfileOf(rows, k) in tables
  {
    rows[k].vectorRow.Some? && tables[ProfileOf(rows, k)] in vectors
  }

  method DeleteVectors(rows: map<EmbeddingKey, Embedding>, tables: map<ProfileKey, string>,
                       vectors: map<string, set<int>>, id: string)
    returns (after: map<string, set<int>>, e: Option<Error>)
    ensures e.None? <==> forall k | k in Linked(rows, tables, id) :: Deletable(rows, tables, vectors, k)
    ensures e.Some? ==> e.value == RuntimeFailure
    ensures e.None? ==> after == VectorsWithout(rows, tables, vectors, Linked(rows, tables, id))
  {
    var todo, done := Linked(rows, tables, id), {};
    after := vectors;
    assert forall t | t in vectors :: Physical(rows, tables, done, t) == {};
    assert forall t | t in vectors :: VectorsWithout(rows, tables, vectors, done)[t] == vectors[t];
    while todo != {}
      invariant todo !! done && todo + done == Linked(rows, tables, id)
      invariant after == VectorsWithout(rows, tables, vectors, done)
      invariant forall k | k in done :: Deletable(rows, tables, vectors, k)
      decreases todo
    {
      var k :| k in todo;
      if rows[k].vectorRow.None? || tables[ProfileOf(rows, k)] !in after {
        return after, Some(RuntimeFailure);
      }
      WithoutOneMore(rows, tables, vectors, done, k);
      after := after[tables[ProfileOf(rows, k)] := after[tables[ProfileOf(rows, k)]] - {rows[k].vectorRow.value}];
      todo, done := todo - {k}, done + {k};
    }
    e := None;
  }

  /** What the statements of a purge may report. */
  predicate PurgeExplained(e: Option<Error>, logs: bool, deletable: bool, fault: Stage) {
    (e.None? ==> logs && deletable)
    && (e.Some? ==> (e.value == ConstraintFailed && !logs) || (e.value == RuntimeFailure && logs && !deletable)
                    || (e.value == Interrupted && fault != NoFault))
  }

  method PurgeLogs(env: Env, db: Db, r: Request, fault: Stage)
    returns (events: map<EventKey, Event>, idem: map<IdemKey, IdemRow>, e: Option<Error>)
    requires r.Purge?
    ensures Explained(e, LogsFit(env, db, r.grant, r.memory, r.expected + 1, OpPurge, r.key), fault)
    ensures e.None? ==> var commit := PurgeCommit(env, db, r);
      events == commit.events && idem == commit.idem
  {
    var owner := OwnerOf(db, r.grant);
    events, idem, e := db.events, db.idem, None;
    if !EventFits(env, events, r.memory, r.expected + 1, OpPurge) { return events, idem, Some(ConstraintFailed); }
    events := events[EventKey(r.memory, r.expected + 1) :=
      Event(env.eventId(r.memory, r.expected + 1, OpPurge), owner, r.grant, OpPurge, r.actor, ClientOf(db, r.grant),
            r.at, r.digest)];
    if fault == EventStage { return events, idem, Some(Interrupted); }
    if IdemKey(r.grant, OpPurge, r.key) in idem { return events, idem, Some(ConstraintFailed); }
    idem :=
      idem[IdemKey(r.grant, OpPurge, r.key) := IdemRow(owner, r.actor, r.memory, r.scope, r.denyDigest, None, r.at,
                                                       Some(r.at))];
    idem := Scrubbed(idem, owner, r.memory, r.denyDigest, r.at);
    if fault == IdempotencyStage { return events, idem, Some(Interrupted); }
  }

  /** DELETE FROM memory_embeddings WHERE memory_id, owner_id and scope match. */
  function Unembedded(rows: map<EmbeddingKey, Embedding>, id: string, owner: string,
                      scope: string): map<EmbeddingKey, Embedding> {
    map k | k in rows && !(k.memory == id && rows[k].owner == owner && rows[k].scope == scope) :: rows[k]
  }

  lemma NoneElsewhere(rows: map<EmbeddingKey, Embedding>, id: string, owner: string, scope: string)
    requires forall k | k in rows && k.memory == id :: rows[k].owner == owner && rows[k].scope == scope
    ensures Unembedded(rows, id, owner, scope) == OtherEmbeddings(rows, id)
  {
  }

  lemma AllDeletable(db: Db, id: string)
    ensures VectorsDeletable(db, id) <==>
      forall k | k in Linked(db.embeddings, db.vectorTables, id) ::
        Deletable(db.embeddings, db.vectorTables, db.vectors, k)
  {
    forall k ensures k in Linked(db.embeddings, db.vectorTables, id)
      <==> k in db.embeddings && k.memory == id && ProfileOf(db.embeddings, k) in db.vectorTables {
    }
  }

  method PurgeVectors(env: Env, db: Db, r: Request, fault: Stage)
    returns (vectors: map<string, set<int>>, legacyVectors: set<string>, embeddings: map<EmbeddingKey, Embedding>,
             e: Option<Error>)
    requires r.Purge? && AtHome(db, r.memory, OwnerOf(db, r.grant), r.scope)
    ensures PurgeExplained(e, true, VectorsDeletable(db, r.memory), fault)
    ensures e.None? ==> var commit := PurgeCommit(env, db, r);
      vectors == commit.vectors && legacyVectors == commit.legacyVectors && embeddings == commit.embeddings
  {
    legacyVectors, embeddings := db.legacyVectors, db.embeddings;
    AllDeletable(db, r.memory);
    PurgedIsWithout(db, r.memory);
    NoneElsewhere(db.embeddings, r.memory, OwnerOf(db, r.grant), r.scope);
    hide VectorsDeletable, Deletable, Linked, VectorsWithout, PurgedVectors, Unembedded, OtherEmbeddings, OtherKeywords,
         Scrubbed, WithEvent;
    vectors, e := DeleteVectors(db.embeddings, db.vectorTables, db.vectors, r.memory);
    e := After(e, fault, VectorStage);
    if e.Some? { return; }
    legacyVectors := legacyVectors - {r.memory};
    embeddings := Unembedded(embeddings, r.memory, OwnerOf(db, r.grant), r.scope);
    e := After(e, fault, EmbeddingStage);
  }

  method PurgeAll(env: Env, db: Db, r: Request, fault: Stage) returns (work: Db, e: Option<Error>)
    requires r.Purge? && AtHome(db, r.memory, OwnerOf(db, r.grant), r.scope) && r.memory in db.memories
    ensures PurgeExplained(e, LogsFit(env, db, r.grant, r.memory, r.expected + 1, OpPurge, r.key),
                           VectorsDeletable(db, r.memory), fault)
    ensures e.None? ==> work == PurgeCommit(env, db, r)
  {
    work := db;
    hide LogsFit, VectorsDeletable, PurgedVectors, OtherEmbeddings, OtherKeywords, Scrubbed, WithEvent, AtHome;
    var events, idem, vectors, legacyVectors, embeddings;
    events, idem, e := PurgeLogs(env, db, r, fault);
    if e.Some? { return; }
    vectors, legacyVectors, embeddings, e := PurgeVectors(env, db, r, fault);
    if e.Some? { return; }
    var keywords := OtherKeywords(db.keywords, r.memory);
    e := After(e, fault, KeywordStage);
    if e.Some? { return; }
    var fts := db.fts - {r.memory};
    e := After(e, fault, FtsStage);
    if e.Some? { return; }
    var metadata := db.metadata - {r.memory};
    e := After(e, fault, MetadataStage);
    if e.Some? { return; }
    var memories := db.memories - {r.memory};
    e := After(e, fault, MemoryStage);
    if e.Some? { return; }
    work := db.(memories := memories, keywords := keywords, fts := fts, metadata := metadata, embeddings := embeddings,
                vectors := vectors, legacyVectors := legacyVectors, events := events, idem := idem);
  }

  // ------------------------------------------------------------------ cutover

  /** UPDATE embedding_profiles SET status = RETIRED of the ACTIVE generation. */
  function Retire(profiles: map<ProfileKey, Profile>, k: ProfileKey, at: string): map<ProfileKey, Profile>
    requires k in profiles
  {
    profiles[k := profiles[k].(status := Retired, retiredAt := Some(at))]
  }

  function Activate(profiles: map<ProfileKey, Profile>, k: ProfileKey, at: string): map<ProfileKey, Profile>
    requires k in profiles
  {
    profiles[k := profiles[k].(status := Active, activatedAt := Some(at), retiredAt := None)]
  }

  /** The partial unique index on (owner, scope) of ACTIVE profiles accepts `k`. */
  predicate IndexAccepts(profiles: map<ProfileKey, Profile>, k: ProfileKey) {
    ActiveGenerations(profiles, k.owner, k.scope) <= {k.generation}
  }

  lemma RetiredLeavesNone(profiles: map<ProfileKey, Profile>, k: ProfileKey, at: string)
    requires k in profiles && ActiveGenerations(profiles, k.owner, k.scope) == {k.generation}
    ensures ActiveGenerations(Retire(profiles, k, at), k.owner, k.scope) == {}
  {
    var after := Retire(profiles, k, at);
    forall j | j in after && j.owner == k.owner && j.scope == k.scope ensures after[j].status != Active {
      assert profiles[j].status == Active ==> j.generation in ActiveGenerations(profiles, k.owner, k.scope);
    }
  }

  lemma TwoUpdatesSwitch(profiles: map<ProfileKey, Profile>, active: ProfileKey, building: ProfileKey, at: string)
    requires active in profiles && building in profiles && active != building
    ensures Activate(Retire(profiles, active, at), building, at) == Switched(profiles, active, building, at)
  {
  }

  method CutoverAll(db: Db, owner: string, r: Request, fault: Stage) returns (work: Db, e: Option<Error>)
    requires r.Cutover? && r.expected != r.building
    requires ActiveGenerations(db.profiles, owner, r.scope) == {r.expected}
    requires ProfileKey(owner, r.scope, r.building) in db.profiles
    ensures Explained(e, true, fault)
    ensures e.None? ==> work == CutoverCommit(db, owner, r)
  {
    work := db;
    var active, building := ProfileKey(owner, r.scope, r.expected), ProfileKey(owner, r.scope, r.building);
    ActiveProfile(db.profiles, owner, r.scope, r.expected);
    RetiredLeavesNone(db.profiles, active, r.at);
    TwoUpdatesSwitch(db.profiles, active, building, r.at);
    hide ActiveGenerations, Switched;
    var profiles := Retire(db.profiles, active, r.at);
    if fault == RetiredStage { return work, Some(Interrupted); }
    e := if IndexAccepts(profiles, building) then None else Some(ConstraintFailed);
    profiles := Activate(profiles, building, r.at);
    e := After(e, fault, ActivatedStage);
    work := db.(profiles := profiles);
  }

  // -------------------------------------------------------------- the object

  /** One call on the tables `before` ends as its transaction does, or an injected exception
      ends it with nothing changed. */
  predicate Transacted(before: Db, after: Db, out: Outcome, spec: Reply, fault: Stage) {
    Reply(after, out) == spec || (fault != NoFault && after == before && out == Rejected(Interrupted))
  }

  predicate Homes(db: Db, id: string) {
    id in db.metadata ==> AtHome(db, id, db.metadata[id].owner, db.metadata[id].scope) && id in db.memories
  }

  lemma RowsAreAtHome(env: Env, db: Db, id: string)
    requires Inv(env, db)
    ensures Homes(db, id)
  {
  }

  // ------------------------------------------------------- whole transactions

  method RunAdd(env: Env, db: Db, r: Request, fault: Stage) returns (after: Db, out: Outcome)
    requires r.Add?
    ensures Transacted(db, after, out, AddStep(env, db, r), fault)
  {
    hide AddCommit, AddFits, AddWellFormed, CanWrite, Resolve, LiveProfiles, OwnerOf;
    if !AddWellFormed(r) { return db, Rejected(InvalidArgument); }
    if !CanWrite(db, r.grant, r.scope) { return db, Rejected(NotAuthorized); }
    var found := Resolve(db, r.grant, r.scope, OpAdd, r.key, r.digest, r.pick);
    if found.Deny? { return db, Rejected(found.error); }
    if found.Replay? { return db, Replayed(found.receipt); }
    if r.memory in db.metadata { return db, Rejected(NotAuthorized); }
    if LiveProfiles(db.profiles, OwnerOf(db, r.grant), r.scope).Keys != r.blobs.Keys {
      return db, Rejected(InvalidArgument);
    }
    var work, e := InsertAll(env, db, r, fault);
    if e.Some? { return db, Rejected(e.value); }
    return work, Committed(Receipt(r.memory, 1, r.at));
  }

  method RunReplace(env: Env, db: Db, r: Request, fault: Stage) returns (after: Db, out: Outcome)
    requires r.Replace? && Homes(db, r.memory)
    ensures Transacted(db, after, out, ReplaceStep(env, db, r), fault)
  {
    hide ReplaceCommit, ReplaceFits, AtHome, Resolve, Projected, LiveProfiles, ReplaceWellFormed, CanWrite, MayReach,
         OwnerOf, TargetScope;
    if !ReplaceWellFormed(r) { return db, Rejected(InvalidArgument); }
    if !(CanWrite(db, r.grant, r.scope) && MayReach(db, r.grant, TargetScope(r))) {
      return db, Rejected(NotAuthorized);
    }
    var found := Resolve(db, r.grant, r.scope, OpReplace, r.key, r.digest, r.pick);
    if found.Deny? { return db, Rejected(found.error); }
    if found.Replay? { return db, Replayed(found.receipt); }
    var unseen := Visible(db, r.grant, r.scope, r.memory, r.expected, false);
    if unseen.Some? { return db, Rejected(unseen.value); }
    var owner := OwnerOf(db, r.grant);
    var live := LiveProfiles(db.profiles, owner, TargetScope(r));
    if TargetScope(r) != r.scope {
      if LiveProfiles(db.profiles, owner, r.scope) != live { return db, Rejected(InvalidArgument); }
      if Projected(db.embeddings, r.memory, owner, r.scope) { return db, Rejected(RuntimeFailure); }
    }
    if live.Keys != r.blobs.Keys { return db, Rejected(InvalidArgument); }
    var work, e := ReplaceAll(env, db, r, fault);
    if e.Some? { return db, Rejected(e.value); }
    return work, Committed(Receipt(r.memory, r.expected + 1, r.at));
  }

  method RunRemove(env: Env, db: Db, r: Request, fault: Stage) returns (after: Db, out: Outcome)
    requires r.Remove?
    ensures Transacted(db, after, out, RemoveStep(env, db, r), fault)
  {
    hide RemoveCommit, LogsFit, Resolve, RowWellFormed, CanWrite, OwnerOf;
    if !RowWellFormed(r) { return db, Rejected(InvalidArgument); }
    if !CanWrite(db, r.grant, r.scope) { return db, Rejected(NotAuthorized); }
    var found := Resolve(db, r.grant, r.scope, OpRemove, r.key, r.digest, r.pick);
    if found.Deny? { return db, Rejected(found.error); }
    if found.Replay? { return db, Replayed(found.receipt); }
    var unseen := Visible(db, r.grant, r.scope, r.memory, r.expected, false);
    if unseen.Some? { return db, Rejected(unseen.value); }
    var work, e := RemoveAll(env, db, r, fault);
    if e.Some? { return db, Rejected(e.value); }
    return work, Committed(Receipt(r.memory, r.expected + 1, r.at));
  }

  method RunRestore(env: Env, db: Db, r: Request, fault: Stage) returns (after: Db, out: Outcome)
    requires r.Restore?
    ensures Transacted(db, after, out, RestoreStep(env, db, r), fault)
  {
    hide RestoreCommit, LogsFit, Resolve, FullyEmbedded, RowWellFormed, CanAdmin, OwnerOf;
    if !RowWellFormed(r) { return db, Rejected(InvalidArgument); }
    if !CanAdmin(db, r.grant, r.scope) { return db, Rejected(NotAuthorized); }
    var found := Resolve(db, r.grant, r.scope, OpRestore, r.key, r.digest, r.pick);
    if found.Deny? { return db, Rejected(found.error); }
    if found.Replay? { return db, Replayed(found.receipt); }
    if r.memory !in db.memories { return db, Rejected(NotAuthorized); }
    var unseen := Visible(db, r.grant, r.scope, r.memory, r.expected, true);
    if unseen.Some? { return db, Rejected(unseen.value); }
    if !FullyEmbedded(db, r.memory, OwnerOf(db, r.grant), r.scope) { return db, Rejected(InvalidArgument); }
    var work, e := RestoreAll(env, db, r, fault);
    if e.Some? { return db, Rejected(e.value); }
    return work, Committed(Receipt(r.memory, r.expected + 1, r.at));
  }

  method RunPurge(env: Env, db: Db, r: Request, fault: Stage) returns (after: Db, out: Outcome)
    requires r.Purge? && Homes(db, r.memory)
    ensures Transacted(db, after, out, PurgeStep(env, db, r), fault)
  {
    hide PurgeCommit, LogsFit, VectorsDeletable, AtHome, PurgeWellFormed, CanAdmin, OwnerOf;
    if !PurgeWellFormed(r) { return db, Rejected(InvalidArgument); }
    if !CanAdmin(db, r.grant, r.scope) { return db, Rejected(NotAuthorized); }
    if !(r.memory in db.metadata && db.metadata[r.memory].owner == OwnerOf(db, r.grant)
         && db.metadata[r.memory].scope == r.scope) { return db, Rejected(NotAuthorized); }
    if db.metadata[r.memory].revision != r.expected {
      return db, Rejected(RevisionConflict(db.metadata[r.memory].revision));
    }
    var work, e := PurgeAll(env, db, r, fault);
    if e.Some? { return db, Rejected(e.value); }
    return work, Committed(Receipt(r.memory, r.expected + 1, r.at));
  }

  method RunCutover(env: Env, db: Db, r: Request, fault: Stage) returns (after: Db, out: Outcome)
    requires r.Cutover?
    ensures Transacted(db, after, out, CutoverStep(db, r), fault)
  {
    hide CutoverCommit, InParity, ActiveGenerations, CanAdmin, OwnerOf;
    var owner := OwnerOf(db, r.grant);
    var building := ProfileKey(owner, r.scope, r.building);
    if !CutoverWellFormed(r) { return db, Rejected(InvalidArgument); }
    if !CanAdmin(db, r.grant, r.scope) { return db, Rejected(NotAuthorized); }
    if !(ActiveGenerations(db.profiles, owner, r.scope) == {r.expected}
         && building in db.profiles && db.profiles[building].status == Building) { return db, Rejected(NotAuthorized); }
    if !InParity(db, owner, r.scope, r.expected, r.building) { return db, Rejected(RuntimeFailure); }
    var work, e := CutoverAll(db, owner, r, fault);
    if e.Some? { return db, Rejected(e.value); }
    return work, Applied;
  }

  // ------------------------------------------------------ failing a generation

  predicate Raises(trouble: Trouble, at: Point) { trouble == Raise(at) }
  predicate Crashes(trouble: Trouble, at: Point) { trouble == Crash(at) }

  /** How the statements between BEGIN and COMMIT end. */
  datatype Course = Done | Threw(error: Error) | Stopped

  function Hit(trouble: Trouble, at: Point): Course {
    if Crashes(trouble, at) then Stopped else if Raises(trouble, at) then Threw(Interrupted) else Done
  }

  /** The statements of the maintenance transaction, up to its COMMIT. */
  method CleanupStatements(db: Db, r: Request, trouble: Trouble) returns (work: Db, course: Course)
    requires r.FailGeneration? && (trouble.Nothing? || trouble.at != AfterSwitch)
    ensures var key := ProfileKey(OwnerOf(db, r.grant), r.scope, r.building);
      if trouble == Crash(AtLoad) then course == Stopped
      else if trouble == Raise(AtLoad) then course == Threw(Interrupted)
      else if !MayFail(db, r) then course == Threw(NotAuthorized)
      else if !Droppable(db, key) then course == Threw(RuntimeFailure)
      else if trouble.Crash? && BeforeCommit(trouble.at) then course == Stopped
      else if trouble.Raise? && BeforeCommit(trouble.at) then course == Threw(Interrupted)
      else course == Done && work == FailCommit(db, key, r.at)
  {
    work := db;
    course := Hit(trouble, AtLoad);
    if course != Done { return; }
    if !MayFail(db, r) { return work, Threw(NotAuthorized); }
    var key := ProfileKey(OwnerOf(db, r.grant), r.scope, r.building);
    if !Droppable(db, key) { return work, Threw(RuntimeFailure); }
    hide OwnerOf, Droppable, CanAdmin, ActiveGenerations;

    var vectors := if key in db.vectorTables then db.vectors - {db.vectorTables[key]} else db.vectors;
    course := Hit(trouble, AfterTable);
    if course != Done { return; }
    var embeddings := map k | k in db.embeddings && ProfileOf(db.embeddings, k) != key :: db.embeddings[k];
    course := Hit(trouble, AfterRows);
    if course != Done { return; }
    var vectorTables := db.vectorTables - {key};
    course := Hit(trouble, AfterRegistry);
    if course != Done { return; }
    var profiles := db.profiles[key := db.profiles[key].(status := Failed, retiredAt := Some(r.at))];
    course := Hit(trouble, AfterProfile);
    if course != Done { return; }
    course := Hit(trouble, AtCommit);
    work := db.(vectors := vectors, embeddings := embeddings, vectorTables := vectorTables, profiles := profiles);
  }

  class MemoryRepository {
    const env: Env
    var db: Db
    var journal: Journal

    ghost predicate Valid()
      reads this
    {
      Inv(env, db)
    }

    constructor (env: Env, db: Db, journal: Journal)
      requires Inv(env, db)
      ensures Valid() && this.env == env && this.db == db && this.journal == journal
    {
      this.env, this.db, this.journal := env, db, journal;
    }

    method AddMemory(r: Request, fault: Stage) returns (out: Outcome)
      requires Valid() && r.Add?
      modifies this`db
      ensures Valid()
      ensures Transacted(old(db), db, out, AddStep(env, old(db), r), fault)
    {
      AddStepKeepsInv(env, db, r);
      hide *;
      var after;
      after, out := RunAdd(env, db, r, fault);
      db := after;
    }

    method ReplaceMemory(r: Request, fault: Stage) returns (out: Outcome)
      requires Valid() && r.Replace?
      modifies this`db
      ensures Valid()
      ensures Transacted(old(db), db, out, ReplaceStep(env, old(db), r), fault)
    {
      ReplaceStepKeepsInv(env, db, r);
      RowsAreAtHome(env, db, r.memory);
      hide *;
      var after;
      after, out := RunReplace(env, db, r, fault);
      db := after;
    }

    method RemoveMemory(r: Request, fault: Stage) returns (out: Outcome)
      requires Valid() && r.Remove?
      modifies this`db
      ensures Valid()
      ensures Transacted(old(db), db, out, RemoveStep(env, old(db), r), fault)
    {
      RemoveStepKeepsInv(env, db, r);
      hide *;
      var after;
      after, out := RunRemove(env, db, r, fault);
      db := after;
    }

    method RestoreMemory(r: Request, fault: Stage) returns (out: Outcome)
      requires Valid() && r.Restore?
      modifies this`db
      ensures Valid()
      ensures Transacted(old(db), db, out, RestoreStep(env, old(db), r), fault)
    {
      RestoreStepKeepsInv(env, db, r);
      hide *;
      var after;
      after, out := RunRestore(env, db, r, fault);
      db := after;
    }

    method PurgeMemory(r: Request, fault: Stage) returns (out: Outcome)
      requires Valid() && r.Purge?
      modifies this`db
      ensures Valid()
      ensures Transacted(old(db), db, out, PurgeStep(env, old(db), r), fault)
    {
      PurgeStepKeepsInv(env, db, r);
      RowsAreAtHome(env, db, r.memory);
      hide *;
      var after;
      after, out := RunPurge(env, db, r, fault);
      db := after;
    }

    method CutoverEmbeddingGeneration(r: Request, fault: Stage) returns (out: Outcome)
      requires Valid() && r.Cutover?
      modifies this`db
      ensures Valid()
      ensures Transacted(old(db), db, out, CutoverStep(old(db), r), fault)
    {
      CutoverStepKeepsInv(env, db, r);
      hide *;
      var after;
      after, out := RunCutover(env, db, r, fault);
      db := after;
    }

    /** The switch out of WAL mode, the cleanup and the switch back, on one maintenance connection. */
    method RunMaintenance(r: Request, trouble: Trouble, fate: Fate) returns (end: End)
      requires r.FailGeneration?
      modifies this
      ensures Report(Disk(db, journal), end) == Maintain(old(db), r, trouble, fate)
    {
      journal := Rollback;
      if Crashes(trouble, AfterSwitch) { return Crashed; }
      if Raises(trouble, AfterSwitch) { return Raised(Interrupted); }
      var flag := false;
      var work, course := CleanupStatements(db, r, trouble);
      hide OwnerOf, Droppable, MayFail, FailCommit;
      if course.Stopped? { return Crashed; }
      if course.Done? {
        db := work;
        course := Hit(trouble, AfterCommit);
        if course.Stopped? { return Crashed; }
        flag := course.Done?;
      }
      match fate
      case RestoreCrashes => end := Crashed;
      case RestoreRaises => end := RecoveryRaised(flag);
      case Escapes => end := Raised(Interrupted);
      case Restores =>
        journal := Wal;
        end := if course.Threw? then Raised(course.error) else Returned;
    }

    /** `during` are the calls that other connections commit between the preflight and the switch. */
    method FailEmbeddingGeneration(r: Request, during: seq<Request>, trouble: Trouble, fate: Fate) returns (end: End)
      requires Valid() && r.FailGeneration?
      modifies this
      ensures Valid()
      ensures Report(Disk(db, journal), end) == Attempt(env, old(Disk(db, journal)), r, during, trouble, fate)
    {
      AttemptKeepsInv(env, Disk(db, journal), r, during, trouble, fate);
      hide Inv, Maintain, MayFail;
      if !FailWellFormed(r) { return Raised(InvalidArgument); }
      if Crashes(trouble, AtPreflight) { return Crashed; }
      if Raises(trouble, AtPreflight) { return Raised(Interrupted); }
      if !MayFail(db, r) { return Raised(NotAuthorized); }
      db := Run(env, db, during);
      if Crashes(trouble, AtSwitch) { return Crashed; }
      if Raises(trouble, AtSwitch) { return Raised(Interrupted); }
      end := RunMaintenance(r, trouble, fate);
    }

    /** Opening the repository: WAL mode comes back exactly if every imported row still is what the
        migration wrote; all else that the self-check asks for holds of itself. */
    method Recover() returns (ready: bool)
      requires Valid()
      modifies this`journal
      ensures Valid()
      ensures ready <==> Quarantined(env, db)
      ensures ready ==> journal == Wal
      ensures !ready ==> journal == old(journal)
      ensures Reopen(env, old(Disk(db, journal))) == if ready then Some(Disk(db, journal)) else None
    {
      InvVerifies(env, db);
      ready := Verified(env, db);
      if ready { journal := Wal; }
    }
  }
}
