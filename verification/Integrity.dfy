/** What every reachable database satisfies. */
module Integrity {
  import opened Schema
  import opened Transactions

  /** A memory that an OAuth client added, as opposed to one imported by the migration. */
  predicate AddCreated(db: Db, id: string) {
    id in db.metadata && db.metadata[id].creator in db.grants
    && db.grants[db.metadata[id].creator].kind == OAuth
  }

  predicate OneToOne(db: Db) {
    db.memories.Keys == db.metadata.Keys && db.fts.Keys == db.metadata.Keys
  }

  /** One full-text row with the content, and the hash of the content. */
  predicate Indexed(env: Env, db: Db, id: string)
    requires id in db.metadata
  {
    id in db.memories && id in db.fts
    && db.fts[id] == multiset{db.memories[id].content}
    && db.metadata[id].contentHash == env.sha256(db.memories[id].content)
  }

  function KeywordsOf(rows: set<Keyword>, id: string): set<string> {
    set w | w in rows && w.memory == id :: w.keyword
  }

  predicate KeywordsAgree(env: Env, db: Db, id: string)
    requires id in db.memories
  {
    KeywordsOf(db.keywords, id) == env.keywords(db.memories[id].content)
  }

  predicate NoOrphanKeywords(db: Db) {
    forall w | w in db.keywords :: w.memory in db.metadata
  }

  predicate CreatorsExist(db: Db) {
    forall id | id in db.metadata ::
      db.metadata[id].creator in db.grants && db.grants[db.metadata[id].creator].owner == db.metadata[id].owner
  }

  predicate EmbeddingKeysHold(db: Db) {
    forall k | k in db.embeddings ::
      k.memory in db.metadata
      && db.metadata[k.memory].owner == db.embeddings[k].owner && db.metadata[k.memory].scope == db.embeddings[k].scope
      && ProfileOf(db.embeddings, k) in db.profiles
  }

  predicate AuditKeysHold(db: Db) {
    (forall k | k in db.events ::
       db.events[k].grant in db.grants && db.grants[db.events[k].grant].owner == db.events[k].owner)
    && (forall k | k in db.idem :: k.grant in db.grants && db.grants[k.grant].owner == db.idem[k].owner)
  }

  predicate RegistryKeysHold(db: Db) {
    forall k | k in db.vectorTables :: k in db.profiles
  }

  /** The partial unique index on ACTIVE profiles. */
  predicate OneActive(profiles: map<ProfileKey, Profile>) {
    forall k, j | k in profiles && j in profiles && k.owner == j.owner && k.scope == j.scope
                  && profiles[k].status == Active && profiles[j].status == Active :: k == j
  }

  predicate Served(profiles: map<ProfileKey, Profile>, owner: string, scope: string) {
    exists k | k in profiles :: k.owner == owner && k.scope == scope && IsLive(profiles[k].status)
  }

  /** Generations count from 1, and a scope that ever had a profile still has a live one. */
  predicate NeverAbandoned(profiles: map<ProfileKey, Profile>) {
    forall k | k in profiles :: k.generation >= 1 && Served(profiles, k.owner, k.scope)
  }

  /** The memory has an embedding for the ACTIVE generation of `owner` and `scope`, in that scope,
      carrying that profile's provider, endpoint hash, model and dimension. */
  predicate Covers(rows: map<EmbeddingKey, Embedding>, profiles: map<ProfileKey, Profile>, id: string, owner: string,
                   scope: string) {
    forall p | p in profiles && p.owner == owner && p.scope == scope && profiles[p].status == Active ::
      var k := EmbeddingKey(id, p.generation);
      k in rows && rows[k].owner == owner && rows[k].scope == scope && rows[k].provenance == profiles[p].provenance
  }

  predicate Covered(db: Db, id: string)
    requires id in db.metadata
  {
    Covers(db.embeddings, db.profiles, id, db.metadata[id].owner, db.metadata[id].scope)
  }

  /** The clauses about one memory. */
  predicate Sound(env: Env, db: Db, id: string)
    requires id in db.metadata
  {
    Indexed(env, db, id) && db.metadata[id].revision >= 1
    && (AddCreated(db, id) ==>
          KeywordsAgree(env, db, id) && Covered(db, id) && EventKey(id, 1) in db.events
          && Served(db.profiles, db.metadata[id].owner, db.metadata[id].scope))
  }

  predicate AllSound(env: Env, db: Db) {
    forall id | id in db.metadata :: Sound(env, db, id)
  }

  predicate Inv(env: Env, db: Db) {
    OneToOne(db) && NoOrphanKeywords(db) && CreatorsExist(db) && EmbeddingKeysHold(db) && AuditKeysHold(db)
    && RegistryKeysHold(db) && OneActive(db.profiles) && NeverAbandoned(db.profiles) && AllSound(env, db)
  }

  // ------------------------------------------------ transactions on one memory

  /** Nothing but rows of memory `id` and the two logs differs; no event is lost. */
  predicate Touches(db: Db, e: Db, id: string) {
    e.profiles == db.profiles && e.grants == db.grants && e.vectorTables == db.vectorTables
    && e.metadata - {id} == db.metadata - {id} && e.memories - {id} == db.memories - {id}
    && e.fts - {id} == db.fts - {id}
    && OtherKeywords(e.keywords, id) == OtherKeywords(db.keywords, id)
    && OtherEmbeddings(e.embeddings, id) == OtherEmbeddings(db.embeddings, id)
    && db.events.Keys <= e.events.Keys
  }

  /** The embedding rows of `id` lie in `owner` and `scope` and belong to existing profiles. */
  predicate RowsPoint(rows: map<EmbeddingKey, Embedding>, profiles: map<ProfileKey, Profile>, id: string, owner: string,
                      scope: string)
  {
    forall k | k in rows && k.memory == id ::
      rows[k].owner == owner && rows[k].scope == scope && ProfileKey(owner, scope, k.generation) in profiles
  }

  /** The clauses of `Inv` that speak of the rows of `id`. */
  predicate LocallySound(env: Env, db: Db, id: string) {
    (id in db.memories <==> id in db.metadata) && (id in db.fts <==> id in db.metadata)
    && if id in db.metadata then
         Sound(env, db, id) && db.metadata[id].creator in db.grants
         && db.grants[db.metadata[id].creator].owner == db.metadata[id].owner
         && RowsPoint(db.embeddings, db.profiles, id, db.metadata[id].owner, db.metadata[id].scope)
       else (forall w | w in db.keywords :: w.memory != id) && (forall k | k in db.embeddings :: k.memory != id)
  }

  lemma InvIsLocal(env: Env, db: Db, id: string)
    requires Inv(env, db)
    ensures LocallySound(env, db, id)
  {
  }

  lemma SameValue<V>(m: map<string, V>, n: map<string, V>, id: string, x: string)
    requires m - {id} == n - {id} && x != id
    ensures x in m <==> x in n
    ensures x in m ==> m[x] == n[x]
  {
    assert x in m <==> x in m - {id};
    assert x in n <==> x in n - {id};
    assert x in m ==> m[x] == (m - {id})[x];
  }

  lemma SameEmbedding(m: map<EmbeddingKey, Embedding>, n: map<EmbeddingKey, Embedding>, id: string, k: EmbeddingKey)
    requires OtherEmbeddings(m, id) == OtherEmbeddings(n, id) && k.memory != id
    ensures k in m <==> k in n
    ensures k in m ==> m[k] == n[k]
  {
    assert k in m <==> k in OtherEmbeddings(m, id);
    assert k in n <==> k in OtherEmbeddings(n, id);
    assert k in m ==> m[k] == OtherEmbeddings(m, id)[k];
  }

  lemma SameKeywords(m: set<Keyword>, n: set<Keyword>, id: string, x: string)
    requires OtherKeywords(m, id) == OtherKeywords(n, id) && x != id
    ensures KeywordsOf(m, x) == KeywordsOf(n, x)
  {
    forall w ensures w in KeywordsOf(m, x) <==> w in KeywordsOf(n, x) {
      assert Keyword(w, x) in m <==> Keyword(w, x) in OtherKeywords(m, id);
      assert Keyword(w, x) in n <==> Keyword(w, x) in OtherKeywords(n, id);
    }
  }

  lemma SameCoverage(db: Db, e: Db, id: string, x: string, owner: string, scope: string)
    requires Touches(db, e, id) && x != id
    ensures Covers(e.embeddings, e.profiles, x, owner, scope) <==> Covers(db.embeddings, db.profiles, x, owner, scope)
    ensures RowsPoint(db.embeddings, db.profiles, x, owner, scope) ==>
      RowsPoint(e.embeddings, e.profiles, x, owner, scope)
  {
    forall g ensures EmbeddingKey(x, g) in e.embeddings <==> EmbeddingKey(x, g) in db.embeddings
      ensures EmbeddingKey(x, g) in e.embeddings ==>
        e.embeddings[EmbeddingKey(x, g)] == db.embeddings[EmbeddingKey(x, g)]
    {
      SameEmbedding(e.embeddings, db.embeddings, id, EmbeddingKey(x, g));
    }
  }

  lemma OthersStaySound(env: Env, db: Db, e: Db, id: string, x: string)
    requires Touches(db, e, id) && x != id && LocallySound(env, db, x)
    ensures LocallySound(env, e, x)
  {
    SameValue(e.metadata, db.metadata, id, x);
    SameValue(e.memories, db.memories, id, x);
    SameValue(e.fts, db.fts, id, x);
    SameKeywords(e.keywords, db.keywords, id, x);
    if x in e.metadata {
      SameCoverage(db, e, id, x, e.metadata[x].owner, e.metadata[x].scope);
    } else {
      forall w | w in e.keywords ensures w.memory != x {
        assert w.memory != id ==> w in OtherKeywords(e.keywords, id);
      }
      forall k | k in e.embeddings ensures k.memory != x {
        if k.memory != id { SameEmbedding(e.embeddings, db.embeddings, id, k); }
      }
    }
  }

  /** What the clauses about `id` say of the rows that name it. */
  lemma LocalRows(env: Env, db: Db, id: string)
    requires LocallySound(env, db, id)
    ensures (id in db.memories <==> id in db.metadata) && (id in db.fts <==> id in db.metadata)
    ensures id in db.metadata ==> Sound(env, db, id) && db.metadata[id].creator in db.grants
                                  && db.grants[db.metadata[id].creator].owner == db.metadata[id].owner
    ensures id !in db.metadata ==>
      (forall w | w in db.keywords :: w.memory != id) && (forall k | k in db.embeddings :: k.memory != id)
  {
    hide Sound, RowsPoint;
  }

  lemma LocalEmbedding(env: Env, db: Db, k: EmbeddingKey)
    requires LocallySound(env, db, k.memory) && k in db.embeddings
    ensures k.memory in db.metadata && db.metadata[k.memory].owner == db.embeddings[k].owner
      && db.metadata[k.memory].scope == db.embeddings[k].scope && ProfileOf(db.embeddings, k) in db.profiles
  {
    hide Sound;
  }

  lemma LocalIsInv(env: Env, db: Db)
    requires forall id :: LocallySound(env, db, id)
    requires AuditKeysHold(db) && RegistryKeysHold(db) && OneActive(db.profiles) && NeverAbandoned(db.profiles)
    ensures Inv(env, db)
  {
    hide LocallySound, Sound, AuditKeysHold, RegistryKeysHold, OneActive, NeverAbandoned;
    forall k | k in db.embeddings
      ensures k.memory in db.metadata && db.metadata[k.memory].owner == db.embeddings[k].owner
        && db.metadata[k.memory].scope == db.embeddings[k].scope && ProfileOf(db.embeddings, k) in db.profiles
    {
      LocalEmbedding(env, db, k);
    }
    forall w | w in db.keywords ensures w.memory in db.metadata {
      LocalRows(env, db, w.memory);
    }
    forall id ensures (id in db.memories <==> id in db.metadata) && (id in db.fts <==> id in db.metadata)
      && (id in db.metadata ==> Sound(env, db, id) && db.metadata[id].creator in db.grants
                                && db.grants[db.metadata[id].creator].owner == db.metadata[id].owner)
    {
      LocalRows(env, db, id);
    }
  }

  /** A transaction on one memory keeps `Inv` if it leaves that memory in order. */
  lemma TouchKeepsInv(env: Env, db: Db, e: Db, id: string)
    requires Inv(env, db) && Touches(db, e, id) && LocallySound(env, e, id) && AuditKeysHold(e)
    ensures Inv(env, e)
  {
    forall x ensures LocallySound(env, e, x) {
      if x != id {
        InvIsLocal(env, db, x);
        OthersStaySound(env, db, e, id, x);
      }
    }
    LocalIsInv(env, e);
  }

  // -------------------------------------------------------------- small facts

  lemma PutIsLocal<V>(m: map<string, V>, id: string, v: V)
    ensures m[id := v] - {id} == m - {id}
  {
  }

  lemma DropIsLocal<V>(m: map<string, V>, id: string)
    ensures (m - {id}) - {id} == m - {id}
  {
  }

  lemma NewRowsAreLocal(rows: map<EmbeddingKey, Embedding>, extra: map<EmbeddingKey, Embedding>, id: string)
    requires forall k | k in extra :: k.memory == id
    ensures OtherEmbeddings(rows + extra, id) == OtherEmbeddings(rows, id)
  {
  }

  lemma NewKeywords(rows: set<Keyword>, words: set<string>, id: string)
    ensures OtherKeywords(rows + KeywordRows(words, id), id) == OtherKeywords(rows, id)
    ensures (forall w | w in rows :: w.memory != id) ==> KeywordsOf(rows + KeywordRows(words, id), id) == words
  {
    if forall w | w in rows :: w.memory != id {
      forall w ensures w in KeywordsOf(rows + KeywordRows(words, id), id) <==> w in words {
        assert w in words ==> Keyword(w, id) in KeywordRows(words, id);
      }
    }
  }

  lemma LiveMeansServed(profiles: map<ProfileKey, Profile>, owner: string, scope: string)
    ensures Served(profiles, owner, scope) <==> LiveProfiles(profiles, owner, scope) != map[]
  {
    var live := LiveProfiles(profiles, owner, scope);
    if k :| k in profiles && k.owner == owner && k.scope == scope && IsLive(profiles[k].status) {
      assert k.generation in live;
    }
    if live != map[] {
      var g :| g in live;
      assert ProfileKey(owner, scope, g) in profiles;
    }
  }

  lemma FirstIsInserted(profiles: map<ProfileKey, Profile>, owner: string, scope: string, row: Profile)
    requires LiveProfiles(profiles, owner, scope) == map[] && row.status == Active
    ensures var key := ProfileKey(owner, scope, DEFAULT_GENERATION);
      LiveProfiles(profiles[key := row], owner, scope) == map[DEFAULT_GENERATION := row.provenance]
  {
    var key := ProfileKey(owner, scope, DEFAULT_GENERATION);
    var after := profiles[key := row];
    assert key in after;
    forall g ensures g in LiveGenerations(after, owner, scope) <==> g == DEFAULT_GENERATION {
      var k := ProfileKey(owner, scope, g);
      assert k in profiles && IsLive(profiles[k].status) ==> g in LiveProfiles(profiles, owner, scope);
    }
  }

  predicate RowsCover(rows: map<EmbeddingKey, Embedding>, id: string, owner: string, scope: string,
                      live: map<int, Provenance>) {
    forall g | g in live ::
      var k := EmbeddingKey(id, g);
      k in rows && rows[k].owner == owner && rows[k].scope == scope && rows[k].provenance == live[g]
  }

  lemma LiveRowsCover(rows: map<EmbeddingKey, Embedding>, profiles: map<ProfileKey, Profile>, id: string, owner: string,
                      scope: string)
    requires RowsCover(rows, id, owner, scope, LiveProfiles(profiles, owner, scope))
    ensures Covers(rows, profiles, id, owner, scope)
  {
    var live := LiveProfiles(profiles, owner, scope);
    forall p | p in profiles && p.owner == owner && p.scope == scope && profiles[p].status == Active
      ensures var k := EmbeddingKey(id, p.generation);
        k in rows && rows[k].owner == owner && rows[k].scope == scope && rows[k].provenance == profiles[p].provenance
    {
      assert p.generation in live && live[p.generation] == profiles[p].provenance;
    }
  }

  lemma NewRows(env: Env, profiles: map<ProfileKey, Profile>, id: string, owner: string, scope: string,
                blobs: map<int, Blob>, at: string, generations: set<int>)
    requires generations <= LiveProfiles(profiles, owner, scope).Keys
    ensures var live := LiveProfiles(profiles, owner, scope);
      RowsPoint(NewEmbeddings(env, id, owner, scope, live, blobs, at, generations), profiles, id, owner, scope)
  {
    forall g | g in generations ensures ProfileKey(owner, scope, g) in profiles {
      assert g in LiveProfiles(profiles, owner, scope);
    }
  }

  lemma LogsKeepKeys(env: Env, db: Db, e: Db, grant: string, id: string, revision: int, op: Operation, actor: string,
                     at: string, digest: string, key: string, scope: string, receipt: Receipt)
    requires AuditKeysHold(db) && grant in db.grants && e.grants == db.grants
    requires e.events == WithEvent(env, db, grant, id, revision, op, actor, at, digest)
    requires e.idem == WithReceipt(db, grant, op, key, actor, scope, digest, receipt)
    ensures AuditKeysHold(e) && db.events.Keys <= e.events.Keys
  {
  }
}
