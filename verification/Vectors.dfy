/** The physical vectors behind the embedding rows: which of them a replace and a purge reach. */
module Vectors {
  import opened Schema
  import opened Transactions
  import opened Integrity
  import opened Preservation
  import opened Effects

  /** An embedding row of the memory, in a registered generation, names row `v` of table `t`. */
  predicate Linked(db: Db, id: string, t: string, v: int) {
    exists k | k in db.embeddings :: k.memory == id && ProfileOf(db.embeddings, k) in db.vectorTables
      && db.vectorTables[ProfileOf(db.embeddings, k)] == t && db.embeddings[k].vectorRow == Some(v)
  }

  /** A physical vector goes with a purge exactly if an embedding row of the memory names it. */
  lemma PurgeDropsLinked(env: Env, db: Db, r: Request, t: string, v: int)
    requires r.Purge? && Step(env, db, r).out.Committed?
    ensures var e := Step(env, db, r).db;
      (t in e.vectors <==> t in db.vectors)
      && (t in e.vectors ==> (v in e.vectors[t] <==> v in db.vectors[t] && !Linked(db, r.memory, t, v)))
  {
    hide AddStep, ReplaceStep, RemoveStep, RestoreStep, PurgeStep, CutoverStep, FailStep, OutsideStep, Linked,
         PurgeAllowed;
    PurgeShape(env, db, r);
    PurgedIsLinked(db, r.memory, t, v);
  }

  lemma PurgedIsLinked(db: Db, id: string, t: string, v: int)
    ensures t in PurgedVectors(db, id) <==> t in db.vectors
    ensures t in db.vectors ==> (v in PurgedVectors(db, id)[t] <==> v in db.vectors[t] && !Linked(db, id, t, v))
  {
  }

  // -------------------------------------------------------------- after a replace

  /** Every embedding of the memory in a registered generation other than `live` can be deleted. */
  predicate OthersDeletable(db: Db, id: string, live: set<int>) {
    forall k | k in db.embeddings && k.memory == id && k.generation !in live
      && ProfileOf(db.embeddings, k) in db.vectorTables ::
      db.embeddings[k].vectorRow.Some? && db.vectorTables[ProfileOf(db.embeddings, k)] in db.vectors
  }

  lemma ReplacedRows(env: Env, db: Db, r: Request)
    requires r.Replace? && ReplaceAllowed(env, db, r)
    ensures var e := ReplaceCommit(env, db, r);
      e.vectors == db.vectors && e.vectorTables == db.vectorTables
      && (forall g | g in r.blobs :: EmbeddingKey(r.memory, g) in e.embeddings
                                     && e.embeddings[EmbeddingKey(r.memory, g)].vectorRow.None?)
      && (forall k | k in e.embeddings && !(k.memory == r.memory && k.generation in r.blobs) ::
            k in db.embeddings && e.embeddings[k] == db.embeddings[k])
  {
    hide ReplaceRefusal, CanWrite, MayReach, LiveProfiles, OwnerOf, WithEvent, WithReceipt, Revised, Refreshed,
         NewEmbeddings, Fresh, TargetScope, Reindexed;
    LiveIsCovered(env, db, r);
    RefreshedRows(env, db.embeddings, r.memory, OwnerOf(db, r.grant), TargetScope(r),
                  LiveProfiles(db.profiles, OwnerOf(db, r.grant), TargetScope(r)), r.blobs, r.at);
  }

  lemma RefreshedRows(env: Env, rows: map<EmbeddingKey, Embedding>, id: string, owner: string, scope: string,
                      live: map<int, Provenance>, blobs: map<int, Blob>, at: string)
    requires live.Keys == blobs.Keys
    ensures var after := Refreshed(rows, id, scope, live, blobs, at)
                         + NewEmbeddings(env, id, owner, scope, live, blobs, at, Fresh(rows, id, live.Keys));
      (forall g | g in blobs :: EmbeddingKey(id, g) in after && after[EmbeddingKey(id, g)].vectorRow.None?)
      && (forall k | k in after && !(k.memory == id && k.generation in blobs) :: k in rows && after[k] == rows[k])
  {
    forall g | g in blobs ensures EmbeddingKey(id, g) !in rows ==> g in Fresh(rows, id, live.Keys) {
    }
  }

  lemma LiveIsCovered(env: Env, db: Db, r: Request)
    requires r.Replace? && ReplaceRefusal(env, db, r).None?
    ensures LiveProfiles(db.profiles, OwnerOf(db, r.grant), TargetScope(r)).Keys == r.blobs.Keys
  {
    hide ReplaceFits, Projected, Visible, LiveProfiles, OwnerOf;
  }

  /** A replace leaves every physical vector in its table and names none of those it replaced. Until the
      memory is projected again it can be purged exactly if none of the generations it was written to
      has a table, and its rows of other generations allow it. */
  lemma ReplaceUnlinks(env: Env, db: Db, r: Request)
    requires Inv(env, db) && r.Replace? && Step(env, db, r).out.Committed?
    ensures var e := Step(env, db, r).db;
      e.vectors == db.vectors
      && (forall g | g in r.blobs :: EmbeddingKey(r.memory, g) in e.embeddings
                                     && e.embeddings[EmbeddingKey(r.memory, g)].vectorRow.None?)
    ensures var e := Step(env, db, r).db;
      VectorsDeletable(e, r.memory)
      <==> OthersDeletable(e, r.memory, r.blobs.Keys)
           && forall g | g in r.blobs :: ProfileKey(OwnerOf(db, r.grant), TargetScope(r), g) !in e.vectorTables
    ensures var e := Step(env, db, r).db;
      !VectorsDeletable(e, r.memory) ==>
        forall p: Request | p.Purge? && p.memory == r.memory :: !Step(env, e, p).out.Committed?
  {
    hide Step, ReplaceCommit, ReplaceAllowed, Inv, VectorsDeletable, OthersDeletable, LiveProfiles, OwnerOf;
    var e := Step(env, db, r).db;
    StepIsReplace(env, db, r);
    ReplaceShape(env, db, r);
    ReplacedRows(env, db, r);
    ReplacedLieInTarget(env, db, r, e);
    DeletableIff(e, r.memory, r.blobs.Keys, OwnerOf(db, r.grant), TargetScope(r));
    if !VectorsDeletable(e, r.memory) {
      forall p: Request | p.Purge? && p.memory == r.memory ensures !Step(env, e, p).out.Committed? {
        if Step(env, e, p).out.Committed? { PurgeNeedsVectors(env, e, p); }
      }
    }
  }

  lemma StepIsReplace(env: Env, db: Db, r: Request)
    requires r.Replace?
    ensures Step(env, db, r) == ReplaceStep(env, db, r)
  {
    hide ReplaceStep;
  }

  lemma PurgeNeedsVectors(env: Env, db: Db, r: Request)
    requires r.Purge? && Step(env, db, r).out.Committed?
    ensures VectorsDeletable(db, r.memory)
  {
    hide CanAdmin, LogsFit, VectorsDeletable, PurgeCommit, PurgeWellFormed;
  }

  /** The rows of the memory lie in the target scope, as the foreign keys demand. */
  lemma ReplacedLieInTarget(env: Env, db: Db, r: Request, e: Db)
    requires Inv(env, db) && r.Replace? && e == Step(env, db, r).db && Step(env, db, r).out.Committed?
    ensures forall k | k in e.embeddings && k.memory == r.memory ::
      e.embeddings[k].owner == OwnerOf(db, r.grant) && e.embeddings[k].scope == TargetScope(r)
  {
    hide Step, AllSound, Resolve, Touches, Files, Appends, Stores, OwnerOf, AuditKeysHold, NeverAbandoned, OneActive,
         CreatorsExist;
    StepEffect(env, db, r);
    StepKeepsInv(env, db, r);
  }

  lemma DeletableIff(e: Db, id: string, live: set<int>, owner: string, scope: string)
    requires forall k | k in e.embeddings && k.memory == id ::
      e.embeddings[k].owner == owner && e.embeddings[k].scope == scope
    requires forall g | g in live ::
      EmbeddingKey(id, g) in e.embeddings && e.embeddings[EmbeddingKey(id, g)].vectorRow.None?
    ensures VectorsDeletable(e, id)
      <==> OthersDeletable(e, id, live) && forall g | g in live :: ProfileKey(owner, scope, g) !in e.vectorTables
  {
    forall g | g in live ensures ProfileOf(e.embeddings, EmbeddingKey(id, g)) == ProfileKey(owner, scope, g) {
    }
    assert forall k | k in e.embeddings && k.memory == id && k.generation in live ::
        k == EmbeddingKey(id, k.generation);
  }

  // ------------------------------------------------------------- orphaned vectors

  /** The vector is in its table, and no embedding row names its place. */
  predicate Orphan(db: Db, t: string, v: int) {
    t in db.vectors && v in db.vectors[t] && forall k | k in db.embeddings :: db.embeddings[k].vectorRow != Some(v)
  }

  /** The call does not give the place to an embedding row, nor empty it from outside. */
  predicate Leaves(r: Request, t: string, v: int) {
    !r.FailGeneration? && (r.Backfill? ==> r.row.vectorRow != Some(v))
    && (r.Project? ==> t in r.vectors && v in r.vectors[t] && forall k | k in r.rows :: r.rows[k] != Some(v))
  }

  /** The vector of the memory's old content, if no other row names its place, is an orphan after a
      replace into the same generation. */
  lemma ReplaceOrphans(env: Env, db: Db, r: Request, g: int, t: string, v: int)
    requires Inv(env, db) && r.Replace? && Step(env, db, r).out.Committed? && g in r.blobs
    requires t in db.vectors && v in db.vectors[t]
    requires forall k | k in db.embeddings && db.embeddings[k].vectorRow == Some(v) :: k == EmbeddingKey(r.memory, g)
    ensures Orphan(Step(env, db, r).db, t, v)
  {
    hide Step, ReplaceCommit, ReplaceAllowed, Inv, LiveProfiles, OwnerOf;
    StepIsReplace(env, db, r);
    ReplaceShape(env, db, r);
    ReplacedRows(env, db, r);
    var e := Step(env, db, r).db;
    forall k | k in e.embeddings ensures e.embeddings[k].vectorRow != Some(v) {
      if k.memory == r.memory && k.generation in r.blobs {
        assert k == EmbeddingKey(r.memory, k.generation);
      }
    }
  }

  /** No row of `e` names a place that it did not name in `db`. */
  predicate NamesNoMore(db: Db, e: Db) {
    forall k | k in e.embeddings ::
      e.embeddings[k].vectorRow.None? || (k in db.embeddings && e.embeddings[k].vectorRow == db.embeddings[k].vectorRow)
  }

  lemma AddNamesNoMore(env: Env, db: Db, r: Request)
    requires r.Add?
    ensures var e := AddStep(env, db, r).db; e.vectors == db.vectors && NamesNoMore(db, e)
  {
    hide AddStep, AddAllowed, AddCommit;
    AddQuiet(env, db, r);
    if AddStep(env, db, r).out.Committed? {
      AddShape(env, db, r);
      AddedRows(env, db, r);
    }
  }

  lemma AddedRows(env: Env, db: Db, r: Request)
    requires r.Add?
    ensures var e := AddCommit(env, db, r); e.vectors == db.vectors && NamesNoMore(db, e)
  {
    hide LiveProfiles, WithEvent, WithReceipt, KeywordRows, OwnerOf, Bag;
  }

  lemma ReplaceNamesNoMore(env: Env, db: Db, r: Request)
    requires r.Replace?
    ensures var e := ReplaceStep(env, db, r).db; e.vectors == db.vectors && NamesNoMore(db, e)
  {
    hide ReplaceStep, ReplaceCommit, ReplaceAllowed, LiveProfiles, OwnerOf;
    ReplaceQuiet(env, db, r);
    if ReplaceStep(env, db, r).out.Committed? {
      ReplaceShape(env, db, r);
      ReplacedRows(env, db, r);
      forall k | k in ReplaceCommit(env, db, r).embeddings && k.memory == r.memory && k.generation in r.blobs
        ensures k == EmbeddingKey(r.memory, k.generation)
      {
      }
    }
  }

  lemma StateKeepsVectors(env: Env, db: Db, r: Request)
    requires r.Remove? || r.Restore? || r.Cutover?
    ensures var e := Step(env, db, r).db; e.vectors == db.vectors && e.embeddings == db.embeddings
  {
    hide RemoveStep, RestoreStep, CutoverStep, RemoveAllowed, RestoreAllowed;
    if r.Remove? {
      RemoveQuiet(env, db, r);
      if RemoveStep(env, db, r).out.Committed? { RemoveShape(env, db, r); }
    } else if r.Restore? {
      RestoreQuiet(env, db, r);
      if RestoreStep(env, db, r).out.Committed? { RestoreShape(env, db, r); }
    } else {
      CutoverKeepsVectors(db, r);
    }
  }

  lemma CutoverKeepsVectors(db: Db, r: Request)
    requires r.Cutover?
    ensures var e := CutoverStep(db, r).db; e.vectors == db.vectors && e.embeddings == db.embeddings
  {
    hide CanAdmin, CutoverWellFormed, InParity, ActiveGenerations, Switched, OwnerOf;
  }

  lemma PurgeLeavesOrphans(env: Env, db: Db, r: Request, t: string, v: int)
    requires r.Purge? && Orphan(db, t, v)
    ensures Orphan(PurgeStep(env, db, r).db, t, v)
  {
    hide PurgeStep, PurgeAllowed;
    PurgeQuiet(env, db, r);
    if PurgeStep(env, db, r).out.Committed? {
      PurgeShape(env, db, r);
      PurgedIsLinked(db, r.memory, t, v);
    }
  }

  lemma OutsideLeavesOrphans(db: Db, r: Request, t: string, v: int)
    requires Orphan(db, t, v) && Leaves(r, t, v) && !IsWrite(r) && !r.Cutover?
    ensures Orphan(OutsideStep(db, r).db, t, v)
  {
    hide LiveProfiles, LiveGenerations, Unclaimed, Startable, Backfillable;
  }

  lemma StepLeavesOrphans(env: Env, db: Db, r: Request, t: string, v: int)
    requires Orphan(db, t, v) && Leaves(r, t, v)
    ensures Orphan(Step(env, db, r).db, t, v)
  {
    hide AddStep, ReplaceStep, RemoveStep, RestoreStep, PurgeStep, CutoverStep, FailStep, OutsideStep;
    if r.Add? { AddNamesNoMore(env, db, r); }
    else if r.Replace? { ReplaceNamesNoMore(env, db, r); }
    else if r.Purge? { PurgeLeavesOrphans(env, db, r, t, v); }
    else if r.Remove? || r.Restore? || r.Cutover? { StateKeepsVectors(env, db, r); }
    else { OutsideLeavesOrphans(db, r, t, v); }
  }

  /** An orphan outlives every run that does not give its place away or empty it from outside, the purge
      of the memory it belonged to included. */
  lemma {:induction false} OrphansStay(env: Env, db: Db, rs: seq<Request>, t: string, v: int)
    requires Orphan(db, t, v) && forall r | r in rs :: Leaves(r, t, v)
    ensures Orphan(Run(env, db, rs), t, v)
    decreases |rs|
  {
    hide Step, Orphan, Leaves;
    if rs != [] {
      StepLeavesOrphans(env, db, rs[0], t, v);
      OrphansStay(env, Step(env, db, rs[0]).db, rs[1..], t, v);
    }
  }
}
