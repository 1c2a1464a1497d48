/** `verify_migrated_database`, which the authority runs on itself whenever it is opened. */
module SelfCheck {
  import opened Sets
  import opened Schema
  import opened Transactions
  import opened Integrity
  import opened Preservation
  import opened Effects
  import opened Refinement

  /** PRAGMA foreign_key_check */
  predicate ForeignKeysHold(db: Db) {
    db.metadata.Keys <= db.memories.Keys
    && CreatorsExist(db) && EmbeddingKeysHold(db) && AuditKeysHold(db) && RegistryKeysHold(db)
  }

  predicate Imported(db: Db, id: string) {
    id in db.metadata && id in db.memories && db.metadata[id].creator in db.grants
    && db.grants[db.metadata[id].creator].owner == db.metadata[id].owner
    && db.grants[db.metadata[id].creator].kind == Migration
  }

  /** An imported row still is what the migration wrote. */
  predicate Untouched(env: Env, db: Db, id: string)
    requires id in db.metadata && id in db.memories
  {
    db.metadata[id].revision == 1 && db.metadata[id].scope == LEGACY_SCOPE && db.metadata[id].kind == "legacy"
    && db.metadata[id].sourceClient == "legacy-import"
    && db.metadata[id].contentHash == env.sha256(db.memories[id].content)
  }

  predicate Verified(env: Env, db: Db) {
    ForeignKeysHold(db) && |db.memories| == |db.metadata|
    && forall id | id in db.metadata && Imported(db, id) :: Untouched(env, db, id)
  }

  /** The check counts rows instead of matching them; with the primary and foreign keys that is enough. */
  lemma CountsAreEnough(env: Env, db: Db)
    requires Verified(env, db)
    ensures db.memories.Keys == db.metadata.Keys
  {
    SameSizeSubset(db.metadata.Keys, db.memories.Keys);
  }

  predicate Quarantined(env: Env, db: Db) {
    forall id | id in db.metadata && Imported(db, id) :: Untouched(env, db, id)
  }

  lemma InvVerifies(env: Env, db: Db)
    requires Inv(env, db)
    ensures Verified(env, db) <==> Quarantined(env, db)
  {
    assert |db.memories| == |db.memories.Keys| && |db.metadata| == |db.metadata.Keys|;
  }

  // ------------------------------------------------- what a call does to imports

  predicate IsEdit(r: Request) { r.Replace? || r.Remove? || r.Restore? }

  predicate Edits(r: Request, id: string) { IsEdit(r) && r.memory == id }

  /** What the code demands of an edit before it commits. */
  predicate EditPasses(env: Env, db: Db, r: Request)
    requires IsEdit(r)
  {
    Resolve(db, r.grant, r.scope, OperationOf(r), r.key, r.digest, r.pick).Unused?
    && if r.Replace? then ReplaceWellFormed(r) && ReplaceAllowed(env, db, r)
       else if r.Remove? then RowWellFormed(r) && RemoveAllowed(env, db, r)
       else RowWellFormed(r) && RestoreAllowed(env, db, r)
  }

  lemma EditCommitsIff(env: Env, db: Db, r: Request)
    requires IsEdit(r)
    ensures Step(env, db, r).out.Committed? <==> EditPasses(env, db, r)
  {
    hide ReplaceCommit, RemoveCommit, RestoreCommit, LiveProfiles, EventFits, FullyEmbedded, ReplaceRefusal, CanWrite,
         CanAdmin, MayReach, Resolve, Visible, AddStep, PurgeStep;
    if Step(env, db, r).out.Committed? {
      if r.Replace? { ReplaceShape(env, db, r); }
      else if r.Remove? { RemoveShape(env, db, r); }
      else { RestoreShape(env, db, r); }
    }
  }

  /** An edit of an imported row that passes. */
  predicate EditsImport(env: Env, db: Db, r: Request) {
    IsEdit(r) && Imported(db, r.memory) && EditPasses(env, db, r)
  }

  /** An imported row was imported before, and is untouched exactly if it was so and the call did not
      edit it. */
  lemma EffectOnImport(env: Env, db: Db, r: Request, reply: Reply, id: string)
    requires Effect(env, db, r, reply) && Inv(env, db) && Imported(reply.db, id)
    ensures Imported(db, id)
    ensures Untouched(env, reply.db, id) <==> Untouched(env, db, id) && !(reply.out.Committed? && Edits(r, id))
  {
    hide AllSound, EmbeddingKeysHold, AuditKeysHold, OneActive, NeverAbandoned, Files, Appends, Resolve;
    if reply.out.Committed? {
      if r.memory == id {
        assert !r.Add?;
        RevisedOnce(env, db, r, reply.db);
      } else {
        SameValue(reply.db.metadata, db.metadata, r.memory, id);
        SameValue(reply.db.memories, db.memories, r.memory, id);
      }
    }
  }

  lemma RevisedOnce(env: Env, db: Db, r: Request, e: Db)
    requires IsEdit(r) && WriteEffect(env, db, r, e) && Inv(env, db)
    ensures r.memory in db.memories && r.memory in e.metadata && e.metadata[r.memory].revision >= 2
  {
    assert Sound(env, db, r.memory);
  }

  lemma EditKeepsImport(env: Env, db: Db, r: Request, e: Db)
    requires IsEdit(r) && WriteEffect(env, db, r, e) && OneToOne(e) && Imported(db, r.memory)
    ensures Imported(e, r.memory)
  {
  }

  lemma EffectKeepsQuarantine(env: Env, db: Db, r: Request, reply: Reply)
    requires Effect(env, db, r, reply) && Inv(env, db) && OneToOne(reply.db) && Quarantined(env, db)
    ensures Quarantined(env, reply.db) <==> !(reply.out.Committed? && IsEdit(r) && Imported(db, r.memory))
  {
    hide Effect, Inv, Imported, Untouched, OneToOne;
    ImportIsStored(db);
    ImportIsStored(reply.db);
    forall id | id in reply.db.metadata && Imported(reply.db, id)
      ensures Imported(db, id)
        && (Untouched(env, reply.db, id) <==> Untouched(env, db, id) && !(reply.out.Committed? && Edits(r, id)))
    {
      EffectOnImport(env, db, r, reply, id);
    }
    if reply.out.Committed? && IsEdit(r) && Imported(db, r.memory) {
      CommittedEffect(env, db, r, reply);
      EditKeepsImport(env, db, r, reply.db);
    }
  }

  lemma ImportIsStored(db: Db)
    ensures forall id | Imported(db, id) :: id in db.metadata && id in db.memories
  {
  }

  lemma CommittedEffect(env: Env, db: Db, r: Request, reply: Reply)
    requires Effect(env, db, r, reply) && reply.out.Committed?
    ensures IsWrite(r) && WriteEffect(env, db, r, reply.db)
  {
  }

  /** After any call on a verified database the check accepts again, unless the call was an edit of an
      imported row that passes: then it rejects. */
  lemma VerifiedUnlessImportEdited(env: Env, db: Db, r: Request)
    requires Inv(env, db) && Verified(env, db)
    ensures Verified(env, Step(env, db, r).db) <==> !EditsImport(env, db, r)
  {
    hide Step, AllSound, EditPasses, Effect;
    StepEffect(env, db, r);
    StepKeepsInv(env, db, r);
    EffectKeepsQuarantine(env, db, r, Step(env, db, r));
    InvVerifies(env, Step(env, db, r).db);
    if IsEdit(r) { EditCommitsIff(env, db, r); }
  }

  // -------------------------------------------------------------- over whole runs

  predicate EditedIn(ws: seq<Write>, id: string) {
    exists w | w in ws :: Edits(w.request, id)
  }

  lemma EditedInSplit(w: Write, ws: seq<Write>, id: string)
    ensures EditedIn([w] + ws, id) <==> Edits(w.request, id) || EditedIn(ws, id)
  {
    assert w in [w] + ws;
    assert forall x | x in ws :: x in [w] + ws;
  }

  /** An imported row that is there after a run was there before it, and is untouched exactly if it was
      so and no write of the run edited it. */
  lemma {:induction false} RunOnImport(env: Env, db: Db, rs: seq<Request>, id: string)
    requires Inv(env, db) && Imported(Run(env, db, rs), id)
    ensures Imported(db, id)
    ensures Untouched(env, Run(env, db, rs), id) <==> Untouched(env, db, id) && !EditedIn(Trace(env, db, rs), id)
    decreases |rs|
  {
    hide Step, Inv, Effect, Imported, Untouched, EditedIn;
    ImportIsStored(Run(env, db, rs));
    ImportIsStored(db);
    if rs == [] {
      NothingEdited(id);
    } else {
      var reply := Step(env, db, rs[0]);
      StepEffect(env, db, rs[0]);
      StepKeepsInv(env, db, rs[0]);
      RunOnImport(env, reply.db, rs[1..], id);
      EffectOnImport(env, db, rs[0], reply, id);
      var rest := Trace(env, reply.db, rs[1..]);
      ImportIsStored(reply.db);
      if reply.out.Committed? {
        CommittedEffect(env, db, rs[0], reply);
        EditedInSplit(Write(OwnerOf(db, rs[0].grant), rs[0]), rest, id);
      } else {
        assert Trace(env, db, rs) == rest;
      }
    }
  }

  lemma NothingEdited(id: string)
    ensures !EditedIn([], id)
  {
  }

  /** After any run on a verified database the check accepts exactly if no write of the run edited an
      imported row that is still there: purging the row is what makes the database verify again. */
  lemma RunVerifiedIff(env: Env, db: Db, rs: seq<Request>)
    requires Inv(env, db) && Verified(env, db)
    ensures var e := Run(env, db, rs);
      Verified(env, e) <==> forall id | Imported(e, id) :: !EditedIn(Trace(env, db, rs), id)
  {
    hide Step, Run, AllSound, Imported, Untouched, EditedIn, ForeignKeysHold, Trace;
    var e := Run(env, db, rs);
    RunKeepsInv(env, db, rs);
    InvVerifies(env, e);
    ImportIsStored(e);
    ImportIsStored(db);
    forall id | Imported(e, id) ensures Untouched(env, e, id) <==> !EditedIn(Trace(env, db, rs), id) {
      RunOnImport(env, db, rs, id);
    }
  }

  predicate OutsideLegacyScope(ws: seq<Write>) {
    forall w | w in ws :: IsWrite(w.request) && w.request.scope != LEGACY_SCOPE
  }

  lemma OutsideStepByStep(env: Env, db: Db, rs: seq<Request>)
    requires rs != [] && OutsideLegacyScope(Trace(env, db, rs))
    ensures Step(env, db, rs[0]).out.Committed? && IsWrite(rs[0]) ==> rs[0].scope != LEGACY_SCOPE
    ensures OutsideLegacyScope(Trace(env, Step(env, db, rs[0]).db, rs[1..]))
  {
    var rest := Trace(env, Step(env, db, rs[0]).db, rs[1..]);
    if Step(env, db, rs[0]).out.Committed? && IsWrite(rs[0]) {
      assert Trace(env, db, rs)[0] == Write(OwnerOf(db, rs[0].grant), rs[0]);
    }
    assert forall w | w in rest :: w in Trace(env, db, rs);
  }

  lemma ImportsLieInLegacyScope(env: Env, db: Db, r: Request, reply: Reply)
    requires Effect(env, db, r, reply) && Quarantined(env, db) && reply.out.Committed? && IsEdit(r)
      && Imported(db, r.memory)
    ensures r.scope == LEGACY_SCOPE
  {
  }

  /** After any run whose committed writes stay out of `legacy:unscoped`, the check still accepts. */
  lemma {:induction false} RunStaysVerified(env: Env, db: Db, rs: seq<Request>)
    requires Inv(env, db) && Verified(env, db) && OutsideLegacyScope(Trace(env, db, rs))
    ensures Verified(env, Run(env, db, rs))
    decreases |rs|
  {
    hide Step, AllSound, Effect, EditPasses, Imported, Untouched, ForeignKeysHold;
    if rs != [] {
      var reply := Step(env, db, rs[0]);
      OutsideStepByStep(env, db, rs);
      StepKeepsInv(env, db, rs[0]);
      StepEffect(env, db, rs[0]);
      VerifiedUnlessImportEdited(env, db, rs[0]);
      if EditsImport(env, db, rs[0]) {
        EditCommitsIff(env, db, rs[0]);
        ImportsLieInLegacyScope(env, db, rs[0], reply);
      }
      RunStaysVerified(env, reply.db, rs[1..]);
    }
  }
}
