/** Crash safety of failing a generation: the one transaction that leaves WAL mode. */
module Maintenance {
  import opened Schema
  import opened Transactions
  import opened Integrity
  import opened Preservation
  import opened Generations
  import opened SelfCheck

  datatype Journal = Wal | Rollback   // PRAGMA journal_mode: WAL, DELETE

  /** What survives a hard stop: the committed tables and the journal mode. */
  datatype Disk = Disk(db: Db, journal: Journal)

  /** The statements at which something can go wrong, in order. */
  datatype Point =
    | AtPreflight     // the read-only authorization
    | AtSwitch        // PRAGMA journal_mode=DELETE
    | AfterSwitch     // the mode is DELETE, `restore_wal` not yet set
    | AtLoad          // loading sqlite-vec, BEGIN IMMEDIATE
    | AfterTable      // the vector table is dropped
    | AfterRows       // the embedding rows are deleted
    | AfterRegistry   // the registration is deleted
    | AfterProfile    // the profile is FAILED
    | AtCommit        // COMMIT raises and rolls back
    | AfterCommit     // COMMIT is durable, `cleanup_committed` not yet set

  datatype Trouble = Nothing | Raise(at: Point) | Crash(at: Point)

  /** What becomes of PRAGMA journal_mode=WAL at the end, whatever happened before. */
  datatype Fate =
    | Restores | RestoreRaises | RestoreCrashes
    | Escapes         // an exception between the handler of the transaction and the one that restores

  datatype End =
    | Returned
    | Raised(error: Error)
    | RecoveryRaised(cleanupCommitted: bool)   // Vec0JournalModeRecoveryError
    | Crashed

  datatype Report = Report(disk: Disk, end: End)

  predicate BeforeCommit(p: Point) {
    p == AfterSwitch || p == AtLoad || p == AfterTable || p == AfterRows || p == AfterRegistry || p == AfterProfile
      || p == AtCommit
  }

  /** The handler after the transaction: back to WAL, or the recovery error with the flag. */
  function Finish(db: Db, flag: bool, primary: Option<Error>, fate: Fate): Report {
    match fate
    case RestoreCrashes => Report(Disk(db, Rollback), Crashed)
    case RestoreRaises => Report(Disk(db, Rollback), RecoveryRaised(flag))
    case Escapes => Report(Disk(db, Rollback), Raised(Interrupted))
    case Restores => Report(Disk(db, Wal), if primary.Some? then Raised(primary.value) else Returned)
  }

  /** The transaction on the maintenance connection, in rollback-journal mode. */
  function Maintain(db: Db, r: Request, trouble: Trouble, fate: Fate): Report
    requires r.FailGeneration?
  {
    var key := ProfileKey(OwnerOf(db, r.grant), r.scope, r.building);
    if trouble == Crash(AfterSwitch) || trouble == Crash(AtLoad) then Report(Disk(db, Rollback), Crashed)
    else if trouble == Raise(AfterSwitch) then Report(Disk(db, Rollback), Raised(Interrupted))
    else if trouble == Raise(AtLoad) then Finish(db, false, Some(Interrupted), fate)
    else if !MayFail(db, r) then Finish(db, false, Some(NotAuthorized), fate)
    else if !Droppable(db, key) then Finish(db, false, Some(RuntimeFailure), fate)
    else if trouble.Crash? && BeforeCommit(trouble.at) then Report(Disk(db, Rollback), Crashed)
    else if trouble.Raise? && BeforeCommit(trouble.at) then Finish(db, false, Some(Interrupted), fate)
    else if trouble == Crash(AfterCommit) then Report(Disk(FailCommit(db, key, r.at), Rollback), Crashed)
    else if trouble == Raise(AfterCommit) then Finish(FailCommit(db, key, r.at), false, Some(Interrupted), fate)
    else Finish(FailCommit(db, key, r.at), true, None, fate)
  }

  /** `fail_embedding_generation`. Between the preflight and the exclusive switch of the journal mode
      other connections may commit the calls `during`. */
  function Attempt(env: Env, disk: Disk, r: Request, during: seq<Request>, trouble: Trouble, fate: Fate): Report
    requires r.FailGeneration?
  {
    if !FailWellFormed(r) then Report(disk, Raised(InvalidArgument))
    else if trouble == Crash(AtPreflight) then Report(disk, Crashed)
    else if trouble == Raise(AtPreflight) then Report(disk, Raised(Interrupted))
    else if !MayFail(disk.db, r) then Report(disk, Raised(NotAuthorized))
    else
      var now := Disk(Run(env, disk.db, during), disk.journal);
      if trouble == Crash(AtSwitch) then Report(now, Crashed)
      else if trouble == Raise(AtSwitch) then Report(now, Raised(Interrupted))
      else Maintain(now.db, r, trouble, fate)
  }

  /** Opening the repository: WAL is restored once the database has verified itself. */
  function Reopen(env: Env, disk: Disk): Option<Disk> {
    if Verified(env, disk.db) then Some(disk.(journal := Wal)) else None
  }

  /** The generation is fully cleaned, compared with `before`: its vector table, rows and registration
      are gone, it is FAILED, and nothing else changed. */
  predicate Cleaned(before: Db, r: Request, after: Db)
    requires r.FailGeneration?
  {
    var key := ProfileKey(OwnerOf(before, r.grant), r.scope, r.building);
    MayFail(before, r)
    && (key in before.vectorTables ==> before.vectorTables[key] !in after.vectors)
    && (forall k | k in after.embeddings :: ProfileOf(after.embeddings, k) != key)
    && key !in after.vectorTables
    && key in after.profiles && after.profiles[key] == before.profiles[key].(status := Failed, retiredAt := Some(r.at))
    && OthersKept(before, key, after)
  }

  /** The commit cleans, and nothing else that cleans differs from it. */
  lemma CleanedIsCommit(before: Db, r: Request, after: Db)
    requires r.FailGeneration? && MayFail(before, r)
    ensures Cleaned(before, r, after)
      <==> after == FailCommit(before, ProfileKey(OwnerOf(before, r.grant), r.scope, r.building), r.at)
  {
    hide CanAdmin, ActiveGenerations, OwnerOf, OthersKept, FailCommit;
    var key := ProfileKey(OwnerOf(before, r.grant), r.scope, r.building);
    CommitCleans(before, key, r.at);
    if Cleaned(before, r, after) { CleanedEquals(before, key, after, r.at); }
  }

  lemma CleanedEquals(before: Db, key: ProfileKey, after: Db, at: string)
    requires key in before.profiles && key in after.profiles && key !in after.vectorTables
      && OthersKept(before, key, after)
    requires after.profiles[key] == before.profiles[key].(status := Failed, retiredAt := Some(at))
    requires forall k | k in after.embeddings :: ProfileOf(after.embeddings, k) != key
    requires key in before.vectorTables ==> before.vectorTables[key] !in after.vectors
    ensures after == FailCommit(before, key, at)
  {
    CleanedProfiles(before, key, after, at);
    CleanedVectors(before, key, after);
  }

  lemma CleanedProfiles(before: Db, key: ProfileKey, after: Db, at: string)
    requires key in before.profiles && key in after.profiles && key !in after.vectorTables
      && OthersKept(before, key, after)
    requires after.profiles[key] == before.profiles[key].(status := Failed, retiredAt := Some(at))
    ensures after.profiles == FailCommit(before, key, at).profiles && after.vectorTables == before.vectorTables - {key}
  {
    assert after.profiles == (after.profiles - {key})[key := after.profiles[key]];
    assert before.profiles[key := after.profiles[key]] == (before.profiles - {key})[key := after.profiles[key]];
    assert after.vectorTables == after.vectorTables - {key};
  }

  lemma CleanedVectors(before: Db, key: ProfileKey, after: Db)
    requires OthersKept(before, key, after) && forall k | k in after.embeddings :: ProfileOf(after.embeddings, k) != key
    requires key in before.vectorTables ==> before.vectorTables[key] !in after.vectors
    ensures after.vectors
      == if key in before.vectorTables then before.vectors - {before.vectorTables[key]} else before.vectors
    ensures after.embeddings == map k | k in before.embeddings && ProfileOf(before.embeddings, k) != key ::
      before.embeddings[k]
  {
    assert forall k | k in after.embeddings :: ProfileOf(after.embeddings, k) == ProfileOf(before.embeddings, k);
  }

  /** The tables as they stood when the transaction could begin. */
  function Base(env: Env, disk: Disk, r: Request, during: seq<Request>, trouble: Trouble): Db
    requires r.FailGeneration?
  {
    if !FailWellFormed(r) || trouble == Crash(AtPreflight) || trouble == Raise(AtPreflight) || !MayFail(disk.db, r)
    then disk.db else Run(env, disk.db, during)
  }

  /** The transaction on `db` gets past its COMMIT. */
  predicate Passes(db: Db, r: Request, trouble: Trouble)
    requires r.FailGeneration?
  {
    MayFail(db, r) && Droppable(db, ProfileKey(OwnerOf(db, r.grant), r.scope, r.building))
    && (trouble.Nothing? || !BeforeCommit(trouble.at))
  }

  predicate Tells(db: Db, r: Request, trouble: Trouble, fate: Fate, report: Report)
    requires r.FailGeneration?
  {
    var key := ProfileKey(OwnerOf(db, r.grant), r.scope, r.building);
    report.disk.db == (if Passes(db, r, trouble) && key in db.profiles then FailCommit(db, key, r.at) else db)
    && (report.end.Returned? ==> Passes(db, r, trouble))
    && (report.end.Raised? && Passes(db, r, trouble) ==> trouble == Raise(AfterCommit) || fate == Escapes)
    && (report.end.RecoveryRaised? ==>
          (report.end.cleanupCommitted <==> Passes(db, r, trouble) && trouble != Raise(AfterCommit)) && fate != Escapes)
    && (report.end.Returned? || report.end.Raised? ==>
          (report.disk.journal == Wal <==> trouble != Raise(AfterSwitch) && fate != Escapes))
    && (report.end.Returned? ==> fate != Escapes && trouble != Raise(AfterCommit))
  }

  lemma MaintainTells(db: Db, r: Request, trouble: Trouble, fate: Fate)
    requires r.FailGeneration?
    ensures Tells(db, r, trouble, fate, Maintain(db, r, trouble, fate))
  {
    hide CanAdmin, ActiveGenerations, OwnerOf, FailCommit, Droppable;
  }

  lemma CleanedDiffers(before: Db, r: Request)
    requires r.FailGeneration?
    ensures !Cleaned(before, r, before)
  {
    hide CanAdmin, ActiveGenerations, OwnerOf, OthersKept;
    if MayFail(before, r) {
      assert before.profiles[ProfileKey(OwnerOf(before, r.grant), r.scope, r.building)].status == Building;
    }
  }

  /** What the tables become, told from the inputs: cleaned exactly if the transaction passes. */
  lemma CleanedIffPasses(db: Db, r: Request, trouble: Trouble, fate: Fate)
    requires r.FailGeneration?
    ensures var after := Maintain(db, r, trouble, fate).disk.db;
      (Cleaned(db, r, after) <==> Passes(db, r, trouble)) && (!Passes(db, r, trouble) ==> after == db)
  {
    hide Maintain, CanAdmin, ActiveGenerations, OwnerOf, FailCommit, Droppable, OthersKept;
    MaintainTells(db, r, trouble, fate);
    CleanedDiffers(db, r);
    if MayFail(db, r) { CleanedIsCommit(db, r, Maintain(db, r, trouble, fate).disk.db); }
  }

  /** The call gets as far as the DELETE mode. */
  predicate Reaches(db: Db, r: Request, trouble: Trouble)
    requires r.FailGeneration?
  {
    FailWellFormed(r) && MayFail(db, r)
    && (trouble.Nothing? || (trouble.at != AtPreflight && trouble.at != AtSwitch))
  }

  lemma AttemptMaintains(env: Env, disk: Disk, r: Request, during: seq<Request>, trouble: Trouble, fate: Fate)
    requires r.FailGeneration?
    ensures var before := Base(env, disk, r, during, trouble);
      var report := Attempt(env, disk, r, during, trouble, fate);
      if Reaches(disk.db, r, trouble) then report == Maintain(before, r, trouble, fate)
      else report.disk == Disk(before, disk.journal) && (report.end.Raised? || report.end.Crashed?)
  {
    hide Run, Maintain, MayFail;
  }

  /** Whatever stops the call, it leaves the generation either untouched or fully cleaned. */
  lemma AllOrNothing(env: Env, disk: Disk, r: Request, during: seq<Request>, trouble: Trouble, fate: Fate)
    requires r.FailGeneration?
    ensures var before := Base(env, disk, r, during, trouble);
      var after := Attempt(env, disk, r, during, trouble, fate).disk.db;
      after == before || Cleaned(before, r, after)
  {
    hide Base, Attempt, Maintain, Cleaned;
    AttemptMaintains(env, disk, r, during, trouble, fate);
    CleanedIffPasses(Base(env, disk, r, during, trouble), r, trouble, fate);
  }

  /** What the end of the call says, told from the inputs alone. The tables are cleaned exactly if the
      transaction passes. A normal return means cleaned; an ordinary exception means untouched and the
      flag of the recovery error tells which, both exactly unless an exception struck after the durable
      COMMIT and before the flag was set or the mode restored. And every return and ordinary exception
      leaves WAL mode, exactly unless an exception struck before the handler that restores it was armed
      or reached. */
  lemma EndTells(env: Env, disk: Disk, r: Request, during: seq<Request>, trouble: Trouble, fate: Fate)
    requires r.FailGeneration? && disk.journal == Wal
    ensures var before := Base(env, disk, r, during, trouble);
      var report := Attempt(env, disk, r, during, trouble, fate);
      var reached := Reaches(disk.db, r, trouble); var passes := reached && Passes(before, r, trouble);
      var cleaned := Cleaned(before, r, report.disk.db);
      var blind := passes && (trouble == Raise(AfterCommit) || fate == Escapes);
      (cleaned <==> passes)
      && (report.end.Returned? ==> cleaned)
      && (report.end.Raised? ==> (!cleaned <==> !blind))
      && (report.end.RecoveryRaised? ==> ((report.end.cleanupCommitted <==> cleaned) <==> !blind))
      && (report.end.Returned? || report.end.Raised? ==>
            (report.disk.journal == Wal <==> !(reached && (trouble == Raise(AfterSwitch) || fate == Escapes))))
  {
    hide Base, Attempt, Maintain, Cleaned, Passes, FailCommit, MayFail, OwnerOf;
    var before := Base(env, disk, r, during, trouble);
    AttemptMaintains(env, disk, r, during, trouble, fate);
    CleanedIffPasses(before, r, trouble, fate);
    CleanedDiffers(before, r);
    MaintainTells(before, r, trouble, fate);
  }

  lemma FailKeepsVerified(env: Env, db: Db, r: Request, after: Db)
    requires r.FailGeneration? && Inv(env, db) && Verified(env, db) && FailWellFormed(r)
    requires Cleaned(db, r, after) && Droppable(db, ProfileKey(OwnerOf(db, r.grant), r.scope, r.building))
    ensures Verified(env, after)
  {
    hide AddStep, ReplaceStep, RemoveStep, RestoreStep, PurgeStep, CutoverStep, OutsideStep, Inv, Verified, OthersKept,
         CanAdmin, ActiveGenerations, OwnerOf, Droppable, FailCommit, EditPasses, SelfCheck.Imported;
    CleanedIsCommit(db, r, after);
    assert FailStep(db, r) == Reply(after, Applied);
    assert Step(env, db, r) == FailStep(db, r);
    VerifiedUnlessImportEdited(env, db, r);
  }

  lemma MaintainStaysVerified(env: Env, db: Db, r: Request, trouble: Trouble, fate: Fate)
    requires r.FailGeneration? && Inv(env, db) && Verified(env, db) && FailWellFormed(r)
    ensures Verified(env, Maintain(db, r, trouble, fate).disk.db)
  {
    hide Maintain, Cleaned, Inv, Verified, OwnerOf, Droppable;
    CleanedIffPasses(db, r, trouble, fate);
    if Passes(db, r, trouble) {
      FailKeepsVerified(env, db, r, Maintain(db, r, trouble, fate).disk.db);
    }
  }

  lemma AttemptCases(env: Env, disk: Disk, r: Request, during: seq<Request>, trouble: Trouble, fate: Fate)
    requires r.FailGeneration? && Inv(env, disk.db)
    ensures Inv(env, Base(env, disk, r, during, trouble))
    ensures var before := Base(env, disk, r, during, trouble);
      var after := Attempt(env, disk, r, during, trouble, fate).disk.db;
      after == before || (FailWellFormed(r) && after == Maintain(before, r, trouble, fate).disk.db)
  {
    hide Inv, Run, MayFail, Maintain;
    RunKeepsInv(env, disk.db, during);
  }

  lemma MaintainKeepsInv(env: Env, db: Db, r: Request, trouble: Trouble, fate: Fate)
    requires r.FailGeneration? && Inv(env, db) && FailWellFormed(r)
    ensures Inv(env, Maintain(db, r, trouble, fate).disk.db)
  {
    var key := ProfileKey(OwnerOf(db, r.grant), r.scope, r.building);
    MaintainTells(db, r, trouble, fate);
    if Passes(db, r, trouble) {
      assert FailStep(db, r) == Reply(FailCommit(db, key, r.at), Applied);
      FailKeepsInv(env, db, r);
    }
  }

  /** The call keeps the integrity of the tables however it ends. */
  lemma AttemptKeepsInv(env: Env, disk: Disk, r: Request, during: seq<Request>, trouble: Trouble, fate: Fate)
    requires r.FailGeneration? && Inv(env, disk.db)
    ensures Inv(env, Attempt(env, disk, r, during, trouble, fate).disk.db)
  {
    AttemptCases(env, disk, r, during, trouble, fate);
    if FailWellFormed(r) {
      MaintainKeepsInv(env, Base(env, disk, r, during, trouble), r, trouble, fate);
    }
  }

  lemma AttemptStaysVerified(env: Env, disk: Disk, r: Request, during: seq<Request>, trouble: Trouble, fate: Fate)
    requires r.FailGeneration? && Inv(env, disk.db) && Verified(env, Base(env, disk, r, during, trouble))
    ensures Verified(env, Attempt(env, disk, r, during, trouble, fate).disk.db)
  {
    AttemptCases(env, disk, r, during, trouble, fate);
    if FailWellFormed(r) {
      MaintainStaysVerified(env, Base(env, disk, r, during, trouble), r, trouble, fate);
    }
  }

  /** After any crash or exception at any step, reopening the repository restores WAL mode on tables
      in which the generation is untouched or fully cleaned. */
  lemma CrashThenReopen(env: Env, disk: Disk, r: Request, during: seq<Request>, trouble: Trouble, fate: Fate)
    requires r.FailGeneration? && Inv(env, disk.db)
    requires Verified(env, Base(env, disk, r, during, trouble))
    ensures var before := Base(env, disk, r, during, trouble);
      var reopened := Reopen(env, Attempt(env, disk, r, during, trouble, fate).disk);
      reopened.Some? && reopened.value.journal == Wal
      && (reopened.value.db == before || Cleaned(before, r, reopened.value.db))
  {
    AllOrNothing(env, disk, r, during, trouble, fate);
    AttemptStaysVerified(env, disk, r, during, trouble, fate);
  }

  /** Cleaning a BUILDING generation keeps every embedding row of the ACTIVE one. */
  lemma CleanedKeepsActive(before: Db, r: Request, after: Db, k: EmbeddingKey)
    requires r.FailGeneration? && Cleaned(before, r, after)
    requires k in before.embeddings && ProfileOf(before.embeddings, k) in before.profiles
    requires before.profiles[ProfileOf(before.embeddings, k)].status == Active
    ensures k in after.embeddings && after.embeddings[k] == before.embeddings[k]
    ensures var p := ProfileOf(before.embeddings, k); p in after.profiles && after.profiles[p] == before.profiles[p]
  {
    var key := ProfileKey(OwnerOf(before, r.grant), r.scope, r.building);
    var p := ProfileOf(before.embeddings, k);
    assert before.profiles[key].status == Building && p != key;
    assert p in before.profiles - {key} && (before.profiles - {key})[p] == before.profiles[p];
    assert p in after.profiles - {key} && (after.profiles - {key})[p] == after.profiles[p];
  }
}
