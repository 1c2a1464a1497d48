/** How the call that leaves WAL mode ends, told from the point at which trouble strikes and from the rows
    of the tables, and what the self-check asks for, row by row. */
module Outages {
  import opened Sets
  import opened Schema
  import opened Transactions
  import opened Integrity
  import opened Answers
  import opened SelfCheck
  import opened Maintenance

  // ---------------------------------------------------------------- the call

  predicate GoodFail(r: Request)
    requires r.FailGeneration?
  {
    AllSay([r.grant, r.scope, r.at]) && r.building > 0
  }

  /** An admin of the scope names its BUILDING generation beside the one ACTIVE one. */
  ghost predicate MayClean(db: Db, r: Request)
    requires r.FailGeneration?
  {
    Entitled(db, r.grant, r.scope, ADMINS)
    && var owner := db.grants[r.grant].owner;
      var p := ProfileKey(owner, r.scope, r.building);
      (exists g :: OnlyActive(db, owner, r.scope, g)) && p in db.profiles && db.profiles[p].status == Building
  }

  ghost predicate CanDrop(db: Db, r: Request)
    requires r.FailGeneration?
  {
    r.grant in db.grants && TableDroppable(db, db.grants[r.grant].owner, r.scope, r.building)
  }

  /** The call gets to the point, on the tables `before` at the preflight and `base` after the switch. */
  ghost predicate Arrives(before: Db, base: Db, r: Request, p: Point)
    requires r.FailGeneration?
  {
    GoodFail(r) && (p != AtPreflight ==> MayClean(before, r))
    && (p !in {AtPreflight, AtSwitch, AfterSwitch, AtLoad} ==> MayClean(base, r) && CanDrop(base, r))
  }

  ghost predicate Strikes(before: Db, base: Db, r: Request, trouble: Trouble)
    requires r.FailGeneration?
  {
    trouble != Nothing && Arrives(before, base, r, trouble.at)
  }

  /** What the transaction itself fails with. */
  ghost function Failure(before: Db, base: Db, r: Request, trouble: Trouble): Option<Error>
    requires r.FailGeneration?
  {
    if !GoodFail(r) then Some(InvalidArgument)
    else if Strikes(before, base, r, trouble) then Some(Interrupted)
    else if !MayClean(before, r) || !MayClean(base, r) then Some(NotAuthorized)
    else if !CanDrop(base, r) then Some(RuntimeFailure)
    else None
  }

  /** The journal mode is switched, and an exception comes to the handler that switches it back. */
  ghost predicate Switches(before: Db, r: Request, trouble: Trouble)
    requires r.FailGeneration?
  {
    GoodFail(r) && MayClean(before, r) && (trouble != Nothing ==> trouble.at != AtPreflight && trouble.at != AtSwitch)
  }

  ghost predicate Armed(before: Db, r: Request, trouble: Trouble)
    requires r.FailGeneration?
  {
    Switches(before, r, trouble) && (trouble != Nothing ==> trouble.at != AfterSwitch)
  }

  lemma MayFailIff(db: Db, r: Request)
    requires r.FailGeneration?
    ensures MayFail(db, r) <==> MayClean(db, r)
    ensures MayFail(db, r) ==>
      (Droppable(db, ProfileKey(OwnerOf(db, r.grant), r.scope, r.building)) <==> CanDrop(db, r))
  {
    hide Entitled, CanAdmin, OnlyActive, ActiveGenerations, TableDroppable, Droppable;
    EntitledIff(db, r.grant, r.scope);
    if Entitled(db, r.grant, r.scope, ADMINS) {
      EntitledIsThere(db, r.grant, r.scope, ADMINS);
      OneActiveIff(db, db.grants[r.grant].owner, r.scope);
      DroppableIff(db, db.grants[r.grant].owner, r.scope, r.building);
    }
  }

  /** `fail_embedding_generation` with any trouble, answer by answer, and the journal mode that it leaves. */
  lemma EndAnswers(env: Env, disk: Disk, r: Request, during: seq<Request>, trouble: Trouble, fate: Fate)
    requires r.FailGeneration?
    ensures var base := Run(env, disk.db, during);
      var report := Attempt(env, disk, r, during, trouble, fate);
      var failure := Failure(disk.db, base, r, trouble);
      (if trouble.Crash? && Strikes(disk.db, base, r, trouble) then report.end == Crashed
       else if !Armed(disk.db, r, trouble) then failure != None && report.end == Raised(failure.value)
       else report.end == match fate
              case Restores => if failure == None then Returned else Raised(failure.value)
              case RestoreRaises => RecoveryRaised(failure == None)
              case RestoreCrashes => Crashed
              case Escapes => Raised(Interrupted))
      && report.disk.journal ==
         if !Switches(disk.db, r, trouble) then disk.journal
         else if (trouble.Crash? && Strikes(disk.db, base, r, trouble)) || trouble == Raise(AfterSwitch)
                 || fate != Restores
         then Rollback
         else Wal
  {
    hide Run, MayFail, MayClean, CanDrop, Droppable, FailCommit, AllSay, Blank, OwnerOf;
    ThreeArguments(r.grant, r.scope, r.at);
    MayFailIff(disk.db, r);
    MayFailIff(Run(env, disk.db, during), r);
  }

  // ------------------------------------------------------------ the self-check

  /** Every reference from one table to another is to a row that is there. */
  predicate References(db: Db) {
    (forall id | id in db.metadata ::
       id in db.memories && db.metadata[id].creator in db.grants
       && db.grants[db.metadata[id].creator].owner == db.metadata[id].owner)
    && (forall k | k in db.embeddings ::
          k.memory in db.metadata && db.metadata[k.memory].owner == db.embeddings[k].owner
          && db.metadata[k.memory].scope == db.embeddings[k].scope
          && ProfileKey(db.embeddings[k].owner, db.embeddings[k].scope, k.generation) in db.profiles)
    && (forall k | k in db.events ::
          db.events[k].grant in db.grants && db.grants[db.events[k].grant].owner == db.events[k].owner)
    && (forall k | k in db.idem :: k.grant in db.grants && db.grants[k.grant].owner == db.idem[k].owner)
    && forall p | p in db.vectorTables :: p in db.profiles
  }

  /** Opening restores WAL mode exactly if every reference holds, each memory has its metadata, and every
      row that the migration grant made is in quarantine as it was written. */
  lemma ReopenIff(env: Env, disk: Disk)
    ensures var db := disk.db;
      Reopen(env, disk) ==
        if References(db) && db.memories.Keys == db.metadata.Keys
           && forall id | id in db.metadata && db.grants[db.metadata[id].creator].kind == GrantKind.Migration ::
                var m := db.metadata[id];
                [m.scope, m.kind, m.sourceClient, m.contentHash]
                  == ["legacy:unscoped", "legacy", "legacy-import", env.sha256(db.memories[id].content)]
                && m.revision == 1
        then Some(Disk(db, Wal)) else None
  {
    var db := disk.db;
    assert References(db) <==> ForeignKeysHold(db) by { ReferencesIff(db); }
    assert |db.memories| == |db.memories.Keys| && |db.metadata| == |db.metadata.Keys|;
    if References(db) && |db.memories| == |db.metadata| { SameSizeSubset(db.metadata.Keys, db.memories.Keys); }
  }

  lemma ReferencesIff(db: Db)
    ensures References(db) <==> ForeignKeysHold(db)
  {
  }
}
