/** Calls that lead somewhere: what must be possible, and the runs that get there. */
module Progress {
  import opened Schema
  import opened Transactions
  import opened Integrity
  import opened Preservation
  import opened Effects
  import opened Answers
  import opened Rows
  import opened EventLog
  import opened Generations
  import opened Counterexamples

  // ------------------------------------------------------------------ cutover

  /** A generation is ACTIVE in the scope, with a row for each memory, and another one is BUILDING beside it
      without a table of its own; what rows it has are fit to serve. */
  ghost predicate UnderWay(db: Db, owner: string, scope: string, active: int, building: int) {
    var p := ProfileKey(owner, scope, building);
    active != building && OnlyActive(db, owner, scope, active) && RowForEach(db, owner, scope, active)
    && p in db.profiles && db.profiles[p].status == Building && p !in db.vectorTables
    && RowsFitToServe(db, owner, scope, building)
  }

  /** The memories of the scope that the building generation has no row for. */
  function Missing(db: Db, owner: string, scope: string, g: int): set<string> {
    set id | id in db.metadata && db.metadata[id].owner == owner && db.metadata[id].scope == scope
             && EmbeddingKey(id, g) !in db.embeddings
  }

  function Backfills(db: Db, id: string, owner: string, scope: string, g: int, rowId: string, at: string): Request
    requires ProfileKey(owner, scope, g) in db.profiles
  {
    Backfill(id, ProfileKey(owner, scope, g),
             Embedding(rowId, owner, scope, db.profiles[ProfileKey(owner, scope, g)].provenance, [0 as bv8], None, at))
  }

  lemma FreshRowId(rows: map<EmbeddingKey, Embedding>) returns (t: string)
    ensures EmbeddingIdFree(rows, t)
  {
    t := NewText(set k | k in rows :: rows[k].id);
  }

  /** One more memory is backfilled. */
  lemma BackfillOne(env: Env, db: Db, owner: string, scope: string, active: int, building: int, id: string,
                    rowId: string, at: string)
    requires UnderWay(db, owner, scope, active, building) && id in Missing(db, owner, scope, building)
    requires EmbeddingIdFree(db.embeddings, rowId)
    ensures var e := Step(env, db, Backfills(db, id, owner, scope, building, rowId, at)).db;
      UnderWay(e, owner, scope, active, building) && e.grants == db.grants
      && Missing(e, owner, scope, building) == Missing(db, owner, scope, building) - {id}
  {
    hide AddStep, ReplaceStep, RemoveStep, RestoreStep, PurgeStep, CutoverStep, FailStep;
    var r := Backfills(db, id, owner, scope, building, rowId, at);
    var e := Step(env, db, r).db;
    assert Backfillable(db, id, r.profile, r.row);
    assert e == db.(embeddings := db.embeddings[EmbeddingKey(id, building) := r.row]);
    forall x ensures EmbeddingKey(x, active) in e.embeddings <==> EmbeddingKey(x, active) in db.embeddings
      ensures EmbeddingKey(x, active) in db.embeddings ==>
        e.embeddings[EmbeddingKey(x, active)] == db.embeddings[EmbeddingKey(x, active)]
    {
    }
  }

  lemma NothingMissing(db: Db, owner: string, scope: string, g: int)
    requires EmbeddingKeysHold(db) && Missing(db, owner, scope, g) == {}
    ensures RowForEach(db, owner, scope, g)
  {
    forall id ensures (id in db.metadata && db.metadata[id].owner == owner && db.metadata[id].scope == scope)
      <==> (EmbeddingKey(id, g) in db.embeddings && db.embeddings[EmbeddingKey(id, g)].owner == owner
            && db.embeddings[EmbeddingKey(id, g)].scope == scope)
    {
      assert id !in Missing(db, owner, scope, g);
    }
  }

  /** From a building generation that is under way, backfilling what is missing leads to a cutover that an
      admin's call applies. */
  lemma {:induction false} BackfillThenCutover(env: Env, db: Db, r: Request) returns (rs: seq<Request>)
    requires Inv(env, db) && r.Cutover? && AllSay([r.grant, r.scope, r.at]) && r.expected > 0 && r.building > 0
    requires Entitled(db, r.grant, r.scope, ADMINS)
    requires UnderWay(db, db.grants[r.grant].owner, r.scope, r.expected, r.building)
    ensures forall q | q in rs :: q.Backfill?
    ensures Step(env, Run(env, db, rs), r).out.Applied?
    decreases Missing(db, db.grants[r.grant].owner, r.scope, r.building)
  {
    hide Step, AllSound, OneToOne, CreatorsExist, AuditKeysHold, NeverAbandoned, OneActive, RowForEach, RowsFitToServe,
         OnlyActive, AllSay;
    var owner := db.grants[r.grant].owner;
    var missing := Missing(db, owner, r.scope, r.building);
    if missing == {} {
      rs := [];
      NothingMissing(db, owner, r.scope, r.building);
      CutoverAnswers(env, db, r);
    } else {
      var id :| id in missing;
      var rowId := FreshRowId(db.embeddings);
      var q := Backfills(db, id, owner, r.scope, r.building, rowId, r.at);
      BackfillOne(env, db, owner, r.scope, r.expected, r.building, id, rowId, r.at);
      StepKeepsInv(env, db, q);
      var more := BackfillThenCutover(env, Step(env, db, q).db, r);
      rs := [q] + more;
    }
  }

  /** Starting a new generation puts it under way: no row and no table can belong to it yet. */
  lemma StartIsUnderWay(env: Env, db: Db, owner: string, scope: string, active: int, building: int,
                        identity: Provenance, at: string)
    requires Inv(env, db) && OnlyActive(db, owner, scope, active) && RowForEach(db, owner, scope, active)
    requires building > 0 && ProfileKey(owner, scope, building) !in db.profiles
    ensures var e := Step(env, db, StartBuild(ProfileKey(owner, scope, building), identity, at)).db;
      UnderWay(e, owner, scope, active, building) && e.grants == db.grants
  {
    hide Step, LiveProfiles, Inv, RowForEach;
    StartAdds(env, db, owner, scope, active, ProfileKey(owner, scope, building), identity, at);
    NothingOfIt(env, db, ProfileKey(owner, scope, building));
    SameRowForEach(db, Step(env, db, StartBuild(ProfileKey(owner, scope, building), identity, at)).db, owner, scope,
                   active);
  }

  lemma StartAdds(env: Env, db: Db, owner: string, scope: string, active: int, p: ProfileKey, identity: Provenance,
                  at: string)
    requires OnlyActive(db, owner, scope, active) && p.owner == owner && p.scope == scope && p.generation > 0
    requires p !in db.profiles
    ensures Step(env, db, StartBuild(p, identity, at)).db
         == db.(profiles := db.profiles[p := Profile(identity, Building, at, None, None)])
  {
    hide AddStep, ReplaceStep, RemoveStep, RestoreStep, PurgeStep, CutoverStep, FailStep, LiveProfiles;
    var first := ProfileKey(owner, scope, active);
    assert first in db.profiles && db.profiles[first].status == Active;
    LiveMeansServed(db.profiles, owner, scope);
  }

  /** No embedding row and no table belongs to a generation without a profile. */
  lemma NothingOfIt(env: Env, db: Db, p: ProfileKey)
    requires Inv(env, db) && p !in db.profiles
    ensures p !in db.vectorTables
    ensures forall k | k in db.embeddings && db.embeddings[k].owner == p.owner && db.embeddings[k].scope == p.scope ::
      k.generation != p.generation
  {
    hide AllSound, CreatorsExist, AuditKeysHold, OneToOne, OneActive, NeverAbandoned;
    forall k | k in db.embeddings && db.embeddings[k].owner == p.owner && db.embeddings[k].scope == p.scope
      ensures k.generation != p.generation
    {
      assert ProfileOf(db.embeddings, k) in db.profiles;
    }
  }

  lemma SameRowForEach(db: Db, e: Db, owner: string, scope: string, g: int)
    requires e.metadata == db.metadata && e.embeddings == db.embeddings
    ensures RowForEach(e, owner, scope, g) <==> RowForEach(db, owner, scope, g)
  {
  }

  /** From a scope whose ACTIVE generation has a row for each memory, the start of a new generation, its
      backfill and the call of an admin make that generation the ACTIVE one. */
  lemma StartToCutover(env: Env, db: Db, r: Request, identity: Provenance) returns (rs: seq<Request>)
    requires Inv(env, db) && r.Cutover? && AllSay([r.grant, r.scope, r.at]) && r.expected > 0 && r.building > 0
    requires Entitled(db, r.grant, r.scope, ADMINS)
    requires var owner := db.grants[r.grant].owner;
      OnlyActive(db, owner, r.scope, r.expected) && RowForEach(db, owner, r.scope, r.expected)
      && ProfileKey(owner, r.scope, r.building) !in db.profiles
    ensures rs != [] && rs[0].StartBuild? && forall q | q in rs[1..] :: q.Backfill?
    ensures Step(env, Run(env, db, rs), r).out.Applied?
    ensures OnlyActive(Step(env, Run(env, db, rs), r).db, db.grants[r.grant].owner, r.scope, r.building)
  {
    hide Step, Inv, RowForEach, OnlyActive, AllSay, UnderWay;
    var owner := db.grants[r.grant].owner;
    var q := StartBuild(ProfileKey(owner, r.scope, r.building), identity, r.at);
    StartIsUnderWay(env, db, owner, r.scope, r.expected, r.building, identity, r.at);
    StepKeepsInv(env, db, q);
    var e := Step(env, db, q).db;
    var more := BackfillThenCutover(env, e, r);
    rs := [q] + more;
    RunKeepsInv(env, e, more);
    BackfillsKeepGrants(env, e, more);
    CutoverIsComplete(env, Run(env, e, more), r, "");
    OnlyActiveIff(Step(env, Run(env, e, more), r).db, owner, r.scope, r.building);
  }

  lemma {:induction false} BackfillsKeepGrants(env: Env, db: Db, rs: seq<Request>)
    requires forall q | q in rs :: q.Backfill?
    ensures Run(env, db, rs).grants == db.grants
    decreases |rs|
  {
    if rs != [] {
      assert rs[0] in rs;
      BackfillsKeepGrants(env, Step(env, db, rs[0]).db, rs[1..]);
    }
  }

  /** A case in point: one stored memory, and the generations 1 and 2. */
  lemma StoredCutsOver() returns (rs: seq<Request>)
    ensures var r := Cutover("writer", LEGACY_SCOPE, 1, 2, "t");
      Step(plain, Run(plain, stored, rs), r).out.Applied?
      && OnlyActive(Step(plain, Run(plain, stored, rs), r).db, "owner", LEGACY_SCOPE, 2)
  {
    hide Inv, Step, Run, Blank, Says, Entitled, CanWrite, CanAdmin;
    var r := Cutover("writer", LEGACY_SCOPE, 1, 2, "t");
    StoredIsSound();
    Words();
    ThreeArguments(r.grant, r.scope, r.at);
    WriterMay(stored);
    EntitledIff(stored, "writer", LEGACY_SCOPE);
    assert stored.grants["writer"].owner == "owner";
    assert OnlyActive(stored, "owner", LEGACY_SCOPE, 1);
    assert RowForEach(stored, "owner", LEGACY_SCOPE, 1);
    rs := StartToCutover(plain, stored, r, provenance);
  }

  // ------------------------------------------------------------------ restore

  /** An admin's restore right after a remove commits exactly if the memory has a row of its scope for each
      live generation: a generation started since and not backfilled is what refuses it. */
  lemma RestoreAfterRemoveIff(env: Env, db: Db, r: Request, q: Request)
    requires Inv(env, db) && r.Remove? && Step(env, db, r).out.Committed?
    requires q.Restore? && GoodRow(q) && q.memory == r.memory && q.scope == r.scope && q.expected == r.expected + 1
    requires var e := Step(env, db, r).db;
      Entitled(e, q.grant, q.scope, ADMINS) && r.grant in e.grants && e.grants[q.grant].owner == e.grants[r.grant].owner
      && !KeyFiled(e, q) && LogRoom(env, e, q)
    ensures var e := Step(env, db, r).db;
      Step(env, e, q).out.Committed? <==> RowsForLive(db, q.memory, e.grants[q.grant].owner, q.scope)
  {
    hide Step, AllSound, GoodRow, Entitled, KeyFiled, KeyTells, LogRoom, RowsForLive, EmbeddingKeysHold, CreatorsExist,
         AuditKeysHold, NeverAbandoned, OneActive, LogsOf;
    var e := Step(env, db, r).db;
    RemoveAnswers(env, db, r);
    RemoveWrites(env, db, r);
    RestoreAnswers(env, e, q);
    EntitledIsThere(e, q.grant, q.scope, ADMINS);
    SameLiveRows(db, e, q.memory, e.grants[q.grant].owner, q.scope);
    KeyNeverCommits(env, db, r);
  }

  lemma SameLiveRows(db: Db, e: Db, id: string, owner: string, scope: string)
    requires e.profiles == db.profiles && e.embeddings == db.embeddings
    ensures RowsForLive(e, id, owner, scope) <==> RowsForLive(db, id, owner, scope)
  {
    forall g ensures Lives(e, owner, scope, g) <==> Lives(db, owner, scope, g) {
    }
  }

  /** A filed key is answered and never commits. */
  lemma KeyNeverCommits(env: Env, db: Db, r: Request)
    requires IsWrite(r) && !r.Purge?
    ensures KeyTells(db, r, Step(env, db, r).out) ==> !Step(env, db, r).out.Committed?
  {
    hide Step, Filed;
  }
}
