/** Who may read and who may write, told from the grant rows, over whole runs. */
module Rights {
  import opened Sets
  import opened Schema
  import opened Transactions
  import opened Integrity
  import opened Effects
  import opened Refinement
  import opened Reads
  import opened Order
  import opened Answers

  // -------------------------------------------------------------------- reads

  /** The row is there and live in the scope, and the grant is its owner's, in force, lists the scope, and
      has a right to read: as any grant by its rights, or as the migration grant outside client-facing calls. */
  predicate Readable(db: Db, grant: string, scope: string, clientFacing: bool, id: string) {
    id in db.memories && id in db.metadata && db.metadata[id].scope == scope && db.metadata[id].deletedAt == None
    && grant in db.grants
    && var g := db.grants[grant];
      g.owner == db.metadata[id].owner && g.revokedAt == None && g.unlinkedAt == None && scope in g.memoryScopes
      && if g.kind == GrantKind.Migration then !clientFacing
         else "memory:read" in g.oauthScopes || "memory:admin" in g.oauthScopes
  }

  lemma ShownIff(db: Db, grant: string, scope: string, clientFacing: bool, id: string)
    ensures Shown(db, grant, scope, clientFacing, id) <==> Readable(db, grant, scope, clientFacing, id)
  {
  }

  /** `get_scoped_memory` answers exactly if the row is readable, with the columns of the row. */
  lemma GetIff(db: Db, grant: string, scope: string, clientFacing: bool, id: string)
    ensures Get(db, grant, scope, clientFacing, id) ==
      if !Readable(db, grant, scope, clientFacing, id) then None
      else
        var m := db.metadata[id];
        Some(Record(id, db.memories[id].content, m.revision, scope, m.kind, m.tags, m.contentHash, m.sourceClient,
                    m.conversation, m.actor, m.creator, m.createdAt, m.updatedAt))
  {
    ShownIff(db, grant, scope, clientFacing, id);
  }

  /** `recent_scoped_memories` lists readable rows only, each once, later ones first and equal times by id;
      it has `limit` of them or all; and what it leaves out comes after all that it lists. */
  lemma RecentIff(db: Db, grant: string, scope: string, clientFacing: bool, limit: nat)
    ensures var page := Recent(db, grant, scope, clientFacing, limit);
      (forall i | 0 <= i < |page| :: Readable(db, grant, scope, clientFacing, page[i]))
      && (forall i, j | 0 <= i < j < |page| :: Later(db, page[i], page[j]))
      && (forall id | Readable(db, grant, scope, clientFacing, id) && id !in page ::
            |page| == limit && forall i | 0 <= i < |page| :: Later(db, page[i], id))
      && |page| <= limit
  {
    hide Readable, Before;
    var ids := ShownIds(db, grant, scope, clientFacing);
    var times, page := Times(db.metadata, ids), Recent(db, grant, scope, clientFacing, limit);
    FirstNIsPage(times, limit);
    forall id ensures id in times <==> Readable(db, grant, scope, clientFacing, id)
      ensures id in times ==> times[id] == db.metadata[id].updatedAt
    {
      ShownIff(db, grant, scope, clientFacing, id);
    }
    assert times.Keys == ids;
    forall x, y | x in times && y in times ensures Before(times, x, y) <==> Later(db, x, y) {
      LaterIff(db, times, x, y);
    }
    if id :| id in times && id !in page {
      LeftOut(times, limit, page, id);
    }
  }

  /** A page that leaves a row out is full. */
  lemma LeftOut(times: map<string, string>, n: nat, page: seq<string>, id: string)
    requires Reads.IsPage(times, n, page) && id in times && id !in page
    ensures |page| == n
  {
    PageIsDistinct(times, page);
    DistinctMembers(page);
    assert Members(page) <= times.Keys - {id};
    SubsetSize(Members(page), times.Keys - {id});
    assert |times.Keys - {id}| == |times| - 1;
  }

  lemma PageIsDistinct(times: map<string, string>, page: seq<string>)
    requires (forall i | 0 <= i < |page| :: page[i] in times)
    requires forall i, j | 0 <= i < j < |page| :: Before(times, page[i], page[j])
    ensures Distinct(page)
  {
    forall i, j | 0 <= i < j < |page| ensures page[i] != page[j] {
      BeforeIsTotal(times, page[i], page[j]);
    }
  }

  /** Updated later, or at the same time with the lower id. */
  predicate Later(db: Db, a: string, b: string) {
    a in db.metadata && b in db.metadata
    && (Less(db.metadata[b].updatedAt, db.metadata[a].updatedAt)
        || (db.metadata[a].updatedAt == db.metadata[b].updatedAt && Less(a, b)))
  }

  lemma LaterIff(db: Db, times: map<string, string>, x: string, y: string)
    requires x in times && y in times && x in db.metadata && y in db.metadata
    requires times[x] == db.metadata[x].updatedAt && times[y] == db.metadata[y].updatedAt
    ensures Before(times, x, y) <==> Later(db, x, y)
  {
  }

  // --------------------------------------------------------------- over a run

  predicate OutOfForce(db: Db, grant: string) {
    grant in db.grants && (db.grants[grant].revokedAt != None || db.grants[grant].unlinkedAt != None)
  }

  lemma RevokeTakesForce(env: Env, db: Db, r: Request)
    requires (r.Revoke? || r.Unlink?) && r.grant in db.grants
    ensures OutOfForce(Step(env, db, r).db, r.grant)
  {
  }

  lemma StepKeepsOutOfForce(env: Env, db: Db, r: Request, grant: string)
    requires OutOfForce(db, grant)
    ensures OutOfForce(Step(env, db, r).db, grant)
    ensures Step(env, db, r).out.Committed? ==> IsWrite(r) && r.grant != grant
  {
    hide AddStep, ReplaceStep, RemoveStep, RestoreStep, PurgeStep, CutoverStep, FailStep, WriteEffect, QuietEffect,
         Startable, Backfillable, EnsureStep;
    StepEffect(env, db, r);
    if Step(env, db, r).out.Committed? { WriterIsUsable(env, db, r, Step(env, db, r).db); }
    EnsureKeepsGrants(db, r);
  }

  lemma WriterIsUsable(env: Env, db: Db, r: Request, e: Db)
    requires IsWrite(r) && WriteEffect(env, db, r, e)
    ensures Usable(db, r.grant)
  {
  }

  lemma EnsureKeepsGrants(db: Db, r: Request)
    ensures r.EnsureProfile? ==> EnsureStep(db, r).db.grants == db.grants
  {
    hide LiveProfiles, LiveGenerations;
    if r.EnsureProfile? { OneScopeOnly(db, r); }
  }

  lemma OneScopeOnly(db: Db, r: Request)
    requires r.EnsureProfile?
    ensures EnsureStep(db, r).db == db.(profiles := EnsureStep(db, r).db.profiles)
  {
    hide LiveProfiles, LiveGenerations;
  }

  /** Once a grant has been revoked or unlinked, no call with it ever commits and no read with it ever
      returns anything, whatever runs. */
  lemma {:induction false} RevokedForEver(env: Env, db: Db, rs: seq<Request>, grant: string)
    requires OutOfForce(db, grant)
    ensures OutOfForce(Run(env, db, rs), grant)
    ensures forall w | w in Trace(env, db, rs) :: IsWrite(w.request) && w.request.grant != grant
    decreases |rs|
  {
    hide Step, OutOfForce;
    if rs != [] {
      StepKeepsOutOfForce(env, db, rs[0], grant);
      RevokedForEver(env, Step(env, db, rs[0]).db, rs[1..], grant);
    }
  }

  lemma RevokedReadsNothing(env: Env, db: Db, rs: seq<Request>, grant: string, scope: string, clientFacing: bool,
                            id: string, limit: nat)
    requires OutOfForce(db, grant)
    ensures Get(Run(env, db, rs), grant, scope, clientFacing, id) == None
    ensures Recent(Run(env, db, rs), grant, scope, clientFacing, limit) == []
  {
    hide Run, Recent, Step;
    var f := Run(env, db, rs);
    RevokedForEver(env, db, rs, grant);
    GetIff(f, grant, scope, clientFacing, id);
    RecentIff(f, grant, scope, clientFacing, limit);
    var page := Recent(f, grant, scope, clientFacing, limit);
    var first := if page == [] then id else page[0];
    assert !Readable(f, grant, scope, clientFacing, first);
  }

  lemma {:induction false} GrantsStay(env: Env, db: Db, rs: seq<Request>)
    ensures GrantsKept(db.grants, Run(env, db, rs).grants)
    decreases |rs|
  {
    hide Step, WriteEffect;
    if rs != [] {
      StepEffect(env, db, rs[0]);
      StepKeepsGrants(env, db, rs[0], Step(env, db, rs[0]));
      GrantsStay(env, Step(env, db, rs[0]).db, rs[1..]);
    }
  }

  lemma StepKeepsGrants(env: Env, db: Db, r: Request, reply: Reply)
    requires Effect(env, db, r, reply)
    ensures GrantsKept(db.grants, reply.db.grants)
  {
    hide WriteEffect;
  }

  /** Over every run a grant reads rows of its own owner and of the scopes it was bound with, and no other. */
  lemma ReadsStayInScopes(env: Env, db: Db, rs: seq<Request>, grant: string, scope: string, clientFacing: bool,
                          id: string)
    requires grant in db.grants && Get(Run(env, db, rs), grant, scope, clientFacing, id).Some?
    ensures scope in db.grants[grant].memoryScopes
    ensures id in Run(env, db, rs).metadata && Run(env, db, rs).metadata[id].owner == db.grants[grant].owner
  {
    hide Run, Step;
    GrantsStay(env, db, rs);
    GetIff(Run(env, db, rs), grant, scope, clientFacing, id);
  }

  // ------------------------------------------------------------------- writes

  /** What a call must be entitled to before it changes a table. */
  predicate Bound(g: Grant, r: Request)
    requires IsWrite(r)
  {
    g.kind == GrantKind.OAuth && r.scope in g.memoryScopes
    && (r.Replace? ==> Target(r) in g.memoryScopes)
    && ("memory:admin" in g.oauthScopes || (!r.Restore? && !r.Purge? && "memory:write" in g.oauthScopes))
  }

  lemma CommittedIsBound(env: Env, db: Db, r: Request)
    requires IsWrite(r) && Step(env, db, r).out.Committed?
    ensures r.grant in db.grants && Bound(db.grants[r.grant], r)
  {
    hide Step, GoodAdd, GoodReplace, GoodRow, GoodPurge, Filed, Stands, CoversLive, AddRoom, ReplaceRoom, LogRoom,
         AlikeScopes,
         HasPlace, RowsForLive, PlacesKnown;
    if r.Add? { AddAnswers(env, db, r); }
    else if r.Replace? { ReplaceAnswers(env, db, r); }
    else if r.Remove? { RemoveAnswers(env, db, r); }
    else if r.Restore? { RestoreAnswers(env, db, r); }
    else { PurgeAnswers(env, db, r); }
  }

  /** Over every run, each committed write was made by a grant that lists its scope, and for a move the
      target too: adds, replaces and removes with a right to write, restores and purges with admin. */
  lemma {:induction false} WritesAreBound(env: Env, db: Db, rs: seq<Request>)
    ensures forall w | w in Trace(env, db, rs) ::
      IsWrite(w.request) && w.request.grant in Run(env, db, rs).grants
      && Bound(Run(env, db, rs).grants[w.request.grant], w.request)
      && w.owner == Run(env, db, rs).grants[w.request.grant].owner
    decreases |rs|
  {
    hide Step, Effect, Bound, GrantsKept;
    if rs != [] {
      var r, reply := rs[0], Step(env, db, rs[0]);
      WritesAreBound(env, reply.db, rs[1..]);
      StepEffect(env, db, r);
      if reply.out.Committed? {
        CommittedWrites(env, db, r, reply);
        CommittedIsBound(env, db, r);
        GrantsStay(env, db, rs);
        BoundStays(db.grants, Run(env, db, rs).grants, r);
        assert Trace(env, db, rs) == [Write(OwnerOf(db, r.grant), r)] + Trace(env, reply.db, rs[1..]);
      } else {
        assert Trace(env, db, rs) == Trace(env, reply.db, rs[1..]);
      }
    }
  }

  lemma CommittedWrites(env: Env, db: Db, r: Request, reply: Reply)
    requires Effect(env, db, r, reply) && reply.out.Committed?
    ensures IsWrite(r)
  {
  }

  lemma BoundStays(g: map<string, Grant>, h: map<string, Grant>, r: Request)
    requires GrantsKept(g, h) && IsWrite(r) && r.grant in g && Bound(g[r.grant], r)
    ensures r.grant in h && Bound(h[r.grant], r) && h[r.grant].owner == g[r.grant].owner
  {
  }

  /** A cutover or a failure that applies was made by an admin of the scope. */
  lemma AppliedIsBound(env: Env, db: Db, r: Request)
    requires (r.Cutover? || r.FailGeneration?) && Step(env, db, r).out.Applied?
    ensures Entitled(db, r.grant, r.scope, ADMINS)
  {
    hide Step, OnlyActive, RowForEach, RowsFitToServe, TableDroppable, AllSay;
    if r.Cutover? { CutoverAnswers(env, db, r); } else { FailAnswers(env, db, r); }
  }
}
