/** At-most-once commits and stable replay, over whole runs. */
module Idempotency {
  import opened Schema
  import opened Transactions
  import opened Integrity
  import opened Preservation
  import opened Effects
  import opened Refinement

  function KeyOf(r: Request): IdemKey
    requires IsWrite(r)
  {
    IdemKey(r.grant, OperationOf(r), r.key)
  }

  // ------------------------------------------------------------- at most once

  /** How many writes with this (grant, operation, key) a run commits. */
  function Commits(ws: seq<Write>, k: IdemKey): nat
    decreases |ws|
  {
    if ws == [] then 0
    else (if IsWrite(ws[0].request) && KeyOf(ws[0].request) == k then 1 else 0) + Commits(ws[1..], k)
  }

  lemma EffectKeepsKeys(env: Env, db: Db, r: Request, reply: Reply, k: IdemKey)
    requires Effect(env, db, r, reply)
    ensures k in db.idem ==> k in reply.db.idem
    ensures reply.out.Committed? ==> IsWrite(r) && KeyOf(r) !in db.idem && KeyOf(r) in reply.db.idem
  {
  }

  lemma {:induction false} AtMostOnce(env: Env, db: Db, rs: seq<Request>, k: IdemKey)
    ensures Commits(Trace(env, db, rs), k) <= 1
    ensures k in db.idem ==> Commits(Trace(env, db, rs), k) == 0
    decreases |rs|
  {
    if rs != [] {
      var reply := Step(env, db, rs[0]);
      StepEffect(env, db, rs[0]);
      EffectKeepsKeys(env, db, rs[0], reply, k);
      AtMostOnce(env, reply.db, rs[1..], k);
      var rest := Trace(env, reply.db, rs[1..]);
      if reply.out.Committed? {
        assert Trace(env, db, rs)[1..] == rest;
      } else {
        assert Trace(env, db, rs) == rest;
      }
    }
  }

  // --------------------------------------------------------------- the lookup

  lemma {:induction false} FetchFinds(db: Db, owner: string, grant: string, scope: string, key: string,
                                      order: seq<Operation>)
    ensures var k := Fetch(db, owner, grant, scope, key, order);
      if k.None? then forall op | op in order :: !Matches(db, IdemKey(grant, op, key), owner, scope)
      else k.value.grant == grant && k.value.key == key && k.value.operation in order
           && Matches(db, k.value, owner, scope)
    decreases |order|
  {
    if order != [] {
      FetchFinds(db, owner, grant, scope, key, order[1..]);
      assert forall op | op in order :: op == order[0] || op in order[1..];
    }
  }

  /** The lookup answers from some row of the (grant, key, scope), whichever the engine picks. */
  lemma ResolveFinds(db: Db, grant: string, scope: string, op: Operation, key: string, digest: string, pick: Operation)
    ensures Resolve(db, grant, scope, op, key, digest, pick).Unused? <==>
      forall o :: !Matches(db, IdemKey(grant, o, key), OwnerOf(db, grant), scope)
    ensures Matches(db, IdemKey(grant, pick, key), OwnerOf(db, grant), scope) ==>
      Fetch(db, OwnerOf(db, grant), grant, scope, key, [pick] + OPERATIONS) == Some(IdemKey(grant, pick, key))
  {
    var order := [pick] + OPERATIONS;
    FetchFinds(db, OwnerOf(db, grant), grant, scope, key, order);
    forall o: Operation ensures o in order {
      assert o in OPERATIONS by {
        match o
        case OpAdd => assert OPERATIONS[0] == o;
        case OpReplace => assert OPERATIONS[1] == o;
        case OpRemove => assert OPERATIONS[2] == o;
        case OpRestore => assert OPERATIONS[3] == o;
        case OpPurge => assert OPERATIONS[4] == o;
      }
    }
  }

  /** What a row says to a call with the operation and digest it was filed under. */
  function Answer(row: IdemRow): Lookup {
    if row.purgedAt.Some? then Deny(KeyPurged(row.memory))
    else if row.result.None? then Deny(KeyReused) else Replay(row.result.value)
  }

  /** No other row has the grant, key and scope of `k`. */
  predicate AloneInScope(idem: map<IdemKey, IdemRow>, k: IdemKey)
    requires k in idem
  {
    forall j | j in idem && k.grant == j.grant && k.key == j.key && idem[k].scope == idem[j].scope :: j == k
  }

  lemma LoneRowAnswers(db: Db, k: IdemKey, scope: string, digest: string, pick: Operation)
    requires AuditKeysHold(db) && k in db.idem && AloneInScope(db.idem, k)
    requires db.idem[k].scope == scope && (db.idem[k].purgedAt.None? ==> db.idem[k].digest == digest)
    ensures Resolve(db, k.grant, scope, k.operation, k.key, digest, pick) == Answer(db.idem[k])
  {
    FetchFinds(db, OwnerOf(db, k.grant), k.grant, scope, k.key, [pick] + OPERATIONS);
    ResolveFinds(db, k.grant, scope, k.operation, k.key, digest, pick);
    assert Matches(db, IdemKey(k.grant, k.operation, k.key), OwnerOf(db, k.grant), scope);
  }

  // ------------------------------------------------------------ stable replay

  /** A write that files under the scope it looks up finds that scope empty of its grant and key. */
  lemma NewRowIsAlone(env: Env, db: Db, r: Request, e: Db)
    requires IsWrite(r) && !r.Purge? && FiledScope(r) == r.scope && WriteEffect(env, db, r, e) && AuditKeysHold(db)
    ensures forall j | j in db.idem && j.grant == r.grant && j.key == r.key :: db.idem[j].scope != r.scope
  {
    ResolveFinds(db, r.grant, r.scope, OperationOf(r), r.key, r.digest, r.pick);
    forall j | j in db.idem && j.grant == r.grant && j.key == r.key ensures db.idem[j].scope != r.scope {
      assert !Matches(db, IdemKey(r.grant, j.operation, r.key), OwnerOf(db, r.grant), r.scope);
    }
  }

  /** Some purge of `id` for `owner` commits in the run. */
  predicate PurgedIn(ws: seq<Write>, owner: string, id: string) {
    exists w | w in ws :: w.owner == owner && w.request.Purge? && w.request.memory == id
  }

  /** The row as a later purge leaves it, up to the deny digest and the time. */
  predicate Later(row: IdemRow, later: IdemRow, purged: bool) {
    later.owner == row.owner && later.memory == row.memory && later.scope == row.scope
    && if purged then later.purgedAt.Some? else later == row
  }

  lemma EffectAgesRow(env: Env, db: Db, r: Request, reply: Reply, k: IdemKey)
    requires Effect(env, db, r, reply) && k in db.idem
    ensures k in reply.db.idem
    ensures Later(db.idem[k], reply.db.idem[k],
                  reply.out.Committed? && r.Purge? && r.memory == db.idem[k].memory
                    && OwnerOf(db, r.grant) == db.idem[k].owner)
  {
  }

  lemma PurgedInSplit(w: Write, ws: seq<Write>, owner: string, id: string)
    ensures PurgedIn([w] + ws, owner, id) <==>
      (w.owner == owner && w.request.Purge? && w.request.memory == id) || PurgedIn(ws, owner, id)
  {
    assert w in [w] + ws;
    assert forall x | x in ws :: x in [w] + ws;
  }

  lemma ScrubStays(env: Env, db: Db, r: Request, reply: Reply, k: IdemKey)
    requires Effect(env, db, r, reply) && k in db.idem && db.idem[k].purgedAt.Some?
    ensures k in reply.db.idem && reply.db.idem[k].purgedAt.Some?
  {
  }

  lemma {:induction false} ScrubStaysForEver(env: Env, db: Db, rs: seq<Request>, k: IdemKey)
    requires k in db.idem && db.idem[k].purgedAt.Some?
    ensures k in Run(env, db, rs).idem && Run(env, db, rs).idem[k].purgedAt.Some?
    decreases |rs|
  {
    if rs != [] {
      StepEffect(env, db, rs[0]);
      ScrubStays(env, db, rs[0], Step(env, db, rs[0]), k);
      ScrubStaysForEver(env, Step(env, db, rs[0]).db, rs[1..], k);
    }
  }

  /** An idempotency row is final: over any run it stays as it is, until a purge of its memory
      turns it into a deny row, which it then stays. */
  lemma {:induction false} RowAges(env: Env, db: Db, rs: seq<Request>, k: IdemKey)
    requires k in db.idem
    ensures k in Run(env, db, rs).idem
    ensures Later(db.idem[k], Run(env, db, rs).idem[k],
                  PurgedIn(Trace(env, db, rs), db.idem[k].owner, db.idem[k].memory))
    decreases |rs|
  {
    if rs != [] {
      var reply := Step(env, db, rs[0]);
      StepEffect(env, db, rs[0]);
      EffectAgesRow(env, db, rs[0], reply, k);
      RowAges(env, reply.db, rs[1..], k);
      if reply.db.idem[k].purgedAt.Some? {
        ScrubStaysForEver(env, reply.db, rs[1..], k);
      }
      var rest := Trace(env, reply.db, rs[1..]);
      if reply.out.Committed? {
        PurgedInSplit(Write(OwnerOf(db, rs[0].grant), rs[0]), rest, db.idem[k].owner, db.idem[k].memory);
      } else {
        assert Trace(env, db, rs) == rest;
      }
    }
  }

  /** The caller may make the call now: the checks that precede the lookup. */
  predicate Authorized(db: Db, q: Request)
    requires IsWrite(q) && !q.Purge?
  {
    if q.Add? then AddWellFormed(q) && CanWrite(db, q.grant, q.scope)
    else if q.Replace?
    then ReplaceWellFormed(q) && CanWrite(db, q.grant, q.scope) && MayReach(db, q.grant, TargetScope(q))
    else if q.Remove? then RowWellFormed(q) && CanWrite(db, q.grant, q.scope)
    else RowWellFormed(q) && CanAdmin(db, q.grant, q.scope)
  }

  function Answered(db: Db, answer: Lookup): Reply
    requires !answer.Unused?
  {
    if answer.Deny? then Reply(db, Rejected(answer.error)) else Reply(db, Replayed(answer.receipt))
  }

  lemma KnownKeyAnswers(env: Env, db: Db, q: Request, answer: Lookup)
    requires IsWrite(q) && !q.Purge? && Authorized(db, q) && !answer.Unused?
    requires Resolve(db, q.grant, q.scope, OperationOf(q), q.key, q.digest, q.pick) == answer
    ensures Step(env, db, q) == Answered(db, answer)
  {
  }

  /** The same logical call: ids, times, blobs and everything else that the digest leaves out may differ. */
  predicate RetryOf(r: Request, q: Request) {
    IsWrite(r) && IsWrite(q) && !r.Purge? && OperationOf(q) == OperationOf(r)
    && q.grant == r.grant && q.scope == r.scope && q.key == r.key && q.digest == r.digest
  }

  lemma FiledRow(env: Env, db: Db, r: Request, e: Db)
    requires IsWrite(r) && !r.Purge? && WriteEffect(env, db, r, e)
    ensures KeyOf(r) in e.idem
    ensures e.idem[KeyOf(r)] == IdemRow(OwnerOf(db, r.grant), r.actor, r.memory, FiledScope(r), r.digest,
                                        Some(Receipt(r.memory, NextRevision(r), r.at)), r.at, None)
  {
  }

  // --------------------------------------------- where replay is not promised

  lemma FirstOfItsKey(env: Env, db: Db, r: Request, e: Db)
    requires IsWrite(r) && !r.Purge? && WriteEffect(env, db, r, e) && FiledScope(r) == r.scope && AuditKeysHold(db)
    ensures KeyOf(r) in e.idem && AloneInScope(e.idem, KeyOf(r))
  {
    NewRowIsAlone(env, db, r, e);
  }

  lemma MovedIsHidden(env: Env, db: Db, r: Request, e: Db)
    requires r.Replace? && WriteEffect(env, db, r, e) && TargetScope(r) != r.scope && Authorized(e, r)
    ensures Step(env, e, r) == Reply(e, Rejected(NotAuthorized))
  {
    ResolveFinds(db, r.grant, r.scope, OpReplace, r.key, r.digest, r.pick);
    assert OwnerOf(e, r.grant) == OwnerOf(db, r.grant);
    forall o ensures !Matches(e, IdemKey(r.grant, o, r.key), OwnerOf(e, r.grant), r.scope) {
      assert !Matches(db, IdemKey(r.grant, o, r.key), OwnerOf(db, r.grant), r.scope);
    }
    ResolveFinds(e, r.grant, r.scope, OpReplace, r.key, r.digest, r.pick);
    assert Visible(e, r.grant, r.scope, r.memory, r.expected, false) == Some(NotAuthorized);
  }

  /** An immediate retry of a committed write is replayed exactly if the write did not move scopes:
      a move looks its key up under the source scope but files it under the target, so its retry
      finds neither the row nor the memory. */
  lemma RetryReplaysIff(env: Env, db: Db, r: Request)
    requires Inv(env, db) && IsWrite(r) && !r.Purge? && Step(env, db, r).out.Committed?
      && Authorized(Step(env, db, r).db, r)
    ensures var reply := Step(env, db, r);
      Step(env, reply.db, r) == Reply(reply.db, Replayed(reply.out.receipt)) <==> FiledScope(r) == r.scope
  {
    hide Step, AllSound, EmbeddingKeysHold, NeverAbandoned, OneActive, CreatorsExist;
    var reply := Step(env, db, r);
    StepEffect(env, db, r);
    StepKeepsInv(env, db, r);
    if FiledScope(r) == r.scope {
      FiledRow(env, db, r, reply.db);
      FirstOfItsKey(env, db, r, reply.db);
      LoneRowAnswers(reply.db, KeyOf(r), r.scope, r.digest, r.pick);
      KnownKeyAnswers(env, reply.db, r, Answer(reply.db.idem[KeyOf(r)]));
    } else {
      MovedIsHidden(env, db, r, reply.db);
    }
  }

  // ----------------------------------------------------- when every retry replays

  /** A filed row answers whatever row the engine returns first exactly if it is alone under its grant,
      key and scope. */
  lemma EveryPickReplaysIff(db: Db, k: IdemKey, digest: string)
    requires AuditKeysHold(db) && k in db.idem && db.idem[k].purgedAt.None? && db.idem[k].result.Some?
      && db.idem[k].digest == digest
    ensures (forall pick ::
               Resolve(db, k.grant, db.idem[k].scope, k.operation, k.key, digest, pick)
                 == Replay(db.idem[k].result.value))
            <==> AloneInScope(db.idem, k)
  {
    hide Resolve;
    if AloneInScope(db.idem, k) {
      forall pick
        ensures Resolve(db, k.grant, db.idem[k].scope, k.operation, k.key, digest, pick)
          == Replay(db.idem[k].result.value)
      {
        LoneRowAnswers(db, k, db.idem[k].scope, digest, pick);
      }
    } else {
      var j :| j in db.idem && k.grant == j.grant && k.key == j.key && db.idem[k].scope == db.idem[j].scope && j != k;
      OtherRowDenies(db, k, j, digest);
    }
  }

  /** The engine returns the row of another operation first: the call is denied. */
  lemma OtherRowDenies(db: Db, k: IdemKey, j: IdemKey, digest: string)
    requires AuditKeysHold(db) && k in db.idem && j in db.idem && j != k
    requires j.grant == k.grant && j.key == k.key && db.idem[j].scope == db.idem[k].scope
    ensures Resolve(db, k.grant, db.idem[k].scope, k.operation, k.key, digest, j.operation)
         == Deny(if db.idem[j].purgedAt.Some? then KeyPurged(db.idem[j].memory) else KeyReused)
  {
    assert j == IdemKey(k.grant, j.operation, k.key) && j.operation != k.operation;
    assert Matches(db, j, OwnerOf(db, k.grant), db.idem[k].scope);
    ResolveFinds(db, k.grant, db.idem[k].scope, k.operation, k.key, digest, j.operation);
  }

  /** The engine returns the row of the call itself first. */
  lemma OwnRowAnswers(db: Db, k: IdemKey, digest: string)
    requires AuditKeysHold(db) && k in db.idem && (db.idem[k].purgedAt.None? ==> db.idem[k].digest == digest)
    ensures Resolve(db, k.grant, db.idem[k].scope, k.operation, k.key, digest, k.operation) == Answer(db.idem[k])
  {
    assert Matches(db, k, OwnerOf(db, k.grant), db.idem[k].scope);
    ResolveFinds(db, k.grant, db.idem[k].scope, k.operation, k.key, digest, k.operation);
  }

  /** The same call, with the engine returning the row of `pick` first. */
  function WithPick(q: Request, pick: Operation): Request
    requires IsWrite(q) && !q.Purge?
  {
    match q
    case Add(grant, scope, memory, content, kind, tags, conversation, actor, key, digest, at, blobs, _) =>
      Add(grant, scope, memory, content, kind, tags, conversation, actor, key, digest, at, blobs, pick)
    case Replace(grant, scope, memory, expected, content, kind, tags, conversation, actor, key, digest, at, blobs,
                 newScope, _) =>
      Replace(grant, scope, memory, expected, content, kind, tags, conversation, actor, key, digest, at, blobs,
              newScope, pick)
    case Remove(grant, scope, memory, expected, actor, key, digest, at, _) =>
      Remove(grant, scope, memory, expected, actor, key, digest, at, pick)
    case Restore(grant, scope, memory, expected, actor, key, digest, at, _) =>
      Restore(grant, scope, memory, expected, actor, key, digest, at, pick)
  }

  lemma PickChangesNothingElse(db: Db, q: Request, pick: Operation)
    requires IsWrite(q) && !q.Purge?
    ensures var p := WithPick(q, pick);
      IsWrite(p) && !p.Purge? && RetryOf(q, p) && p.pick == pick && (Authorized(db, p) <==> Authorized(db, q))
  {
    hide CanWrite, CanAdmin, MayReach, Blank, ValidBlobs, Texts, OptionalText;
  }

  /** A key that is filed in the scope decides every call with it. */
  lemma FiledKeyDecides(env: Env, db: Db, q: Request, pick: Operation)
    requires IsWrite(q) && !q.Purge? && Authorized(db, q) && AuditKeysHold(db) && KeyOf(q) in db.idem
      && db.idem[KeyOf(q)].scope == q.scope
    ensures var answer := Resolve(db, q.grant, q.scope, OperationOf(q), q.key, q.digest, pick);
      !answer.Unused? && Step(env, db, WithPick(q, pick)) == Answered(db, answer)
  {
    hide Step, Resolve, WithPick, Authorized;
    PickChangesNothingElse(db, q, pick);
    assert Matches(db, IdemKey(q.grant, OperationOf(q), q.key), OwnerOf(db, q.grant), q.scope);
    ResolveFinds(db, q.grant, q.scope, OperationOf(q), q.key, q.digest, pick);
    KnownKeyAnswers(env, db, WithPick(q, pick), Resolve(db, q.grant, q.scope, OperationOf(q), q.key, q.digest, pick));
  }

  /** Two rows under one grant, key and scope: what a retry is told depends on which of them the engine
      returns first. */
  lemma ReusedKeyIsAmbiguous(env: Env, db: Db, q: Request, j: IdemKey)
    requires AuditKeysHold(db) && IsWrite(q) && !q.Purge? && Authorized(db, q) && KeyOf(q) in db.idem
    requires var row := db.idem[KeyOf(q)];
      row.scope == q.scope && row.digest == q.digest && row.purgedAt.None? && row.result.Some?
    requires j in db.idem && j != KeyOf(q) && j.grant == q.grant && j.key == q.key && db.idem[j].scope == q.scope
    ensures Step(env, db, WithPick(q, OperationOf(q))) == Reply(db, Replayed(db.idem[KeyOf(q)].result.value))
    ensures Step(env, db, WithPick(q, j.operation))
         == Reply(db, Rejected(if db.idem[j].purgedAt.Some? then KeyPurged(db.idem[j].memory) else KeyReused))
  {
    hide Step, Resolve, WithPick, Authorized;
    FiledKeyDecides(env, db, q, OperationOf(q));
    FiledKeyDecides(env, db, q, j.operation);
    OwnRowAnswers(db, KeyOf(q), q.digest);
    OtherRowDenies(db, KeyOf(q), j, q.digest);
  }

  /** A purge or scope move filed under the same grant and key into the scope. */
  predicate Clash(r: Request, k: IdemKey, scope: string) {
    IsWrite(r) && (r.Purge? || (r.Replace? && TargetScope(r) != r.scope))
    && r.grant == k.grant && r.key == k.key && FiledScope(r) == scope
  }

  predicate Clashes(ws: seq<Write>, k: IdemKey, scope: string) {
    exists w | w in ws :: Clash(w.request, k, scope)
  }

  /** What a call adds to the idempotency rows. */
  lemma EffectFilesOne(env: Env, db: Db, r: Request, reply: Reply, j: IdemKey)
    requires Effect(env, db, r, reply)
    ensures j in db.idem ==> j in reply.db.idem && reply.db.idem[j].scope == db.idem[j].scope
    ensures reply.out.Committed? ==>
      IsWrite(r) && KeyOf(r) !in db.idem && (j in reply.db.idem <==> j in db.idem || j == KeyOf(r))
      && reply.db.idem[KeyOf(r)].scope == FiledScope(r)
    ensures !reply.out.Committed? ==> (j in reply.db.idem <==> j in db.idem)
  {
    hide Touches, Moves, Stores, Appends, Resolve;
  }

  /** A lone row stays alone exactly unless the call files a clash: any other write with its key is
      answered from the row instead of being filed. */
  lemma EffectKeepsAloneIff(env: Env, db: Db, r: Request, reply: Reply, k: IdemKey)
    requires Effect(env, db, r, reply) && AuditKeysHold(db) && k in db.idem && k in reply.db.idem
    ensures AloneInScope(reply.db.idem, k)
            <==> AloneInScope(db.idem, k) && !(reply.out.Committed? && Clash(r, k, db.idem[k].scope))
  {
    hide Effect, AuditKeysHold;
    forall j ensures (j in db.idem ==> j in reply.db.idem && reply.db.idem[j].scope == db.idem[j].scope)
      ensures j in reply.db.idem && !reply.out.Committed? ==> j in db.idem
      ensures j in reply.db.idem && reply.out.Committed? ==> IsWrite(r) && (j in db.idem || j == KeyOf(r))
    {
      EffectFilesOne(env, db, r, reply, j);
    }
    if reply.out.Committed? {
      EffectFilesOne(env, db, r, reply, k);
      EffectFilesOne(env, db, r, reply, KeyOf(r));
      OnlyClashesJoin(env, db, r, reply, k);
    }
  }

  lemma OnlyClashesJoin(env: Env, db: Db, r: Request, reply: Reply, k: IdemKey)
    requires Effect(env, db, r, reply) && reply.out.Committed? && AuditKeysHold(db) && k in db.idem
    ensures IsWrite(r)
    ensures r.grant == k.grant && r.key == k.key && FiledScope(r) == db.idem[k].scope <==> Clash(r, k, db.idem[k].scope)
  {
    if !(r.Purge? || (r.Replace? && TargetScope(r) != r.scope)) { NewRowIsAlone(env, db, r, reply.db); }
  }

  lemma ClashesSplit(w: Write, ws: seq<Write>, k: IdemKey, scope: string)
    ensures Clashes([w] + ws, k, scope) <==> Clash(w.request, k, scope) || Clashes(ws, k, scope)
  {
    assert w in [w] + ws;
    assert forall x | x in ws :: x in [w] + ws;
  }

  lemma {:induction false} RunKeepsAloneIff(env: Env, db: Db, rs: seq<Request>, k: IdemKey)
    requires Inv(env, db) && k in db.idem
    ensures k in Run(env, db, rs).idem && Run(env, db, rs).idem[k].scope == db.idem[k].scope
    ensures AloneInScope(Run(env, db, rs).idem, k)
      <==> AloneInScope(db.idem, k) && !Clashes(Trace(env, db, rs), k, db.idem[k].scope)
    decreases |rs|
  {
    hide Step, Effect, Clash, Clashes, AloneInScope, AllSound, EmbeddingKeysHold, NeverAbandoned, OneActive,
         CreatorsExist, OneToOne;
    if rs == [] {
      NoClashes(k, db.idem[k].scope);
    } else {
      var reply := Step(env, db, rs[0]);
      StepEffect(env, db, rs[0]);
      StepKeepsInv(env, db, rs[0]);
      EffectFilesOne(env, db, rs[0], reply, k);
      EffectKeepsAloneIff(env, db, rs[0], reply, k);
      RunKeepsAloneIff(env, reply.db, rs[1..], k);
      var rest := Trace(env, reply.db, rs[1..]);
      if reply.out.Committed? {
        ClashesSplit(Write(OwnerOf(db, rs[0].grant), rs[0]), rest, k, db.idem[k].scope);
      } else {
        assert Trace(env, db, rs) == rest;
      }
    }
  }

  lemma NoClashes(k: IdemKey, scope: string)
    ensures !Clashes([], k, scope)
  {
  }

  /** Over any run after a committed write (not a purge, not a move), a retry is replayed whatever row
      the engine returns first exactly if the memory was not purged and no purge or scope move was filed
      under the same grant and key into the scope. */
  lemma ReplaysForEveryPickIff(env: Env, db: Db, r: Request, reply: Reply, rs: seq<Request>, q: Request)
    requires RetryOf(r, q) && FiledScope(r) == r.scope && Authorized(Run(env, reply.db, rs), q)
    requires Inv(env, db) && reply == Step(env, db, r) && reply.out.Committed?
    ensures var f := Run(env, reply.db, rs); var ws := Trace(env, reply.db, rs);
      (forall pick :: Step(env, f, WithPick(q, pick)) == Reply(f, Replayed(reply.out.receipt)))
      <==> !PurgedIn(ws, OwnerOf(db, r.grant), r.memory) && !Clashes(ws, KeyOf(r), r.scope)
  {
    hide Step, Effect, Clashes, PurgedIn, AloneInScope, Authorized, WithPick, Later, AllSound, EmbeddingKeysHold,
         NeverAbandoned, OneActive, CreatorsExist, OneToOne;
    var k, f := KeyOf(r), Run(env, reply.db, rs);
    StepEffect(env, db, r);
    StepKeepsInv(env, db, r);
    CommitIsAlone(env, db, r, reply);
    RunKeepsInv(env, reply.db, rs);
    RunKeepsAloneIff(env, reply.db, rs, k);
    RowAges(env, reply.db, rs, k);
    LaterRow(reply.db.idem[k], f.idem[k], PurgedIn(Trace(env, reply.db, rs), OwnerOf(db, r.grant), r.memory));
    AllPicksReplayIff(env, f, q, reply.out.receipt);
  }

  lemma CommitIsAlone(env: Env, db: Db, r: Request, reply: Reply)
    requires Effect(env, db, r, reply) && reply.out.Committed? && IsWrite(r) && !r.Purge? && FiledScope(r) == r.scope
      && AuditKeysHold(db)
    ensures KeyOf(r) in reply.db.idem && AloneInScope(reply.db.idem, KeyOf(r))
    ensures reply.db.idem[KeyOf(r)] == IdemRow(OwnerOf(db, r.grant), r.actor, r.memory, r.scope, r.digest,
                                               Some(reply.out.receipt), r.at, None)
  {
    FirstOfItsKey(env, db, r, reply.db);
    FiledRow(env, db, r, reply.db);
  }

  lemma LaterRow(row: IdemRow, later: IdemRow, purged: bool)
    requires Later(row, later, purged) && row.purgedAt.None?
    ensures later.scope == row.scope && (later.purgedAt.None? <==> !purged) && (later.purgedAt.None? ==> later == row)
  {
  }

  lemma AllPicksReplayIff(env: Env, f: Db, q: Request, receipt: Receipt)
    requires IsWrite(q) && !q.Purge? && Authorized(f, q) && AuditKeysHold(f) && KeyOf(q) in f.idem
      && f.idem[KeyOf(q)].scope == q.scope
    requires var row := f.idem[KeyOf(q)]; row.purgedAt.None? ==> row.digest == q.digest && row.result == Some(receipt)
    ensures (forall pick :: Step(env, f, WithPick(q, pick)) == Reply(f, Replayed(receipt)))
            <==> AloneInScope(f.idem, KeyOf(q)) && f.idem[KeyOf(q)].purgedAt.None?
  {
    hide Step, Resolve, WithPick, Authorized, AloneInScope, AuditKeysHold;
    var k := KeyOf(q);
    forall pick ensures var answer := Resolve(f, q.grant, q.scope, OperationOf(q), q.key, q.digest, pick);
      !answer.Unused? && Step(env, f, WithPick(q, pick)) == Answered(f, answer)
    {
      FiledKeyDecides(env, f, q, pick);
    }
    if f.idem[k].purgedAt.None? {
      EveryPickReplaysIff(f, k, q.digest);
    } else {
      OwnRowAnswers(f, k, q.digest);
      assert Step(env, f, WithPick(q, OperationOf(q))) == Answered(f, Answer(f.idem[k]));
    }
  }

  /** A lone row answers a call from whatever it has become. */
  lemma AgedRowAnswers(env: Env, f: Db, q: Request, row: IdemRow, purged: bool)
    requires IsWrite(q) && !q.Purge? && Authorized(f, q) && AuditKeysHold(f) && KeyOf(q) in f.idem
      && AloneInScope(f.idem, KeyOf(q))
    requires Later(row, f.idem[KeyOf(q)], purged)
    requires row.scope == q.scope && row.digest == q.digest && row.purgedAt.None? && row.result.Some?
    ensures Step(env, f, q)
      == if purged then Reply(f, Rejected(KeyPurged(row.memory))) else Reply(f, Replayed(row.result.value))
  {
    LoneRowAnswers(f, KeyOf(q), q.scope, q.digest, q.pick);
    KnownKeyAnswers(env, f, q, Answer(f.idem[KeyOf(q)]));
  }

  lemma RowAnswersAfterRun(env: Env, e: Db, rs: seq<Request>, q: Request)
    requires Inv(env, e) && IsWrite(q) && !q.Purge? && Authorized(Run(env, e, rs), q)
    requires KeyOf(q) in e.idem && AloneInScope(e.idem, KeyOf(q)) && !Clashes(Trace(env, e, rs), KeyOf(q), q.scope)
    requires var row := e.idem[KeyOf(q)];
      row.scope == q.scope && row.digest == q.digest && row.purgedAt.None? && row.result.Some?
    ensures var row := e.idem[KeyOf(q)]; var f := Run(env, e, rs);
      Step(env, f, q) == if PurgedIn(Trace(env, e, rs), row.owner, row.memory)
                         then Reply(f, Rejected(KeyPurged(row.memory))) else Reply(f, Replayed(row.result.value))
  {
    hide Step, Clashes, PurgedIn, AloneInScope, Authorized, Later, AllSound, EmbeddingKeysHold, NeverAbandoned,
         OneActive, CreatorsExist, OneToOne;
    var row := e.idem[KeyOf(q)];
    RunKeepsInv(env, e, rs);
    RunKeepsAloneIff(env, e, rs, KeyOf(q));
    RowAges(env, e, rs, KeyOf(q));
    LaterRow(row, Run(env, e, rs).idem[KeyOf(q)], PurgedIn(Trace(env, e, rs), row.owner, row.memory));
    AgedRowAnswers(env, Run(env, e, rs), q, row, PurgedIn(Trace(env, e, rs), row.owner, row.memory));
  }

  /** Stable replay. After `r` committed (not a purge, not a scope move), and after any further run that
      files no purge or scope move under its grant and key into its scope, an authorized retry changes
      nothing: it returns the receipt of `r` until the memory is purged, and from then on it is always
      denied. */
  lemma StableReplay(env: Env, db: Db, r: Request, reply: Reply, rs: seq<Request>, q: Request)
    requires RetryOf(r, q) && FiledScope(r) == r.scope && Authorized(Run(env, reply.db, rs), q)
    requires !Clashes(Trace(env, reply.db, rs), KeyOf(r), r.scope)
    requires Inv(env, db) && reply == Step(env, db, r) && reply.out.Committed?
    ensures var f := Run(env, reply.db, rs);
      Step(env, f, q) == if PurgedIn(Trace(env, reply.db, rs), OwnerOf(db, r.grant), r.memory)
                         then Reply(f, Rejected(KeyPurged(r.memory))) else Reply(f, Replayed(reply.out.receipt))
  {
    hide Step, Run, Effect, Clashes, PurgedIn, AloneInScope, Authorized, AllSound, EmbeddingKeysHold, NeverAbandoned,
         OneActive, CreatorsExist, OneToOne;
    StepEffect(env, db, r);
    StepKeepsInv(env, db, r);
    CommitIsAlone(env, db, r, reply);
    RowAnswersAfterRun(env, reply.db, rs, q);
  }
  // --------------------------------------------------- the log behind a receipt

  lemma ReplayRemembers(db: Db, grant: string, scope: string, op: Operation, key: string, digest: string,
                        pick: Operation)
    requires Resolve(db, grant, scope, op, key, digest, pick).Replay?
    ensures var k := IdemKey(grant, op, key); var receipt := Resolve(db, grant, scope, op, key, digest, pick).receipt;
      k in db.idem && db.idem[k].scope == scope && db.idem[k].digest == digest && db.idem[k].purgedAt.None?
      && db.idem[k].result == Some(receipt)
  {
    FetchFinds(db, OwnerOf(db, grant), grant, scope, key, [pick] + OPERATIONS);
  }

  lemma ReplayedWasFound(env: Env, db: Db, r: Request)
    requires IsWrite(r) && !r.Purge? && Step(env, db, r).out.Replayed?
    ensures Resolve(db, r.grant, r.scope, OperationOf(r), r.key, r.digest, r.pick)
      == Replay(Step(env, db, r).out.receipt)
  {
    hide Resolve, CanWrite, CanAdmin, MayReach, AddWellFormed, ReplaceWellFormed, RowWellFormed, ReplaceRefusal,
         AddFits, Visible, FullyEmbedded, LogsFit, LiveProfiles, OwnerOf, AddCommit, ReplaceCommit, RemoveCommit,
         RestoreCommit, TargetScope;
  }

  /** The event that the receipt of a row names is that of the call which filed the row. */
  predicate BackedBy(k: IdemKey, row: IdemRow, events: map<EventKey, Event>) {
    row.result.Some? ==>
      var receipt := row.result.value; var place := EventKey(receipt.memory, receipt.revision);
      place in events && events[place].grant == k.grant && events[place].operation == k.operation
      && events[place].digest == row.digest && events[place].at == receipt.at
      && events[place].owner == row.owner && events[place].actor == row.actor && receipt.memory == row.memory
  }

  predicate Backed(db: Db) {
    forall k | k in db.idem :: BackedBy(k, db.idem[k], db.events)
  }

  lemma CommitIsBacked(env: Env, db: Db, r: Request, e: Db)
    requires IsWrite(r) && WriteEffect(env, db, r, e) && Backed(db)
    ensures Backed(e)
  {
    hide Touches, Moves, Stores, Resolve, Usable, MayReach;
    assert EventKey(r.memory, NextRevision(r)) !in db.events;
    forall k | k in e.idem ensures BackedBy(k, e.idem[k], e.events) {
      assert k in db.idem ==> BackedBy(k, db.idem[k], db.events);
    }
  }

  /** The two logs agree over every run: what the idempotency table remembers, the event log has. */
  lemma {:induction false} RunKeepsBacked(env: Env, db: Db, rs: seq<Request>)
    requires Backed(db)
    ensures Backed(Run(env, db, rs))
    decreases |rs|
  {
    hide Step, WriteEffect;
    if rs != [] {
      var reply := Step(env, db, rs[0]);
      StepEffect(env, db, rs[0]);
      if reply.out.Committed? { CommitIsBacked(env, db, rs[0], reply.db); }
      RunKeepsBacked(env, reply.db, rs[1..]);
    }
  }

  /** After any run, a replayed receipt is backed by an event of the same grant, operation and digest, at
      the memory, revision and time that it tells. */
  lemma ReplayIsBacked(env: Env, db: Db, rs: seq<Request>, q: Request)
    requires Backed(db) && IsWrite(q) && !q.Purge? && Step(env, Run(env, db, rs), q).out.Replayed?
    ensures var f := Run(env, db, rs); var receipt := Step(env, f, q).out.receipt;
      var place := EventKey(receipt.memory, receipt.revision);
      place in f.events && f.events[place].grant == q.grant && f.events[place].operation == OperationOf(q)
      && f.events[place].digest == q.digest && f.events[place].at == receipt.at
  {
    hide Step, Run, Resolve;
    var f := Run(env, db, rs);
    RunKeepsBacked(env, db, rs);
    ReplayedWasFound(env, f, q);
    ReplayRemembers(f, q.grant, q.scope, OperationOf(q), q.key, q.digest, q.pick);
    var k := KeyOf(q);
    assert BackedBy(k, f.idem[k], f.events);
  }
}
