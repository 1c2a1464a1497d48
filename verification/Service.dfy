/** The use cases `add`, `replace` and `remove` of the service: the outermost layer of a retry. */
module Service {
  import opened Schema
  import opened Transactions
  import opened Integrity
  import opened Preservation
  import opened Effects
  import opened Refinement
  import opened Idempotency
  import opened Generations
  import opened Adapter

  datatype Context = Context(grant: string, owner: string, actor: string, client: string,
                             oauthScopes: seq<string>, memoryScopes: seq<string>)

  datatype Payload =
    | AddPayload(content: string, scope: string, kind: string, tags: seq<string>, conversation: Option<string>,
                 key: string)
    | ReplacePayload(memory: string, expected: int, content: string, scope: string, newScope: Option<string>,
                     kind: string, tags: seq<string>, conversation: Option<string>, key: string)
    | RemovePayload(memory: string, expected: int, scope: string, key: string)

  /** One call: what the client sent, and what the id factory, the clocks, the embedder and the
      engine contribute to it. */
  datatype Call = Call(ctx: Context, payload: Payload, encoded: Option<map<int, Blob>>,
                       id: string, at: string, clock: nat -> string, pick: Operation)

  /** The keyed digest is a function of operation and payload alone. */
  datatype Server = Server(env: Env, identity: Identity, digest: Payload -> string)

  datatype Code =
    | InsufficientScope | NotPermitted | Conflict(current: int) | ReusedKey | PurgedKey
    | Unavailable | Invalid | Internal

  datatype Answer = Ok(receipt: Receipt) | Fail(code: Code)

  datatype Result = Result(db: Db, answer: Answer)

  /** `_translate` and `_map_error` */
  function MapError(e: Error): Code {
    match e
    case InvalidArgument => Invalid
    case NotAuthorized => NotPermitted
    case RevisionConflict(current) => Conflict(current)
    case KeyReused => ReusedKey
    case KeyPurged(_) => PurgedKey
    case EmbeddingUnavailable => Unavailable
    case ConstraintFailed => Internal
    case RuntimeFailure => Internal
    case Interrupted => Internal
  }

  predicate HasOAuthScope(ctx: Context, required: string) {
    required in ctx.oauthScopes || "memory:admin" in ctx.oauthScopes
  }

  function TargetScopes(p: Payload): seq<string> {
    if p.ReplacePayload? && p.newScope.Some? then [p.scope, p.newScope.value] else [p.scope]
  }

  /** The scopes that the adapter provisions. */
  function ProvisionedScopes(p: Payload): seq<string> {
    if p.ReplacePayload? && p.newScope.Some? && p.newScope.value != p.scope
    then [p.scope, p.newScope.value] else [p.scope]
  }

  function CoreRequest(s: Server, c: Call, blobs: map<int, Blob>): Request {
    match c.payload
    case AddPayload(content, scope, kind, tags, conversation, key) =>
      Add(c.ctx.grant, scope, c.id, content, kind, tags, conversation, c.ctx.actor, key, s.digest(c.payload), c.at,
          blobs, c.pick)
    case ReplacePayload(memory, expected, content, scope, newScope, kind, tags, conversation, key) =>
      Replace(c.ctx.grant, scope, memory, expected, content, kind, tags, conversation, c.ctx.actor, key,
              s.digest(c.payload), c.at, blobs, newScope, c.pick)
    case RemovePayload(memory, expected, scope, key) =>
      Remove(c.ctx.grant, scope, memory, expected, c.ctx.actor, key, s.digest(c.payload), c.at, c.pick)
  }

  function Respond(reply: Reply): Result {
    match reply.out
    case Rejected(e) => Result(reply.db, Fail(MapError(e)))
    case Replayed(receipt) => Result(reply.db, Ok(receipt))
    case Committed(receipt) => Result(reply.db, Ok(receipt))
    case Applied => Result(reply.db, Fail(Internal))
  }

  /** What the layers above the repository make of a call: an answer of their own, or a request. */
  datatype Arrival = Turned(code: Code) | Passed(request: Request)

  datatype Entrance = Entrance(db: Db, arrival: Arrival)

  function Enter(s: Server, db: Db, c: Call): Entrance {
    if !HasOAuthScope(c.ctx, "memory:write") then Entrance(db, Turned(InsufficientScope))
    else if !(forall scope | scope in TargetScopes(c.payload) :: scope in c.ctx.memoryScopes)
      then Entrance(db, Turned(NotPermitted))
    else if c.payload.RemovePayload? then Entrance(db, Passed(CoreRequest(s, c, map[])))
    else if c.encoded.None? then Entrance(db, Turned(Unavailable))
    else
      var prepared := Prepare(s.identity, db, c.ctx.grant, ProvisionedScopes(c.payload), c.encoded.value, c.clock);
      Entrance(prepared.db,
            if prepared.outcome.Refused? then Turned(MapError(prepared.outcome.error))
            else Passed(CoreRequest(s, c, prepared.outcome.blobs)))
  }

  /** One call of the service. Other connections may commit `between` after the adapter has
      provisioned profiles and before the repository begins its transaction. */
  function Serve(s: Server, db: Db, c: Call, between: seq<Request>): Result {
    var entry := Enter(s, db, c);
    match entry.arrival
    case Turned(code) => Result(entry.db, Fail(code))
    case Passed(r) => Respond(Step(s.env, Run(s.env, entry.db, between), r))
  }

  // ------------------------------------------------------------- the first call

  /** The row that answers a retry of `r` with `receipt`. */
  predicate Remembered(idem: map<IdemKey, IdemRow>, r: Request, receipt: Receipt)
    requires IsWrite(r)
  {
    KeyOf(r) in idem
    && var row := idem[KeyOf(r)];
      row.scope == r.scope && row.digest == r.digest && row.purgedAt.None? && row.result == Some(receipt)
  }

  /** If the key was filed before, it has no second row in the scope: for a new key there is nothing to ask. */
  predicate NotShared(idem: map<IdemKey, IdemRow>, k: IdemKey, scope: string) {
    k in idem ==> forall j | j in idem && j.grant == k.grant && j.key == k.key && idem[j].scope == scope :: j == k
  }

  lemma OkIsRemembered(env: Env, db: Db, r: Request, reply: Reply)
    requires Inv(env, db) && IsWrite(r) && !r.Purge? && FiledScope(r) == r.scope && reply == Step(env, db, r)
    requires NotShared(db.idem, KeyOf(r), r.scope) && (reply.out.Committed? || reply.out.Replayed?)
    ensures Inv(env, reply.db) && Remembered(reply.db.idem, r, ReceiptOf(reply.out))
      && AloneInScope(reply.db.idem, KeyOf(r))
    ensures reply.db.grants == db.grants
  {
    hide Step, AllSound, EmbeddingKeysHold, NeverAbandoned, OneActive, CreatorsExist, Resolve;
    StepEffect(env, db, r);
    StepKeepsInv(env, db, r);
    if reply.out.Committed? {
      CommitIsAlone(env, db, r, reply);
    } else {
      ReplayedWasFound(env, db, r);
      ReplayRemembers(db, r.grant, r.scope, OperationOf(r), r.key, r.digest, r.pick);
    }
  }

  function ReceiptOf(out: Outcome): Receipt
    requires out.Committed? || out.Replayed?
  {
    out.receipt
  }

  lemma AcceptedWasAuthorized(env: Env, db: Db, r: Request)
    requires IsWrite(r) && !r.Purge? && (Step(env, db, r).out.Committed? || Step(env, db, r).out.Replayed?)
    ensures Authorized(db, r)
  {
    hide Resolve, CanWrite, CanAdmin, MayReach, AddWellFormed, ReplaceWellFormed, RowWellFormed, ReplaceRefusal,
         AddFits, Visible, FullyEmbedded, LogsFit, LiveProfiles, OwnerOf, AddCommit, ReplaceCommit, RemoveCommit,
         RestoreCommit, TargetScope;
  }

  /** The write names one scope only. */
  predicate StaysInScope(p: Payload) {
    p.ReplacePayload? && p.newScope.Some? ==> p.newScope.value == p.scope
  }

  /** The operation and the key under which a call is filed. */
  function KeyFor(c: Call): IdemKey {
    IdemKey(c.ctx.grant, match c.payload case AddPayload(_, _, _, _, _, _) => OpAdd
                                         case ReplacePayload(_, _, _, _, _, _, _, _, _) => OpReplace
                                         case RemovePayload(_, _, _, _) => OpRemove,
            c.payload.key)
  }

  lemma CoreRequestKeeps(s: Server, c: Call, d: Call, blobs: map<int, Blob>, more: map<int, Blob>)
    requires c.ctx == d.ctx && c.payload == d.payload && StaysInScope(c.payload)
    ensures var r := CoreRequest(s, c, blobs); var q := CoreRequest(s, d, more);
      IsWrite(r) && !r.Purge? && !r.Restore? && FiledScope(r) == r.scope && r.scope == c.payload.scope
      && r.grant == c.ctx.grant
      && RetryOf(r, q) && KeyOf(r) == KeyFor(c) && KeyOf(q) == KeyFor(c)
  {
  }

  /** The embedder answered with one vector of whole floats; a remove does not ask it. */
  predicate SingleVector(c: Call) {
    c.payload.RemovePayload?
    || (c.encoded.Some? && c.encoded.value.Keys == {DEFAULT_GENERATION}
        && c.encoded.value[DEFAULT_GENERATION] != [] && |c.encoded.value[DEFAULT_GENERATION]| % 4 == 0)
  }

  function DimensionOf(c: Call): int
    requires SingleVector(c)
  {
    if c.payload.RemovePayload? then 0 else |c.encoded.value[DEFAULT_GENERATION]| / 4
  }

  /** The stored profiles of the scope are those of the running embedder. */
  predicate EmbedderMatches(s: Server, f: Db, d: Call)
    requires SingleVector(d)
  {
    d.payload.RemovePayload?
    || AllMatch(LiveProfiles(f.profiles, OwnerOf(f, d.ctx.grant), d.payload.scope),
                Expected(s.identity, DimensionOf(d)))
  }

  lemma EnterKeeps(s: Server, db: Db, c: Call)
    requires Inv(s.env, db) && SingleVector(c) && StaysInScope(c.payload)
    ensures var e := Enter(s, db, c).db;
      Inv(s.env, e) && e.idem == db.idem && e.grants == db.grants
      && (Enter(s, db, c).arrival.Passed? && !c.payload.RemovePayload? ==>
            c.ctx.grant in db.grants && LiveProfiles(e.profiles, OwnerOf(db, c.ctx.grant), c.payload.scope) != map[]
            && EmbedderMatches(s, e, c))
  {
    hide Inv, LiveProfiles, EnsureAll, AllMatch, OwnerOf, CoreRequest, HasOAuthScope;
    if !c.payload.RemovePayload? {
      PreparedCovers(s.env, s.identity, db, c.ctx.grant, c.payload.scope, c.encoded.value, c.clock);
      SameOwner(db, Enter(s, db, c).db, c.ctx.grant);
    }
  }

  lemma SameOwner(db: Db, e: Db, grant: string)
    ensures db.grants == e.grants ==> OwnerOf(e, grant) == OwnerOf(db, grant)
  {
  }

  /** What an answered call leaves behind: its receipt, filed alone under its key and scope. */
  predicate Answers(s: Server, e: Db, c: Call, receipt: Receipt) {
    KeyFor(c) in e.idem && AloneInScope(e.idem, KeyFor(c))
    && var row := e.idem[KeyFor(c)];
      row.scope == c.payload.scope && row.digest == s.digest(c.payload) && row.purgedAt.None?
        && row.result == Some(receipt)
  }

  /** An answered call has filed its receipt, and its caller may write. */
  lemma FirstCall(s: Server, db: Db, c: Call, between: seq<Request>)
    requires Inv(s.env, db) && SingleVector(c) && StaysInScope(c.payload)
    requires NotShared(Run(s.env, Enter(s, db, c).db, between).idem, KeyFor(c), c.payload.scope)
    requires Serve(s, db, c, between).answer.Ok?
    ensures var m := Run(s.env, Enter(s, db, c).db, between); var e := Serve(s, db, c, between).db;
      Enter(s, db, c).arrival.Passed? && Inv(s.env, e) && Answers(s, e, c, Serve(s, db, c, between).answer.receipt)
      && e.grants == m.grants && CanWrite(m, c.ctx.grant, c.payload.scope)
    ensures var r := Enter(s, db, c).arrival.request; var m := Run(s.env, Enter(s, db, c).db, between);
      IsWrite(r) && !r.Purge? && Authorized(m, r)
  {
    hide Inv, LiveProfiles, Step, Run, Authorized, Enter, CoreRequest, OwnerOf, IsWrite, FiledScope, AloneInScope,
         CanWrite, NotShared, RetryOf;
    EnterKeeps(s, db, c);
    FirstRequest(s, db, c);
    var entry := Enter(s, db, c);
    var m, r := Run(s.env, entry.db, between), entry.arrival.request;
    RunKeepsInv(s.env, entry.db, between);
    var blobs :| r == CoreRequest(s, c, blobs);
    CoreRequestKeeps(s, c, c, blobs, blobs);
    OkIsRemembered(s.env, m, r, Step(s.env, m, r));
    AcceptedWasAuthorized(s.env, m, r);
    AuthorizedWrites(m, r);
    DigestOf(s, c, blobs);
  }

  lemma DigestOf(s: Server, c: Call, blobs: map<int, Blob>)
    ensures var r := CoreRequest(s, c, blobs); IsWrite(r) && r.digest == s.digest(c.payload)
  {
  }

  lemma AuthorizedWrites(db: Db, r: Request)
    requires IsWrite(r) && !r.Purge? && !r.Restore? && Authorized(db, r)
    ensures CanWrite(db, r.grant, r.scope)
  {
  }

  lemma FirstRequest(s: Server, db: Db, c: Call)
    requires Enter(s, db, c).arrival.Passed?
    ensures exists blobs :: Enter(s, db, c).arrival.request == CoreRequest(s, c, blobs)
    ensures HasOAuthScope(c.ctx, "memory:write")
      && forall scope | scope in TargetScopes(c.payload) :: scope in c.ctx.memoryScopes
  {
    hide Prepare, CoreRequest, HasOAuthScope;
    var blobs := if c.payload.RemovePayload? || c.encoded.None? then map[]
                 else match Prepare(s.identity, db, c.ctx.grant, ProvisionedScopes(c.payload), c.encoded.value,
                                    c.clock).outcome
                      case Ready(b) => b case Refused(_) => map[];
    assert Enter(s, db, c).arrival.request == CoreRequest(s, c, blobs);
  }

  // -------------------------------------------------------------- and its retry

  lemma {:induction false} RunAppend(env: Env, db: Db, a: seq<Request>, b: seq<Request>)
    ensures Run(env, db, a + b) == Run(env, Run(env, db, a), b)
    decreases |a|
  {
    hide Step;
    if a == [] {
      assert a + b == b;
    } else {
      assert (a + b)[0] == a[0] && (a + b)[1..] == a[1..] + b;
      RunAppend(env, Step(env, db, a[0]).db, a[1..], b);
    }
  }

  lemma ScopeStaysLive(env: Env, db: Db, e: Db, owner: string, scope: string)
    requires Inv(env, e) && ProfilesLater(db.profiles, e.profiles) && LiveProfiles(db.profiles, owner, scope) != map[]
    ensures LiveProfiles(e.profiles, owner, scope) != map[]
  {
    LiveMeansServed(db.profiles, owner, scope);
    LiveMeansServed(e.profiles, owner, scope);
  }

  lemma LiveAfterRuns(env: Env, db: Db, before: seq<Request>, r: Request, after: seq<Request>, owner: string,
                      scope: string)
    requires Inv(env, db) && LiveProfiles(db.profiles, owner, scope) != map[]
    ensures LiveProfiles(Run(env, Step(env, Run(env, db, before), r).db, after).profiles, owner, scope) != map[]
  {
    hide LiveProfiles, Step, Inv, ProfilesStep, ProfilesLater;
    var m := Run(env, db, before);
    RunMoves(env, db, before);
    RunKeepsInv(env, db, before);
    ScopeStaysLive(env, db, m, owner, scope);
    var e := Step(env, m, r).db;
    StepMoves(env, m, r);
    StepKeepsInv(env, m, r);
    StepIsLater(m.profiles, e.profiles);
    ScopeStaysLive(env, m, e, owner, scope);
    RunMoves(env, e, after);
    RunKeepsInv(env, e, after);
    ScopeStaysLive(env, e, Run(env, e, after), owner, scope);
  }

  lemma {:induction false} OwnerStays(env: Env, db: Db, rs: seq<Request>, grant: string)
    requires grant in db.grants
    ensures grant in Run(env, db, rs).grants && OwnerOf(Run(env, db, rs), grant) == OwnerOf(db, grant)
    decreases |rs|
  {
    hide Step, WriteEffect, Inv;
    if rs != [] {
      StepEffect(env, db, rs[0]);
      StepKeepsOwner(env, db, rs[0], Step(env, db, rs[0]), grant);
      OwnerStays(env, Step(env, db, rs[0]).db, rs[1..], grant);
    }
  }

  lemma StepKeepsOwner(env: Env, db: Db, r: Request, reply: Reply, grant: string)
    requires Effect(env, db, r, reply) && grant in db.grants
    ensures grant in reply.db.grants && OwnerOf(reply.db, grant) == OwnerOf(db, grant)
  {
    hide WriteEffect;
  }

  lemma StepIsLater(a: map<ProfileKey, Profile>, b: map<ProfileKey, Profile>)
    requires ProfilesStep(a, b)
    ensures ProfilesLater(a, b)
  {
  }

  lemma PreparedAgain(i: Identity, f: Db, grant: string, scope: string, blobs: map<int, Blob>, clock: nat -> string)
    requires blobs.Keys == {DEFAULT_GENERATION} && blobs[DEFAULT_GENERATION] != []
      && |blobs[DEFAULT_GENERATION]| % 4 == 0
    requires CanWrite(f, grant, scope) && LiveProfiles(f.profiles, OwnerOf(f, grant), scope) != map[]
    ensures var p := Prepare(i, f, grant, [scope], blobs, clock);
      p.db == f
      && if AllMatch(LiveProfiles(f.profiles, OwnerOf(f, grant), scope), Expected(i, |blobs[DEFAULT_GENERATION]| / 4))
         then p.outcome.Ready? else p.outcome == Refused(EmbeddingUnavailable)
  {
    hide LiveProfiles, OwnerOf;
    EnsureOne(i, f, OwnerOf(f, grant), scope, |blobs[DEFAULT_GENERATION]| / 4, clock);
  }

  /** A call into a scope that is already provisioned passes exactly if the embedder is the stored one. */
  lemma EnterAgain(s: Server, f: Db, d: Call)
    requires Inv(s.env, f) && SingleVector(d) && StaysInScope(d.payload) && CanWrite(f, d.ctx.grant, d.payload.scope)
    requires HasOAuthScope(d.ctx, "memory:write")
      && forall scope | scope in TargetScopes(d.payload) :: scope in d.ctx.memoryScopes
    requires d.payload.RemovePayload? || LiveProfiles(f.profiles, OwnerOf(f, d.ctx.grant), d.payload.scope) != map[]
    ensures Enter(s, f, d).db == f
    ensures if EmbedderMatches(s, f, d) then Enter(s, f, d).arrival.Passed?
      else Enter(s, f, d).arrival == Turned(Unavailable)
    ensures EmbedderMatches(s, f, d) ==>
      exists blobs :: Enter(s, f, d).arrival.request == CoreRequest(s, d, blobs)
        && (d.payload.RemovePayload? || ValidBlobs(blobs))
  {
    hide Inv, LiveProfiles, Prepare, AllMatch, OwnerOf, CanWrite, CoreRequest, HasOAuthScope;
    if !d.payload.RemovePayload? {
      PreparedAgain(s.identity, f, d.ctx.grant, d.payload.scope, d.encoded.value, d.clock);
      PreparedCovers(s.env, s.identity, f, d.ctx.grant, d.payload.scope, d.encoded.value, d.clock);
    }
  }

  /** The caller, the id factory and the clock can still make the call. */
  predicate MayRetry(f: Db, g: Db, d: Call) {
    (d.payload.AddPayload? ==> !Blank(d.id)) && !Blank(d.at)
    && CanWrite(f, d.ctx.grant, d.payload.scope) && CanWrite(g, d.ctx.grant, d.payload.scope)
  }

  lemma RetryIsAuthorized(s: Server, m: Db, g: Db, c: Call, d: Call, blobs: map<int, Blob>, more: map<int, Blob>)
    requires c.ctx == d.ctx && c.payload == d.payload && StaysInScope(c.payload)
    requires IsWrite(CoreRequest(s, c, blobs)) && !CoreRequest(s, c, blobs).Purge?
      && Authorized(m, CoreRequest(s, c, blobs))
    requires MayRetry(g, g, d) && (d.payload.RemovePayload? || ValidBlobs(more))
    ensures var q := CoreRequest(s, d, more); IsWrite(q) && !q.Purge? && Authorized(g, q)
  {
    hide Blank, ValidBlobs, Texts, OptionalText, Usable;
  }

  lemma RetryAnswered(s: Server, e: Db, g: Db, rs: seq<Request>, d: Call, blobs: map<int, Blob>, receipt: Receipt)
    requires Inv(s.env, e) && Answers(s, e, d, receipt) && StaysInScope(d.payload) && g == Run(s.env, e, rs)
    requires !Clashes(Trace(s.env, e, rs), KeyFor(d), d.payload.scope)
    requires var q := CoreRequest(s, d, blobs); IsWrite(q) && !q.Purge? && Authorized(g, q)
    ensures var row := e.idem[KeyFor(d)];
      Respond(Step(s.env, g, CoreRequest(s, d, blobs)))
      == Result(g, if PurgedIn(Trace(s.env, e, rs), row.owner, row.memory) then Fail(PurgedKey) else Ok(receipt))
  {
    hide Inv, Step, Run, Authorized, PurgedIn, Clashes, AloneInScope, CoreRequest, StaysInScope;
    CoreRequestKeeps(s, d, d, blobs, blobs);
    DigestOf(s, d, blobs);
    RowAnswersAfterRun(s.env, e, rs, CoreRequest(s, d, blobs));
  }

  lemma SecondCall(s: Server, db: Db, c: Call, mid: seq<Request>, rs: seq<Request>, d: Call)
    requires Inv(s.env, db) && c.ctx == d.ctx && c.payload == d.payload
    requires SingleVector(c) && SingleVector(d) && StaysInScope(c.payload)
    requires NotShared(Run(s.env, Enter(s, db, c).db, mid).idem, KeyFor(c), c.payload.scope)
    requires Serve(s, db, c, mid).answer.Ok?
    requires CanWrite(Run(s.env, Serve(s, db, c, mid).db, rs), d.ctx.grant, d.payload.scope)
    ensures var f := Run(s.env, Serve(s, db, c, mid).db, rs);
      Enter(s, f, d).db == f
      && (if EmbedderMatches(s, f, d) then Enter(s, f, d).arrival.Passed?
          else Enter(s, f, d).arrival == Turned(Unavailable))
    ensures var f := Run(s.env, Serve(s, db, c, mid).db, rs);
      EmbedderMatches(s, f, d) ==>
      exists blobs :: Enter(s, f, d).arrival.request == CoreRequest(s, d, blobs)
        && (d.payload.RemovePayload? || ValidBlobs(blobs))
  {
    hide Inv, LiveProfiles, Step, Authorized, Enter, CoreRequest, OwnerOf, CanWrite, HasOAuthScope, NotShared, Answers,
         AllMatch, StaysInScope, EmbedderMatches, ValidBlobs;
    var entry, e := Enter(s, db, c), Serve(s, db, c, mid).db;
    var f := Run(s.env, e, rs);
    FirstCall(s, db, c, mid);
    EnterKeeps(s, db, c);
    FirstRequest(s, db, c);
    RunKeepsInv(s.env, e, rs);
    if !c.payload.RemovePayload? {
      LiveAfterRuns(s.env, entry.db, mid, entry.arrival.request, rs, OwnerOf(db, c.ctx.grant), c.payload.scope);
      SameOwnerLater(s.env, db, entry.db, mid, entry.arrival.request, rs, c.ctx.grant);
    }
    EnterAgain(s, f, d);
  }

  lemma SameOwnerLater(env: Env, db: Db, db0: Db, before: seq<Request>, r: Request, after: seq<Request>, grant: string)
    requires grant in db.grants && db0.grants == db.grants
    ensures OwnerOf(Run(env, Step(env, Run(env, db0, before), r).db, after), grant) == OwnerOf(db, grant)
  {
    hide Step, Run, Effect;
    var m := Run(env, db0, before);
    OwnerStays(env, db0, before, grant);
    StepEffect(env, m, r);
    StepKeepsOwner(env, m, r, Step(env, m, r), grant);
    OwnerStays(env, Step(env, m, r).db, after, grant);
  }

  /** Calling the service again with the same payload, whatever ids, clocks and vectors the two calls
      use and whatever ran in between without filing a purge or scope move under the same key. The second
      call never changes anything. If the stored profiles are not the embedder's any more it answers
      `Unavailable`; else, once the memory has been purged, `PurgedKey`; else with the first receipt. */
  lemma ServedTwice(s: Server, db: Db, c: Call, mid: seq<Request>, rs: seq<Request>, d: Call, more: seq<Request>)
    requires Inv(s.env, db) && c.ctx == d.ctx && c.payload == d.payload
    requires SingleVector(c) && SingleVector(d) && StaysInScope(c.payload)
    requires NotShared(Run(s.env, Enter(s, db, c).db, mid).idem, KeyFor(c), c.payload.scope)
    requires Serve(s, db, c, mid).answer.Ok?
    requires var e := Serve(s, db, c, mid).db; var f := Run(s.env, e, rs);
      !Clashes(Trace(s.env, e, rs + more), KeyFor(c), c.payload.scope) && MayRetry(f, Run(s.env, f, more), d)
    ensures var e := Serve(s, db, c, mid).db; var f := Run(s.env, e, rs);
      KeyFor(c) in e.idem
      && Serve(s, f, d, more)
         == if !EmbedderMatches(s, f, d) then Result(f, Fail(Unavailable))
            else Result(Run(s.env, f, more),
                        if PurgedIn(Trace(s.env, e, rs + more), e.idem[KeyFor(c)].owner, e.idem[KeyFor(c)].memory)
                                             then Fail(PurgedKey) else Serve(s, db, c, mid).answer)
  {
    hide Inv, LiveProfiles, Step, Authorized, Enter, CoreRequest, OwnerOf, CanWrite, Trace, PurgedIn, Clashes,
         NotShared, EmbedderMatches, StaysInScope, AloneInScope, SingleVector, ValidBlobs, Respond, Blank, IsWrite;
    var entry, e := Enter(s, db, c), Serve(s, db, c, mid).db;
    var f := Run(s.env, e, rs);
    FirstCall(s, db, c, mid);
    RunAppend(s.env, e, rs, more);
    SecondCall(s, db, c, mid, rs, d);
    if EmbedderMatches(s, f, d) {
      FirstRequest(s, db, c);
      var blobs :| entry.arrival.request == CoreRequest(s, c, blobs);
      var again :| Enter(s, f, d).arrival.request == CoreRequest(s, d, again)
          && (d.payload.RemovePayload? || ValidBlobs(again));
      RetryIsAuthorized(s, Run(s.env, entry.db, mid), Run(s.env, f, more), c, d, blobs, again);
      RetryAnswered(s, e, Run(s.env, f, more), rs + more, d, again, Serve(s, db, c, mid).answer.receipt);
    }
  }

  // ------------------------------------------- when the embedder stays the stored one

  /** Another embedder's generation is started in the scope. */
  predicate ForeignStart(r: Request, owner: string, scope: string, identity: Provenance) {
    r.StartBuild? && r.profile.owner == owner && r.profile.scope == scope && r.identity != identity
  }

  predicate NoForeignStart(rs: seq<Request>, owner: string, scope: string, identity: Provenance) {
    forall r | r in rs :: !ForeignStart(r, owner, scope, identity)
  }

  /** Profiles appear by the start of a generation, or as the first of their scope. */
  lemma NewProfiles(env: Env, db: Db, r: Request, k: ProfileKey)
    requires k in Step(env, db, r).db.profiles && k !in db.profiles
    ensures (r.StartBuild? && k == r.profile && Step(env, db, r).db.profiles[k].provenance == r.identity)
      || (r.EnsureProfile? && k.owner == r.owner && k.scope == r.scope
          && LiveProfiles(db.profiles, k.owner, k.scope) == map[])
  {
    hide AddStep, ReplaceStep, RemoveStep, RestoreStep, PurgeStep, LiveProfiles, Effect;
    if IsWrite(r) { WriteKeepsProfiles(env, db, r); }
  }

  lemma WriteKeepsProfiles(env: Env, db: Db, r: Request)
    requires IsWrite(r)
    ensures Step(env, db, r).db.profiles == db.profiles
  {
    hide Step, Appends, Files, Moves, Stores;
    StepEffect(env, db, r);
  }

  lemma StepKeepsMatch(env: Env, db: Db, r: Request, owner: string, scope: string, identity: Provenance)
    requires LiveProfiles(db.profiles, owner, scope) != map[]
      && AllMatch(LiveProfiles(db.profiles, owner, scope), identity)
    requires !ForeignStart(r, owner, scope, identity)
    ensures AllMatch(LiveProfiles(Step(env, db, r).db.profiles, owner, scope), identity)
  {
    hide Step;
    var after := Step(env, db, r).db.profiles;
    StepMoves(env, db, r);
    forall g | g in LiveProfiles(after, owner, scope) ensures LiveProfiles(after, owner, scope)[g] == identity {
      var k := ProfileKey(owner, scope, g);
      if k in db.profiles {
        assert g in LiveProfiles(db.profiles, owner, scope);
      } else {
        NewProfiles(env, db, r, k);
      }
    }
  }

  /** A provisioned scope keeps to its embedder over every run that starts no other one's generation in it. */
  lemma {:induction false} RunKeepsMatch(env: Env, db: Db, rs: seq<Request>, owner: string, scope: string,
                                         identity: Provenance)
    requires Inv(env, db) && NoForeignStart(rs, owner, scope, identity)
    requires LiveProfiles(db.profiles, owner, scope) != map[]
      && AllMatch(LiveProfiles(db.profiles, owner, scope), identity)
    ensures AllMatch(LiveProfiles(Run(env, db, rs).profiles, owner, scope), identity)
    decreases |rs|
  {
    hide Step, LiveProfiles, AllMatch, Inv, ForeignStart, ProfilesStep, ProfilesLater;
    if rs != [] {
      var e := Step(env, db, rs[0]).db;
      StepKeepsMatch(env, db, rs[0], owner, scope, identity);
      StepKeepsInv(env, db, rs[0]);
      StepMoves(env, db, rs[0]);
      StepIsLater(db.profiles, e.profiles);
      ScopeStaysLive(env, db, e, owner, scope);
      RunKeepsMatch(env, e, rs[1..], owner, scope, identity);
    }
  }

  lemma MatchAfterRuns(env: Env, db: Db, before: seq<Request>, r: Request, after: seq<Request>, owner: string,
                       scope: string, identity: Provenance)
    requires Inv(env, db) && IsWrite(r) && NoForeignStart(before + after, owner, scope, identity)
    requires LiveProfiles(db.profiles, owner, scope) != map[]
      && AllMatch(LiveProfiles(db.profiles, owner, scope), identity)
    ensures AllMatch(LiveProfiles(Run(env, Step(env, Run(env, db, before), r).db, after).profiles, owner, scope),
                     identity)
  {
    hide Step, LiveProfiles, AllMatch, Inv, ForeignStart;
    assert forall q | q in before :: q in before + after;
    assert forall q | q in after :: q in before + after;
    RunKeepsMatch(env, db, before, owner, scope, identity);
    var m := Run(env, db, before);
    RunKeepsInv(env, db, before);
    StepKeepsInv(env, m, r);
    WriteKeepsProfiles(env, m, r);
    LiveAfterRuns(env, db, before, r, [], owner, scope);
    RunKeepsMatch(env, Step(env, m, r).db, after, owner, scope, identity);
  }

  /** An answered call and a retry by an embedder of the same dimension: unless another embedder's
      generation is started in the scope, the profiles still match. */
  lemma EmbedderStillMatches(s: Server, db: Db, c: Call, mid: seq<Request>, rs: seq<Request>, d: Call)
    requires Inv(s.env, db) && c.ctx == d.ctx && c.payload == d.payload
    requires SingleVector(c) && SingleVector(d) && DimensionOf(c) == DimensionOf(d) && StaysInScope(c.payload)
    requires NotShared(Run(s.env, Enter(s, db, c).db, mid).idem, KeyFor(c), c.payload.scope)
    requires Serve(s, db, c, mid).answer.Ok?
    requires NoForeignStart(mid + rs, OwnerOf(db, c.ctx.grant), c.payload.scope, Expected(s.identity, DimensionOf(c)))
    ensures EmbedderMatches(s, Run(s.env, Serve(s, db, c, mid).db, rs), d)
  {
    hide Inv, LiveProfiles, Step, Authorized, Enter, CoreRequest, OwnerOf, CanWrite, NotShared, Answers, AllMatch,
         StaysInScope, NoForeignStart;
    var entry := Enter(s, db, c);
    FirstCall(s, db, c, mid);
    EnterKeeps(s, db, c);
    if !c.payload.RemovePayload? {
      SameOwner(db, entry.db, c.ctx.grant);
      SameOwnerLater(s.env, db, entry.db, mid, entry.arrival.request, rs, c.ctx.grant);
      MatchAfterRuns(s.env, entry.db, mid, entry.arrival.request, rs, OwnerOf(db, c.ctx.grant), c.payload.scope,
                     Expected(s.identity, DimensionOf(c)));
    }
  }

  /** The retry over runs that start no generation of another embedder in the scope: nothing is
      assumed of the profiles that the second call meets. */
  lemma ServedTwiceByOneEmbedder(s: Server, db: Db, c: Call, mid: seq<Request>, rs: seq<Request>, d: Call,
                                 more: seq<Request>)
    requires Inv(s.env, db) && c.ctx == d.ctx && c.payload == d.payload
    requires SingleVector(c) && SingleVector(d) && DimensionOf(c) == DimensionOf(d) && StaysInScope(c.payload)
    requires NotShared(Run(s.env, Enter(s, db, c).db, mid).idem, KeyFor(c), c.payload.scope)
    requires Serve(s, db, c, mid).answer.Ok?
    requires NoForeignStart(mid + rs, OwnerOf(db, c.ctx.grant), c.payload.scope, Expected(s.identity, DimensionOf(c)))
    requires var e := Serve(s, db, c, mid).db; var f := Run(s.env, e, rs);
      !Clashes(Trace(s.env, e, rs + more), KeyFor(c), c.payload.scope) && MayRetry(f, Run(s.env, f, more), d)
    ensures var e := Serve(s, db, c, mid).db; var f := Run(s.env, e, rs);
      KeyFor(c) in e.idem
      && Serve(s, f, d, more)
         == Result(Run(s.env, f, more),
                   if PurgedIn(Trace(s.env, e, rs + more), e.idem[KeyFor(c)].owner, e.idem[KeyFor(c)].memory)
                                        then Fail(PurgedKey) else Serve(s, db, c, mid).answer)
  {
    hide *;
    ServedTwice(s, db, c, mid, rs, d, more);
    EmbedderStillMatches(s, db, c, mid, rs, d);
  }

  /** A call made twice in a row, with nothing in between: the second one returns what the first one
      did and changes nothing. */
  lemma CalledTwice(s: Server, db: Db, c: Call, d: Call)
    requires Inv(s.env, db) && c.ctx == d.ctx && c.payload == d.payload
    requires SingleVector(c) && SingleVector(d) && DimensionOf(c) == DimensionOf(d) && StaysInScope(c.payload)
    requires NotShared(db.idem, KeyFor(c), c.payload.scope) && Serve(s, db, c, []).answer.Ok? && !Blank(d.id)
      && !Blank(d.at)
    ensures Serve(s, Serve(s, db, c, []).db, d, []) == Serve(s, db, c, [])
  {
    hide Inv, LiveProfiles, Step, Authorized, Enter, CoreRequest, OwnerOf, NotShared, AllMatch, Respond, AloneInScope,
         StaysInScope, Serve, Blank;
    var entry, e := Enter(s, db, c).db, Serve(s, db, c, []).db;
    EnterKeeps(s, db, c);
    assert Run(s.env, entry, []) == entry && Run(s.env, e, []) == e && Trace(s.env, e, []) == [];
    FirstCall(s, db, c, []);
    assert CanWrite(e, d.ctx.grant, d.payload.scope);
    ServedTwiceByOneEmbedder(s, db, c, [], [], d, []);
  }
}
