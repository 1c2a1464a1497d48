/** What a call of the service becomes before it reaches the repository, told from the call, the grant and
    the profiles of the scopes that it names. */
module Arrivals {
  import opened Sets
  import opened Schema
  import opened Transactions
  import opened Integrity
  import opened Preservation
  import opened Effects
  import opened Answers
  import opened Adapter
  import opened Service

  // -------------------------------------------------------------- provisioning

  /** Some live generation of the scope was made by another embedder or has another dimension. */
  ghost predicate Foreign(i: Identity, db: Db, owner: string, scope: string, dimension: int) {
    exists g :: Lives(db, owner, scope, g)
      && db.profiles[ProfileKey(owner, scope, g)].provenance
        != Provenance(i.provider, i.endpointHash, i.model, dimension)
  }

  ghost predicate Bare(db: Db, owner: string, scope: string) {
    forall g :: !Lives(db, owner, scope, g)
  }

  /** The scope is served by the generation, or will be by its first one. */
  ghost predicate Serves(db: Db, owner: string, scope: string, g: int) {
    Lives(db, owner, scope, g) || (Bare(db, owner, scope) && g == 1)
  }

  lemma BareIff(db: Db, owner: string, scope: string)
    ensures Bare(db, owner, scope) <==> LiveProfiles(db.profiles, owner, scope) == map[]
  {
    hide LiveProfiles, Lives;
    LiveAt(db, owner, scope);
    var live := LiveProfiles(db.profiles, owner, scope);
    SameSetsIff(live.Keys, {});
  }

  lemma ForeignIff(i: Identity, db: Db, owner: string, scope: string, dimension: int)
    ensures Foreign(i, db, owner, scope, dimension)
      <==> !AllMatch(LiveProfiles(db.profiles, owner, scope), Expected(i, dimension))
  {
    hide LiveProfiles, Lives;
    LiveAt(db, owner, scope);
  }

  /** `ensure_embedding_profile`: an embedder without dimensions or other than the stored one is refused;
      else the scope keeps its live generations, and a bare one gets the generation 1 from then on. */
  lemma ProvisionAnswers(i: Identity, db: Db, owner: string, scope: string, dimension: int, at: string)
    ensures var done := EnsureProfiles(i, db, owner, scope, dimension, at); var first := ProfileKey(owner, scope, 1);
      if dimension < 1 || Foreign(i, db, owner, scope, dimension)
      then done.error == Some(EmbeddingUnavailable) && done.db == db
      else
        done.error == None && (forall g :: g in done.generations <==> Serves(db, owner, scope, g))
        && done.db == if !Bare(db, owner, scope) || first in db.profiles then db
           else db.(profiles := db.profiles[first :=
                  Profile(Provenance(i.provider, i.endpointHash, i.model, dimension), Active, at, Some(at), None)])
  {
    hide LiveProfiles, Lives;
    LiveAt(db, owner, scope);
    BareIff(db, owner, scope);
    ForeignIff(i, db, owner, scope, dimension);
  }

  /** What provisioning scopes one after the other comes to, whatever their order and number: each scope's
      own profiles before the call decide what becomes of it. */
  lemma {:induction false} EnsureAllTells(env: Env, i: Identity, db: Db, owner: string, scopes: seq<string>,
                                          dimension: int, clock: nat -> string)
    requires Inv(env, db)
    ensures var done := EnsureAll(i, db, owner, scopes, dimension, clock);
      Inv(env, done.db) && done.db == db.(profiles := done.db.profiles)
      && (if exists s | s in scopes :: dimension < 1 || Foreign(i, db, owner, s, dimension)
          then done.error == Some(EmbeddingUnavailable)
          else done.error == None
               && forall g :: g in done.generations <==> exists s | s in scopes :: Serves(db, owner, s, g))
      && forall s :: Kept(i, db, done.db, owner, s, dimension, scopes)
    decreases |scopes|
  {
    hide Inv, EnsureProfiles, LiveProfiles, Kept, Serves, Foreign;
    if scopes == [] {
      forall s ensures Kept(i, db, db, owner, s, dimension, scopes) { Unchanged(i, db, owner, s, dimension, scopes); }
    } else {
      var n := |scopes| - 1;
      var before := EnsureAll(i, db, owner, scopes[..n], dimension, clock);
      EnsureAllTells(env, i, db, owner, scopes[..n], dimension, clock);
      assert scopes == scopes[..n] + [scopes[n]];
      assert forall s :: s in scopes <==> s in scopes[..n] || s == scopes[n];
      forall s ensures Kept(i, db, before.db, owner, s, dimension, scopes) {
        KeptMore(i, db, before.db, owner, s, dimension, scopes[..n], scopes[n]);
      }
      OneMoreScope(env, i, db, before.db, owner, scopes[..n], scopes[n], dimension, clock(n));
    }
  }

  /** The scope has the live profiles that it had, or, if it was bare and provisioned, the first one. */
  ghost predicate Kept(i: Identity, db: Db, e: Db, owner: string, scope: string, dimension: int, scopes: seq<string>) {
    var was, now := LiveProfiles(db.profiles, owner, scope), LiveProfiles(e.profiles, owner, scope);
    now == was || (scope in scopes && was == map[] && dimension >= 1 && now == map[1 := Expected(i, dimension)])
  }

  lemma Unchanged(i: Identity, db: Db, owner: string, s: string, dimension: int, scopes: seq<string>)
    ensures Kept(i, db, db, owner, s, dimension, scopes)
  {
  }

  lemma KeptMore(i: Identity, db: Db, e: Db, owner: string, s: string, dimension: int, scopes: seq<string>,
                 scope: string)
    requires Kept(i, db, e, owner, s, dimension, scopes)
    ensures Kept(i, db, e, owner, s, dimension, scopes + [scope])
  {
    hide LiveProfiles;
  }

  lemma OneMoreScope(env: Env, i: Identity, db: Db, e: Db, owner: string, scopes: seq<string>, scope: string,
                     dimension: int, at: string)
    requires Inv(env, db) && Inv(env, e) && forall s :: Kept(i, db, e, owner, s, dimension, scopes)
    ensures var last := EnsureProfiles(i, e, owner, scope, dimension, at);
      Inv(env, last.db) && last.db == e.(profiles := last.db.profiles)
      && (if dimension < 1 || Foreign(i, db, owner, scope, dimension) then last.error == Some(EmbeddingUnavailable)
          else last.error == None && forall g :: g in last.generations <==> Serves(db, owner, scope, g))
      && forall s :: Kept(i, db, last.db, owner, s, dimension, scopes + [scope])
  {
    hide Inv, EnsureProfiles, LiveProfiles, Serves, Foreign, Bare, Lives;
    var last := EnsureProfiles(i, e, owner, scope, dimension, at);
    EnsuredIsLive(env, i, e, owner, scope, dimension, at);
    EnsuredIsProvided(env, i, e, owner, scope, dimension, at);
    ProvisionAnswers(i, e, owner, scope, dimension, at);
    assert Kept(i, db, e, owner, scope, dimension, scopes);
    SameService(i, db, e, owner, scope, dimension);
    forall s ensures Kept(i, db, last.db, owner, s, dimension, scopes + [scope]) {
      assert Kept(i, db, e, owner, s, dimension, scopes);
      if s != scope { OtherScopeStays(i, e, owner, scope, dimension, at, s); }
    }
  }

  lemma SameService(i: Identity, db: Db, e: Db, owner: string, scope: string, dimension: int)
    requires var was, now := LiveProfiles(db.profiles, owner, scope), LiveProfiles(e.profiles, owner, scope);
      now == was || (was == map[] && dimension >= 1 && now == map[1 := Expected(i, dimension)])
    ensures Foreign(i, e, owner, scope, dimension) <==> Foreign(i, db, owner, scope, dimension)
    ensures forall g :: Serves(e, owner, scope, g) <==> Serves(db, owner, scope, g)
  {
    hide LiveProfiles, Lives;
    ForeignIff(i, db, owner, scope, dimension);
    ForeignIff(i, e, owner, scope, dimension);
    BareIff(db, owner, scope);
    BareIff(e, owner, scope);
    LiveAt(db, owner, scope);
    LiveAt(e, owner, scope);
  }

  // -------------------------------------------------------------- preparation

  /** The vector goes to the generations that serve the scopes, and to no other. */
  ghost predicate FansOut(db: Db, owner: string, scopes: seq<string>, blob: Blob, blobs: map<int, Blob>) {
    (forall g :: g in blobs <==> exists s | s in scopes :: Serves(db, owner, s, g))
    && forall g | g in blobs :: blobs[g] == blob
  }

  /** `_prepare_blobs`, answer by answer. */
  lemma PrepareAnswers(env: Env, i: Identity, db: Db, grant: string, scopes: seq<string>, blobs: map<int, Blob>,
                       clock: nat -> string)
    requires Inv(env, db) && scopes != []
    ensures var done := Prepare(i, db, grant, scopes, blobs, clock);
      if |blobs| == 0 then done == Preparation(db, Refused(InvalidArgument))
      else if exists g | g in blobs :: g != 1 then done == Preparation(db, Ready(blobs))
      else
        1 in blobs
        && var blob := blobs[1];
          if |blob| == 0 || |blob| % 4 != 0 then done == Preparation(db, Refused(EmbeddingUnavailable))
          else if exists s | s in scopes :: !Entitled(db, grant, s, WRITERS)
          then done == Preparation(db, Refused(NotAuthorized))
          else
            grant in db.grants && Inv(env, done.db) && done.db == db.(profiles := done.db.profiles)
            && (forall s :: Kept(i, db, done.db, db.grants[grant].owner, s, |blob| / 4, scopes))
            && if exists s | s in scopes :: Foreign(i, db, db.grants[grant].owner, s, |blob| / 4)
               then done.outcome == Refused(EmbeddingUnavailable)
               else done.outcome.Ready? && FansOut(db, db.grants[grant].owner, scopes, blob, done.outcome.blobs)
  {
    hide Inv, EnsureAll, Kept, Foreign, Serves, CoversScopes;
    OnlyFirstIff(blobs);
    if blobs.Keys == {1} {
      var blob := blobs[1];
      CoversScopesIff(db, grant, scopes);
      if CoversScopes(db, grant, scopes) {
        EntitledIsThere(db, grant, scopes[0], WRITERS);
        EnsureAllTells(env, i, db, db.grants[grant].owner, scopes, |blob| / 4, clock);
      }
    }
  }

  lemma OnlyFirstIff(blobs: map<int, Blob>)
    ensures blobs.Keys == {1} <==> |blobs| > 0 && forall g | g in blobs :: g == 1
  {
    SomeNumber(blobs.Keys);
    assert |blobs| == |blobs.Keys|;
    if |blobs| > 0 && forall g | g in blobs :: g == 1 {
      SameSetsIff(blobs.Keys, {1});
    }
  }

  lemma CoversScopesIff(db: Db, grant: string, scopes: seq<string>)
    requires scopes != []
    ensures CoversScopes(db, grant, scopes) <==> forall s | s in scopes :: Entitled(db, grant, s, WRITERS)
  {
    assert WRITERS == {"memory:write", "memory:admin"};
    if forall s | s in scopes :: Entitled(db, grant, s, WRITERS) {
      assert Entitled(db, grant, scopes[0], WRITERS);
    }
    if CoversScopes(db, grant, scopes) {
      forall s | s in scopes ensures Entitled(db, grant, s, WRITERS) {
        EntitledIff(db, grant, s);
      }
    }
  }

  // ------------------------------------------------------------------ the call

  /** The scopes that the call names. */
  function Names(p: Payload): set<string> {
    {p.scope} + if p.ReplacePayload? && p.newScope != None then {p.newScope.value} else {}
  }

  /** The request carries what the client sent, under the identity of its grant, with the prepared vectors. */
  predicate Carries(s: Server, c: Call, r: Request, blobs: map<int, Blob>) {
    IsWrite(r) && !r.Purge? && r.grant == c.ctx.grant && r.actor == c.ctx.actor && r.at == c.at && r.pick == c.pick
    && r.digest == s.digest(c.payload) && r.key == c.payload.key && r.scope == c.payload.scope
    && match c.payload
       case AddPayload(content, _, kind, tags, conversation, _) =>
         r.Add? && r.memory == c.id && r.content == content && r.kind == kind && r.tags == tags
         && r.conversation == conversation && r.blobs == blobs
       case ReplacePayload(memory, expected, content, _, newScope, kind, tags, conversation, _) =>
         r.Replace? && r.memory == memory && r.expected == expected && r.content == content && r.kind == kind
         && r.tags == tags && r.conversation == conversation && r.newScope == newScope && r.blobs == blobs
       case RemovePayload(memory, expected, _, _) => r.Remove? && r.memory == memory && r.expected == expected
  }

  /** What the client is told for each error of the repository. */
  predicate Coded(e: Error, code: Code) {
    (code == Invalid <==> e == InvalidArgument) && (code == NotPermitted <==> e == NotAuthorized)
    && (code.Conflict? <==> e.RevisionConflict?)
    && (code.Conflict? && e.RevisionConflict? ==> code.current == e.current)
    && (code == ReusedKey <==> e == KeyReused) && (code == PurgedKey <==> e.KeyPurged?)
    && (code == Unavailable <==> e == EmbeddingUnavailable)
    && (code == Internal <==> e in {ConstraintFailed, RuntimeFailure, Interrupted})
  }

  /** The way of a call through the service and the adapter: both rights are asked of the token first, a
      remove needs no vector, and every other call is prepared for the scopes that it names, each once. */
  lemma EnterAnswers(s: Server, db: Db, c: Call)
    ensures var way := Enter(s, db, c); var p := c.payload;
      if "memory:write" !in c.ctx.oauthScopes && "memory:admin" !in c.ctx.oauthScopes
      then way == Entrance(db, Turned(InsufficientScope))
      else if exists scope | scope in Names(p) :: scope !in c.ctx.memoryScopes
      then way == Entrance(db, Turned(NotPermitted))
      else if p.RemovePayload? then way.db == db && way.arrival.Passed? && Carries(s, c, way.arrival.request, map[])
      else if c.encoded == None then way == Entrance(db, Turned(Unavailable))
      else
        var scopes := [p.scope] + if |Names(p)| == 1 then [] else [p.newScope.value];
        var done := Prepare(s.identity, db, c.ctx.grant, scopes, c.encoded.value, c.clock);
        way.db == done.db
        && match done.outcome
           case Refused(e) => way.arrival.Turned? && Coded(e, way.arrival.code)
           case Ready(blobs) => way.arrival.Passed? && Carries(s, c, way.arrival.request, blobs)
  {
    hide Prepare, CoreRequest, Carries, MapError, Coded, ProvisionedScopes;
    NamesAre(c.payload, c.ctx.memoryScopes);
    forall blobs ensures Carries(s, c, CoreRequest(s, c, blobs), blobs) { RequestCarries(s, c, blobs); }
    forall e ensures Coded(e, MapError(e)) { Codes(e); }
  }

  lemma NamesAre(p: Payload, scopes: seq<string>)
    ensures (exists scope | scope in Names(p) :: scope !in scopes)
      <==> exists scope | scope in TargetScopes(p) :: scope !in scopes
    ensures |Names(p)| == 1 || (p.ReplacePayload? && p.newScope != None)
    ensures ProvisionedScopes(p) == [p.scope] + if |Names(p)| == 1 then [] else [p.newScope.value]
  {
    if p.ReplacePayload? && p.newScope != None {
      assert Names(p) == {p.scope, p.newScope.value};
      assert p.newScope.value != p.scope ==> |Names(p)| == 2;
      assert p.newScope.value == p.scope ==> Names(p) == {p.scope};
    } else {
      assert Names(p) == {p.scope};
    }
  }

  lemma RequestCarries(s: Server, c: Call, blobs: map<int, Blob>)
    ensures Carries(s, c, CoreRequest(s, c, blobs), blobs)
  {
  }

  lemma Codes(e: Error)
    ensures Coded(e, MapError(e))
  {
  }

  /** A call that gets through is answered as the repository answers its request. */
  lemma ServeAnswers(s: Server, db: Db, c: Call, between: seq<Request>)
    ensures var way, done := Enter(s, db, c), Serve(s, db, c, between);
      match way.arrival
      case Turned(code) => done == Result(way.db, Fail(code))
      case Passed(r) =>
        var reply := Step(s.env, Run(s.env, way.db, between), r);
        done.db == reply.db
        && match done.answer
           case Ok(receipt) => reply.out == Committed(receipt) || reply.out == Replayed(receipt)
           case Fail(code) => reply.out == Applied || (reply.out.Rejected? && Coded(reply.out.error, code))
  {
    hide Enter, Step, Run;
  }
}
