/** The adapter between the service and the repository: it provisions embedding profiles and fans
    one vector out onto the live generations of the scopes that a write names. */
module Adapter {
  import opened Schema
  import opened Transactions
  import opened Integrity
  import opened Preservation

  /** The running embedder. */
  datatype Identity = Identity(provider: string, endpointHash: string, model: string)

  function Expected(i: Identity, dimension: int): Provenance {
    Provenance(i.provider, i.endpointHash, i.model, dimension)
  }

  datatype Ensured = Ensured(db: Db, generations: set<int>, error: Option<Error>)

  predicate AllMatch(live: map<int, Provenance>, identity: Provenance) {
    forall g | g in live :: live[g] == identity
  }

  /** `ensure_embedding_profile`: the transaction, and the generations it returns. */
  function EnsureProfiles(i: Identity, db: Db, owner: string, scope: string, dimension: int, at: string): Ensured {
    var live := LiveProfiles(db.profiles, owner, scope);
    var reply := EnsureStep(db, EnsureProfile(owner, scope, Expected(i, dimension), at));
    if reply.out.Rejected? then Ensured(reply.db, {}, Some(reply.out.error))
    else Ensured(reply.db, if live != map[] then live.Keys else {DEFAULT_GENERATION}, None)
  }

  /** Scope after scope, each with its own reading of the clock; the first error ends it. */
  function EnsureAll(i: Identity, db: Db, owner: string, scopes: seq<string>, dimension: int,
                     clock: nat -> string): Ensured
    decreases |scopes|
  {
    if scopes == [] then Ensured(db, {}, None)
    else
      var n := |scopes| - 1;
      var before := EnsureAll(i, db, owner, scopes[..n], dimension, clock);
      if before.error.Some? then before
      else
        var last := EnsureProfiles(i, before.db, owner, scopes[n], dimension, clock(n));
        Ensured(last.db, if last.error.Some? then {} else before.generations + last.generations, last.error)
  }

  datatype Prepared = Ready(blobs: map<int, Blob>) | Refused(error: Error)

  datatype Preparation = Preparation(db: Db, outcome: Prepared)

  /** The grant may write to all `scopes`. */
  predicate CoversScopes(db: Db, grant: string, scopes: seq<string>) {
    Usable(db, grant)
    && ("memory:write" in db.grants[grant].oauthScopes || "memory:admin" in db.grants[grant].oauthScopes)
    && forall s | s in scopes :: s in db.grants[grant].memoryScopes
  }

  /** `_prepare_blobs` */
  function Prepare(i: Identity, db: Db, grant: string, scopes: seq<string>, blobs: map<int, Blob>,
                   clock: nat -> string): Preparation {
    if blobs == map[] then Preparation(db, Refused(InvalidArgument))
    else if blobs.Keys != {DEFAULT_GENERATION} then Preparation(db, Ready(blobs))
    else
      var blob := blobs[DEFAULT_GENERATION];
      if blob == [] || |blob| % 4 != 0 then Preparation(db, Refused(EmbeddingUnavailable))
      else if !CoversScopes(db, grant, scopes) then Preparation(db, Refused(NotAuthorized))
      else
        var all := EnsureAll(i, db, OwnerOf(db, grant), scopes, |blob| / 4, clock);
        Preparation(all.db,
                    if all.error.Some? then Refused(all.error.value) else Ready(map g | g in all.generations :: blob))
  }

  // -------------------------------------------------------------- properties

  /** What provisioning one scope achieves: the result is exactly the live generations afterwards,
      all of them of the running embedder, and every other scope is as before. */
  lemma EnsuredIsLive(env: Env, i: Identity, db: Db, owner: string, scope: string, dimension: int, at: string)
    requires Inv(env, db)
    ensures var done := EnsureProfiles(i, db, owner, scope, dimension, at);
      Inv(env, done.db) && done.db == db.(profiles := done.db.profiles)
      && (done.error.None? ==>
            done.generations == LiveProfiles(done.db.profiles, owner, scope).Keys
            && done.generations != {} && AllMatch(LiveProfiles(done.db.profiles, owner, scope), Expected(i, dimension)))
      && (done.error.Some? ==> done.error.value == EmbeddingUnavailable && done.db == db)
      && (LiveProfiles(db.profiles, owner, scope) != map[] ==> done.db == db)
  {
    hide Inv;
    var live := LiveProfiles(db.profiles, owner, scope);
    var first := ProfileKey(owner, scope, DEFAULT_GENERATION);
    FirstGenerationLives(env, db, owner, scope);
    if dimension >= 1 && live == map[] {
      var row := Profile(Expected(i, dimension), Active, at, Some(at), None);
      LiveMeansServed(db.profiles, owner, scope);
      FirstIsInserted(db.profiles, owner, scope, row);
      NewProfileKeepsInv(env, db, first, row);
    }
  }

  /** A scope without a live generation never had one. */
  lemma FirstGenerationLives(env: Env, db: Db, owner: string, scope: string)
    requires Inv(env, db)
    ensures LiveProfiles(db.profiles, owner, scope) == map[] ==>
      ProfileKey(owner, scope, DEFAULT_GENERATION) !in db.profiles
  {
    LiveMeansServed(db.profiles, owner, scope);
  }

  lemma EnsureOne(i: Identity, db: Db, owner: string, scope: string, dimension: int, clock: nat -> string)
    ensures var one := EnsureProfiles(i, db, owner, scope, dimension, clock(0));
      EnsureAll(i, db, owner, [scope], dimension, clock)
      == Ensured(one.db, if one.error.Some? then {} else one.generations, one.error)
  {
    assert [scope][..0] == [];
    assert EnsureAll(i, db, owner, [], dimension, clock) == Ensured(db, {}, None);
  }

  lemma LivePositive(env: Env, db: Db, owner: string, scope: string)
    requires Inv(env, db)
    ensures forall g | g in LiveProfiles(db.profiles, owner, scope) :: g >= 1
  {
    forall g | g in LiveProfiles(db.profiles, owner, scope) ensures g >= 1 {
      assert ProfileKey(owner, scope, g) in db.profiles;
    }
  }

  /** What the preparation of a write to one scope guarantees if it succeeds. */
  predicate Covering(db: Db, e: Db, owner: string, scope: string, identity: Provenance, blob: Blob,
                     blobs: map<int, Blob>) {
    var live := LiveProfiles(e.profiles, owner, scope);
    blobs.Keys == live.Keys && ValidBlobs(blobs) && AllMatch(live, identity) && forall g | g in live :: blobs[g] == blob
  }

  /** One vector fans out onto exactly the generations that the repository will ask for, all of them
      of the running embedder and of the vector's own dimension. */
  lemma PreparedCovers(env: Env, i: Identity, db: Db, grant: string, scope: string, blobs: map<int, Blob>,
                       clock: nat -> string)
    requires Inv(env, db) && blobs.Keys == {DEFAULT_GENERATION}
    ensures var done := Prepare(i, db, grant, [scope], blobs, clock);
      Inv(env, done.db) && done.db == db.(profiles := done.db.profiles)
      && (LiveProfiles(db.profiles, OwnerOf(db, grant), scope) != map[] ==> done.db == db)
      && (done.outcome.Ready? ==>
            Covering(db, done.db, OwnerOf(db, grant), scope, Expected(i, |blobs[DEFAULT_GENERATION]| / 4),
                     blobs[DEFAULT_GENERATION], done.outcome.blobs))
  {
    hide Inv, LiveProfiles, EnsureProfiles, EnsureAll, CoversScopes, OwnerOf, AllMatch;
    var blob := blobs[DEFAULT_GENERATION];
    var owner := OwnerOf(db, grant);
    EnsureOne(i, db, owner, scope, |blob| / 4, clock);
    EnsuredIsLive(env, i, db, owner, scope, |blob| / 4, clock(0));
    var one := EnsureProfiles(i, db, owner, scope, |blob| / 4, clock(0));
    LivePositive(env, one.db, owner, scope);
    var fanned := map g | g in one.generations :: blob;
    assert fanned.Keys == one.generations;
    assert fanned == map[] ==> one.generations == {};
  }

  // ------------------------------------------------------------- scope moves

  lemma EnsureTwo(i: Identity, db: Db, owner: string, source: string, target: string, dimension: int,
                  clock: nat -> string)
    ensures var one := EnsureProfiles(i, db, owner, source, dimension, clock(0));
      var two := EnsureProfiles(i, one.db, owner, target, dimension, clock(1));
      EnsureAll(i, db, owner, [source, target], dimension, clock)
      == if one.error.Some? then Ensured(one.db, {}, one.error)
         else Ensured(two.db, if two.error.Some? then {} else one.generations + two.generations, two.error)
  {
    hide EnsureProfiles;
    assert [source, target][..1] == [source];
    EnsureOne(i, db, owner, source, dimension, clock);
  }

  lemma InsertElsewhere(profiles: map<ProfileKey, Profile>, key: ProfileKey, row: Profile, other: string)
    requires key.scope != other
    ensures LiveProfiles(profiles[key := row], key.owner, other) == LiveProfiles(profiles, key.owner, other)
  {
    forall g
      ensures g in LiveGenerations(profiles[key := row], key.owner, other)
        <==> g in LiveGenerations(profiles, key.owner, other)
    {
      assert ProfileKey(key.owner, other, g) in profiles[key := row] <==> ProfileKey(key.owner, other, g) in profiles;
    }
  }

  lemma EnsuredProfiles(i: Identity, db: Db, owner: string, scope: string, dimension: int, at: string)
    ensures var after := EnsureProfiles(i, db, owner, scope, dimension, at).db.profiles;
      after == db.profiles
      || after == db.profiles[ProfileKey(owner, scope, DEFAULT_GENERATION) := Profile(Expected(i, dimension), Active,
                                                                                      at, Some(at), None)]
  {
    hide LiveProfiles;
  }

  lemma OtherScopeStays(i: Identity, db: Db, owner: string, scope: string, dimension: int, at: string, other: string)
    requires other != scope
    ensures LiveProfiles(EnsureProfiles(i, db, owner, scope, dimension, at).db.profiles, owner, other)
         == LiveProfiles(db.profiles, owner, other)
  {
    hide LiveProfiles, EnsureProfiles;
    var first := ProfileKey(owner, scope, DEFAULT_GENERATION);
    EnsuredProfiles(i, db, owner, scope, dimension, at);
    InsertElsewhere(db.profiles, first, Profile(Expected(i, dimension), Active, at, Some(at), None), other);
  }

  /** The generations that a scope is provided with: its live ones, or else the first. */
  function Provided(live: map<int, Provenance>): set<int> {
    if live == map[] then {DEFAULT_GENERATION} else live.Keys
  }

  lemma EnsuredIsProvided(env: Env, i: Identity, db: Db, owner: string, scope: string, dimension: int, at: string)
    requires Inv(env, db)
    ensures var done := EnsureProfiles(i, db, owner, scope, dimension, at);
      done.error.None? ==>
        done.generations == Provided(LiveProfiles(db.profiles, owner, scope))
        && LiveProfiles(done.db.profiles, owner, scope) == map g | g in done.generations :: Expected(i, dimension)
  {
    hide Inv, LiveProfiles;
    EnsuredIsLive(env, i, db, owner, scope, dimension, at);
    AllAlike(LiveProfiles(EnsureProfiles(i, db, owner, scope, dimension, at).db.profiles, owner, scope),
             Expected(i, dimension));
  }

  lemma AllAlike(live: map<int, Provenance>, identity: Provenance)
    ensures AllMatch(live, identity) ==> live == map g | g in live.Keys :: identity
  {
    var alike := map g | g in live.Keys :: identity;
    assert alike.Keys == live.Keys;
    if AllMatch(live, identity) {
      forall g | g in live ensures live[g] == alike[g] {
      }
    }
  }

  /** For a scope move the vector goes to what both scopes are provided with, together. The repository
      demands the same profiles in both, and it finds that exactly if the two scopes were provided with the
      same generations before the call; the vectors alone would cover the target whenever it has them all. */
  lemma MoveCoversIff(env: Env, i: Identity, db: Db, grant: string, source: string, target: string,
                      blobs: map<int, Blob>, clock: nat -> string)
    requires Inv(env, db) && blobs.Keys == {DEFAULT_GENERATION} && source != target
    ensures var done := Prepare(i, db, grant, [source, target], blobs, clock); var owner := OwnerOf(db, grant);
      var from := Provided(LiveProfiles(db.profiles, owner, source));
      var to := Provided(LiveProfiles(db.profiles, owner, target));
      var live := LiveProfiles(done.db.profiles, owner, target);
      done.outcome.Ready? ==>
        done.db == db.(profiles := done.db.profiles) && done.outcome.blobs.Keys == from + to
        && (LiveProfiles(done.db.profiles, owner, source) == live <==> from == to)
        && (live.Keys == done.outcome.blobs.Keys <==> from <= to)
  {
    hide Inv, LiveProfiles, EnsureProfiles, EnsureAll, CoversScopes, OwnerOf, Provided;
    var dimension, owner := |blobs[DEFAULT_GENERATION]| / 4, OwnerOf(db, grant);
    var one := EnsureProfiles(i, db, owner, source, dimension, clock(0));
    var two := EnsureProfiles(i, one.db, owner, target, dimension, clock(1));
    EnsureTwo(i, db, owner, source, target, dimension, clock);
    EnsuredIsLive(env, i, db, owner, source, dimension, clock(0));
    EnsuredIsLive(env, i, one.db, owner, target, dimension, clock(1));
    EnsuredIsProvided(env, i, db, owner, source, dimension, clock(0));
    EnsuredIsProvided(env, i, one.db, owner, target, dimension, clock(1));
    OtherScopeStays(i, db, owner, source, dimension, clock(0), target);
    OtherScopeStays(i, one.db, owner, target, dimension, clock(1), source);
    if one.error.None? && two.error.None? {
      SameProfilesIff(one.generations, two.generations, Expected(i, dimension));
    }
    var fanned := map g | g in one.generations + two.generations :: blobs[DEFAULT_GENERATION];
    assert fanned.Keys == one.generations + two.generations;
  }

  lemma SameProfilesIff(a: set<int>, b: set<int>, identity: Provenance)
    ensures (map g | g in a :: identity) == (map g | g in b :: identity) <==> a == b
    ensures (map g | g in a :: identity).Keys == a
  {
    assert (map g | g in a :: identity).Keys == a && (map g | g in b :: identity).Keys == b;
  }

  lemma MalformedMoveIff(env: Env, db: Db, r: Request)
    requires r.Replace? && TargetScope(r) != r.scope && Visible(db, r.grant, r.scope, r.memory, r.expected, false).None?
    requires var live := LiveProfiles(db.profiles, OwnerOf(db, r.grant), TargetScope(r));
      LiveProfiles(db.profiles, OwnerOf(db, r.grant), r.scope) == live ==> live.Keys == r.blobs.Keys
    ensures ReplaceRefusal(env, db, r) == Some(InvalidArgument)
      <==> LiveProfiles(db.profiles, OwnerOf(db, r.grant), r.scope)
           != LiveProfiles(db.profiles, OwnerOf(db, r.grant), TargetScope(r))
  {
    hide LiveProfiles, OwnerOf, Visible, Projected, ReplaceFits, TargetScope;
  }

  /** The repository turns a prepared scope move of a visible memory down as malformed exactly if the
      scopes were provided with different generations. */
  lemma MoveIsRefusedIff(env: Env, i: Identity, db: Db, r: Request, blobs: map<int, Blob>, clock: nat -> string)
    requires Inv(env, db) && blobs.Keys == {DEFAULT_GENERATION} && r.Replace? && TargetScope(r) != r.scope
    requires var done := Prepare(i, db, r.grant, [r.scope, TargetScope(r)], blobs, clock);
      done.outcome == Ready(r.blobs) && Visible(db, r.grant, r.scope, r.memory, r.expected, false).None?
    ensures var done := Prepare(i, db, r.grant, [r.scope, TargetScope(r)], blobs, clock);
      var owner := OwnerOf(db, r.grant);
      ReplaceRefusal(env, done.db, r) == Some(InvalidArgument)
      <==> Provided(LiveProfiles(db.profiles, owner, r.scope))
           != Provided(LiveProfiles(db.profiles, owner, TargetScope(r)))
  {
    hide Inv, LiveProfiles, Prepare, Provided, ReplaceRefusal, TargetScope;
    MoveCoversIff(env, i, db, r.grant, r.scope, TargetScope(r), blobs, clock);
    var e := Prepare(i, db, r.grant, [r.scope, TargetScope(r)], blobs, clock).db;
    assert Visible(e, r.grant, r.scope, r.memory, r.expected, false).None?;
    MalformedMoveIff(env, e, r);
  }

  // -------------------------------------------------------------- the object

  class Authority {
    const env: Env
    const identity: Identity
    var db: Db

    ghost predicate Valid()
      reads this
    {
      Inv(env, db)
    }

    constructor (env: Env, identity: Identity, db: Db)
      requires Inv(env, db)
      ensures Valid() && this.env == env && this.identity == identity && this.db == db
    {
      this.env, this.identity, this.db := env, identity, db;
    }

    /** The stored profiles are compared row by row; the first foreign one ends the call. */
    method EnsureEmbeddingProfile(owner: string, scope: string, dimension: int, at: string)
      returns (generations: set<int>, e: Option<Error>)
      requires Valid()
      modifies this`db
      ensures Valid()
      ensures Ensured(db, generations, e) == EnsureProfiles(identity, old(db), owner, scope, dimension, at)
    {
      EnsuredIsLive(env, identity, db, owner, scope, dimension, at);
      hide Inv;
      if dimension < 1 { return {}, Some(EmbeddingUnavailable); }
      var live := LiveProfiles(db.profiles, owner, scope);
      var todo := live.Keys;
      while todo != {}
        invariant todo <= live.Keys
        invariant forall g | g in live.Keys - todo :: live[g] == Expected(identity, dimension)
        decreases todo
      {
        var g :| g in todo;
        if live[g] != Expected(identity, dimension) { return {}, Some(EmbeddingUnavailable); }
        todo := todo - {g};
      }
      if live != map[] { return live.Keys, None; }
      var first := ProfileKey(owner, scope, DEFAULT_GENERATION);
      if first !in db.profiles {
        db := db.(profiles := db.profiles[first := Profile(Expected(identity, dimension), Active, at, Some(at), None)]);
      }
      return {DEFAULT_GENERATION}, None;
    }

    method PrepareBlobs(grant: string, scopes: seq<string>, blobs: map<int, Blob>, clock: nat -> string)
      returns (outcome: Prepared)
      requires Valid()
      modifies this`db
      ensures Valid()
      ensures Preparation(db, outcome) == Prepare(identity, old(db), grant, scopes, blobs, clock)
    {
      hide Inv, EnsureProfiles, EnsureAll, CoversScopes, OwnerOf;
      if blobs == map[] { return Refused(InvalidArgument); }
      if blobs.Keys != {DEFAULT_GENERATION} { return Ready(blobs); }
      var blob := blobs[DEFAULT_GENERATION];
      if blob == [] || |blob| % 4 != 0 { return Refused(EmbeddingUnavailable); }
      if !CoversScopes(db, grant, scopes) { return Refused(NotAuthorized); }
      var owner := OwnerOf(db, grant);
      var generations := {};
      var n := 0;
      assert scopes[..|scopes|] == scopes;
      EnsureNone(identity, db, owner, scopes, |blob| / 4, clock);
      while n < |scopes|
        invariant 0 <= n <= |scopes| && Valid()
        invariant Ensured(db, generations, None) == EnsureAll(identity, old(db), owner, scopes[..n], |blob| / 4, clock)
      {
        var more, e := EnsureEmbeddingProfile(owner, scopes[n], |blob| / 4, clock(n));
        EnsureOneMore(identity, old(db), owner, scopes, n, |blob| / 4, clock);
        if e.Some? {
          FirstErrorEnds(identity, old(db), owner, scopes, n + 1, |blob| / 4, clock);
          return Refused(e.value);
        }
        generations := generations + more;
        n := n + 1;
      }
      return Ready(map g | g in generations :: blob);
    }
  }

  lemma EnsureNone(i: Identity, db: Db, owner: string, scopes: seq<string>, dimension: int, clock: nat -> string)
    ensures EnsureAll(i, db, owner, scopes[..0], dimension, clock) == Ensured(db, {}, None)
  {
  }

  lemma EnsureOneMore(i: Identity, db: Db, owner: string, scopes: seq<string>, n: nat, dimension: int,
                      clock: nat -> string)
    requires n < |scopes| && EnsureAll(i, db, owner, scopes[..n], dimension, clock).error.None?
    ensures var before := EnsureAll(i, db, owner, scopes[..n], dimension, clock);
      var last := EnsureProfiles(i, before.db, owner, scopes[n], dimension, clock(n));
      EnsureAll(i, db, owner, scopes[..n + 1], dimension, clock)
      == Ensured(last.db, if last.error.Some? then {} else before.generations + last.generations, last.error)
  {
    hide EnsureProfiles;
    assert scopes[..n + 1][..n] == scopes[..n] && scopes[..n + 1][n] == scopes[n];
  }

  lemma {:induction false} FirstErrorEnds(i: Identity, db: Db, owner: string, scopes: seq<string>, n: nat,
                                          dimension: int, clock: nat -> string)
    requires n <= |scopes| && EnsureAll(i, db, owner, scopes[..n], dimension, clock).error.Some?
    ensures EnsureAll(i, db, owner, scopes, dimension, clock) == EnsureAll(i, db, owner, scopes[..n], dimension, clock)
    decreases |scopes| - n
  {
    if n == |scopes| {
      assert scopes[..n] == scopes;
    } else {
      assert scopes[..n + 1][..n] == scopes[..n];
      FirstErrorEnds(i, db, owner, scopes, n + 1, dimension, clock);
    }
  }
}
