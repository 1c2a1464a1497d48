/** What each call is answered, told from its arguments and the rows of the tables alone: a second
    account of the transactions, in which no test of theirs occurs, and the proof that they agree. */
module Answers {
  import opened Sets
  import opened Schema
  import opened Transactions
  import opened Integrity
  import opened Preservation
  import opened Effects
  import opened Idempotency

  // --------------------------------------------------------------- arguments

  /** Some character is not white space. */
  predicate Says(s: string) {
    exists i | 0 <= i < |s| :: !IsSpace(s[i])
  }

  predicate AllSay(texts: seq<string>) {
    forall t | t in texts :: Says(t)
  }

  predicate GoodBlobs(blobs: map<int, Blob>) {
    |blobs| > 0 && forall g | g in blobs :: g > 0 && |blobs[g]| > 0
  }

  predicate GoodAdd(r: Request)
    requires r.Add?
  {
    AllSay([r.grant, r.scope, r.memory, r.content, r.kind, r.actor, r.key, r.digest, r.at]) && AllSay(r.tags)
    && (r.conversation == None || Says(r.conversation.value)) && GoodBlobs(r.blobs)
  }

  predicate GoodReplace(r: Request)
    requires r.Replace?
  {
    AllSay([r.grant, r.scope, r.memory, r.content, r.kind, r.actor, r.key, r.digest, r.at]) && AllSay(r.tags)
    && (r.conversation == None || Says(r.conversation.value)) && (r.newScope == None || Says(r.newScope.value))
    && r.expected > 0 && GoodBlobs(r.blobs)
  }

  predicate GoodRow(r: Request)
    requires r.Remove? || r.Restore?
  {
    AllSay([r.grant, r.scope, r.memory, r.actor, r.key, r.digest, r.at]) && r.expected > 0
  }

  predicate GoodPurge(r: Request)
    requires r.Purge?
  {
    AllSay([r.grant, r.scope, r.memory, r.actor, r.key, r.digest, r.denyDigest, r.at]) && r.expected > 0
  }

  // ------------------------------------------------------------------- grants

  const WRITERS: set<string> := {"memory:write", "memory:admin"}
  const ADMINS: set<string> := {"memory:admin"}

  /** The grant is a client's, in force, lists the scope and carries one of the rights. */
  predicate Entitled(db: Db, grant: string, scope: string, rights: set<string>) {
    grant in db.grants
    && var g := db.grants[grant];
      g.kind == GrantKind.OAuth && g.revokedAt == None && g.unlinkedAt == None && scope in g.memoryScopes
      && exists right | right in rights :: right in g.oauthScopes
  }

  lemma EntitledIff(db: Db, grant: string, scope: string)
    ensures CanWrite(db, grant, scope) <==> Entitled(db, grant, scope, WRITERS)
    ensures CanAdmin(db, grant, scope) <==> Entitled(db, grant, scope, ADMINS)
  {
    assert "memory:write" in WRITERS && "memory:admin" in WRITERS && "memory:admin" in ADMINS;
  }

  lemma SaysIff(s: string)
    ensures Says(s) <==> !Blank(s)
  {
  }

  lemma AddArguments(r: Request)
    requires r.Add?
    ensures GoodAdd(r) <==> AddWellFormed(r)
  {
    hide Blank, Says;
    var texts := [r.grant, r.scope, r.memory, r.content, r.kind, r.actor, r.key, r.digest, r.at];
    assert AllSay(texts) <==> forall i | 0 <= i < |texts| :: Says(texts[i]);
    forall s ensures Says(s) <==> !Blank(s) { SaysIff(s); }
  }

  lemma ReplaceArguments(r: Request)
    requires r.Replace?
    ensures GoodReplace(r) <==> ReplaceWellFormed(r)
  {
    hide Blank, Says;
    var texts := [r.grant, r.scope, r.memory, r.content, r.kind, r.actor, r.key, r.digest, r.at];
    assert AllSay(texts) <==> forall i | 0 <= i < |texts| :: Says(texts[i]);
    forall s ensures Says(s) <==> !Blank(s) { SaysIff(s); }
  }

  lemma RowArguments(r: Request)
    requires r.Remove? || r.Restore?
    ensures GoodRow(r) <==> RowWellFormed(r)
  {
    hide Blank, Says;
    var texts := [r.grant, r.scope, r.memory, r.actor, r.key, r.digest, r.at];
    assert AllSay(texts) <==> forall i | 0 <= i < |texts| :: Says(texts[i]);
    forall s ensures Says(s) <==> !Blank(s) { SaysIff(s); }
  }

  lemma PurgeArguments(r: Request)
    requires r.Purge?
    ensures GoodPurge(r) <==> PurgeWellFormed(r)
  {
    hide Blank, Says;
    var texts := [r.grant, r.scope, r.memory, r.actor, r.key, r.digest, r.denyDigest, r.at];
    assert AllSay(texts) <==> forall i | 0 <= i < |texts| :: Says(texts[i]);
    forall s ensures Says(s) <==> !Blank(s) { SaysIff(s); }
  }

  // -------------------------------------------------------------------- keys

  /** A row of the operation is filed under the grant and key of the call, for its owner and scope. */
  predicate Filed(db: Db, r: Request, op: Operation)
    requires IsWrite(r)
  {
    var k := IdemKey(r.grant, op, r.key);
    k in db.idem && r.grant in db.grants && db.idem[k].owner == db.grants[r.grant].owner && db.idem[k].scope == r.scope
  }

  predicate KeyFiled(db: Db, r: Request)
    requires IsWrite(r)
  {
    exists op :: Filed(db, r, op)
  }

  /** What the filed row says: refused for good once its memory is purged, refused if it was filed by
      another operation or for another payload, and else answered with its receipt. */
  predicate RowTells(db: Db, r: Request, op: Operation, out: Outcome)
    requires IsWrite(r) && Filed(db, r, op)
  {
    var row := db.idem[IdemKey(r.grant, op, r.key)];
    if row.purgedAt != None then out == Rejected(KeyPurged(row.memory))
    else if op == OperationOf(r) && row.digest == r.digest && row.result != None then out == Replayed(row.result.value)
    else out == Rejected(KeyReused)
  }

  /** One of the filed rows answers: that of `pick` if it is among them. */
  predicate KeyTells(db: Db, r: Request, out: Outcome)
    requires IsWrite(r) && !r.Purge?
  {
    exists op :: Filed(db, r, op) && RowTells(db, r, op, out) && (Filed(db, r, r.pick) ==> op == r.pick)
  }

  lemma KeyIff(db: Db, r: Request)
    requires IsWrite(r) && !r.Purge? && r.grant in db.grants
    ensures Resolve(db, r.grant, r.scope, OperationOf(r), r.key, r.digest, r.pick).Unused? <==> !KeyFiled(db, r)
  {
    hide Resolve;
    ResolveFinds(db, r.grant, r.scope, OperationOf(r), r.key, r.digest, r.pick);
    forall o: Operation
      ensures Filed(db, r, o) <==> Matches(db, IdemKey(r.grant, o, r.key), OwnerOf(db, r.grant), r.scope)
    {
    }
  }

  lemma KeyAnswers(env: Env, db: Db, r: Request)
    requires IsWrite(r) && !r.Purge? && r.grant in db.grants && Authorized(db, r) && KeyFiled(db, r)
    ensures KeyTells(db, r, Step(env, db, r).out)
  {
    hide Step, Authorized;
    KeyIff(db, r);
    var order := [r.pick] + OPERATIONS;
    FetchFinds(db, OwnerOf(db, r.grant), r.grant, r.scope, r.key, order);
    ResolveFinds(db, r.grant, r.scope, OperationOf(r), r.key, r.digest, r.pick);
    var k := Fetch(db, OwnerOf(db, r.grant), r.grant, r.scope, r.key, order).value;
    assert k == IdemKey(r.grant, k.operation, r.key) && Filed(db, r, k.operation);
    KnownKeyAnswers(env, db, r, Resolve(db, r.grant, r.scope, OperationOf(r), r.key, r.digest, r.pick));
  }

  // --------------------------------------------------------------------- rows

  /** The generation of the scope is ACTIVE or BUILDING. */
  predicate Lives(db: Db, owner: string, scope: string, g: int) {
    var k := ProfileKey(owner, scope, g);
    k in db.profiles && (db.profiles[k].status == Active || db.profiles[k].status == Building)
  }

  /** One vector for each live generation of the scope, and no other. */
  ghost predicate CoversLive(db: Db, owner: string, scope: string, blobs: map<int, Blob>) {
    forall g :: g in blobs <==> Lives(db, owner, scope, g)
  }

  lemma LiveIff(db: Db, owner: string, scope: string, blobs: map<int, Blob>)
    ensures LiveProfiles(db.profiles, owner, scope).Keys == blobs.Keys <==> CoversLive(db, owner, scope, blobs)
  {
    LiveAt(db, owner, scope);
    SameSetsIff(LiveProfiles(db.profiles, owner, scope).Keys, blobs.Keys);
  }

  lemma SameSetsIff(a: set<int>, b: set<int>)
    ensures a == b <==> forall g :: g in a <==> g in b
  {
    if forall g :: g in a <==> g in b {
      assert forall g | g in a :: g in b;
      assert forall g | g in b :: g in a;
      assert a <= b && b <= a;
    }
  }

  lemma LiveAt(db: Db, owner: string, scope: string)
    ensures forall g :: g in LiveProfiles(db.profiles, owner, scope) <==> Lives(db, owner, scope, g)
    ensures forall g | Lives(db, owner, scope, g) ::
      LiveProfiles(db.profiles, owner, scope)[g] == db.profiles[ProfileKey(owner, scope, g)].provenance
  {
    forall g ensures g in LiveProfiles(db.profiles, owner, scope) <==> Lives(db, owner, scope, g) {
      var k := ProfileKey(owner, scope, g);
      assert k in db.profiles ==> k.generation == g;
    }
  }

  /** The two log rows of the write find their unique keys free. */
  predicate LogRoom(env: Env, db: Db, r: Request)
    requires IsWrite(r)
  {
    var revision := if r.Add? then 1 else r.expected + 1;
    EventKey(r.memory, revision) !in db.events
    && (forall k | k in db.events :: db.events[k].id != env.eventId(r.memory, revision, OperationOf(r)))
    && IdemKey(r.grant, OperationOf(r), r.key) !in db.idem
  }

  lemma LogRoomIff(env: Env, db: Db, r: Request)
    requires IsWrite(r)
    ensures LogRoom(env, db, r) <==> LogsFit(env, db, r.grant, r.memory, NextRevision(r), OperationOf(r), r.key)
  {
  }

  /** An embedding row of each generation finds its unique key and its unique id free. */
  predicate EmbeddingRoom(env: Env, db: Db, id: string, generations: set<int>) {
    (forall g, k | g in generations && k in db.embeddings ::
       k != EmbeddingKey(id, g) && db.embeddings[k].id != env.embeddingId(id, g))
    && forall g, h | g in generations && h in generations && g != h :: env.embeddingId(id, g) != env.embeddingId(id, h)
  }

  lemma EmbeddingRoomIff(env: Env, db: Db, id: string, generations: set<int>)
    ensures EmbeddingRoom(env, db, id, generations) <==> EmbeddingsFit(env, db.embeddings, id, generations)
  {
    if EmbeddingsFit(env, db.embeddings, id, generations) {
      forall g, k | g in generations && k in db.embeddings
        ensures k != EmbeddingKey(id, g) && db.embeddings[k].id != env.embeddingId(id, g)
      {
        assert EmbeddingIdFree(db.embeddings, env.embeddingId(id, g));
      }
    }
    if EmbeddingRoom(env, db, id, generations) {
      forall g | g in generations
        ensures EmbeddingKey(id, g) !in db.embeddings && EmbeddingIdFree(db.embeddings, env.embeddingId(id, g))
      {
      }
    }
  }

  // ---------------------------------------------------------------------- add

  predicate AddRoom(env: Env, db: Db, r: Request)
    requires r.Add?
  {
    r.memory !in db.memories
    && (forall w | w in db.keywords :: !(w.memory == r.memory && w.keyword in env.keywords(r.content)))
    && EmbeddingRoom(env, db, r.memory, r.blobs.Keys) && LogRoom(env, db, r)
  }

  lemma AddRoomIff(env: Env, db: Db, r: Request)
    requires r.Add?
    ensures AddRoom(env, db, r) <==> AddFits(env, db, r)
  {
    hide EmbeddingRoom, EmbeddingsFit, LogRoom, LogsFit;
    EmbeddingRoomIff(env, db, r.memory, r.blobs.Keys);
    LogRoomIff(env, db, r);
    forall w ensures w in KeywordRows(env.keywords(r.content), r.memory)
      <==> w.memory == r.memory && w.keyword in env.keywords(r.content)
    {
      assert w == Keyword(w.keyword, w.memory);
    }
  }

  /** `add_memory`, answer by answer. */
  lemma AddAnswers(env: Env, db: Db, r: Request)
    requires r.Add?
    ensures var out := Step(env, db, r).out;
      if !GoodAdd(r) then out == Rejected(InvalidArgument)
      else if !Entitled(db, r.grant, r.scope, WRITERS) then out == Rejected(NotAuthorized)
      else if KeyFiled(db, r) then KeyTells(db, r, out)
      else if r.memory in db.metadata then out == Rejected(NotAuthorized)
      else if !CoversLive(db, db.grants[r.grant].owner, r.scope, r.blobs) then out == Rejected(InvalidArgument)
      else if !AddRoom(env, db, r) then out == Rejected(ConstraintFailed)
      else out == Committed(Receipt(r.memory, 1, r.at))
  {
    hide GoodAdd, AddWellFormed, Entitled, CanWrite, Resolve, KeyFiled, KeyTells, CoversLive, LiveProfiles, AddRoom,
         AddFits, AddCommit;
    AddArguments(r);
    EntitledIff(db, r.grant, r.scope);
    if GoodAdd(r) && Entitled(db, r.grant, r.scope, WRITERS) {
      EntitledIsThere(db, r.grant, r.scope, WRITERS);
      KeyIff(db, r);
      LiveIff(db, db.grants[r.grant].owner, r.scope, r.blobs);
      AddRoomIff(env, db, r);
      if KeyFiled(db, r) { KeyAnswers(env, db, r); }
    }
  }

  lemma EntitledIsThere(db: Db, grant: string, scope: string, rights: set<string>)
    requires Entitled(db, grant, scope, rights)
    ensures grant in db.grants && OwnerOf(db, grant) == db.grants[grant].owner
  {
  }

  // ------------------------------------------------------------------ replace

  function Target(r: Request): string
    requires r.Replace?
  {
    match r.newScope case None => r.scope case Some(scope) => scope
  }

  /** The row lies in the caller's scope, is the caller's, and is a tombstone or not as asked for. */
  predicate Stands(db: Db, r: Request, deleted: bool)
    requires IsWrite(r)
  {
    r.memory in db.metadata && r.grant in db.grants && db.metadata[r.memory].owner == db.grants[r.grant].owner
    && db.metadata[r.memory].scope == r.scope && (db.metadata[r.memory].deletedAt == None <==> !deleted)
  }

  lemma StandsIff(db: Db, r: Request, deleted: bool)
    requires IsWrite(r) && !r.Add? && r.grant in db.grants
    ensures Visible(db, r.grant, r.scope, r.memory, r.expected, deleted)
         == if !Stands(db, r, deleted) then Some(NotAuthorized)
            else if db.metadata[r.memory].revision != r.expected
              then Some(RevisionConflict(db.metadata[r.memory].revision))
            else None
  {
  }

  /** Both scopes have the same live generations with the same provenance. */
  ghost predicate AlikeScopes(db: Db, owner: string, source: string, target: string) {
    forall g ::
      (Lives(db, owner, source, g) <==> Lives(db, owner, target, g))
      && (Lives(db, owner, source, g) && Lives(db, owner, target, g) ==>
            db.profiles[ProfileKey(owner, source, g)].provenance
              == db.profiles[ProfileKey(owner, target, g)].provenance)
  }

  lemma AlikeIff(db: Db, owner: string, source: string, target: string)
    ensures AlikeScopes(db, owner, source, target)
      <==> LiveProfiles(db.profiles, owner, source) == LiveProfiles(db.profiles, owner, target)
  {
    hide LiveProfiles;
    LiveAt(db, owner, source);
    LiveAt(db, owner, target);
    var a, b := LiveProfiles(db.profiles, owner, source), LiveProfiles(db.profiles, owner, target);
    if AlikeScopes(db, owner, source, target) {
      forall g ensures g in a <==> g in b
        ensures g in a && g in b ==> a[g] == b[g]
      {
      }
      assert a == b;
    }
    if a == b {
      forall g ensures Lives(db, owner, source, g) <==> Lives(db, owner, target, g)
        ensures Lives(db, owner, source, g) && Lives(db, owner, target, g) ==>
          db.profiles[ProfileKey(owner, source, g)].provenance == db.profiles[ProfileKey(owner, target, g)].provenance
      {
      }
    }
  }

  /** The memory has a vector with a place in a table of the scope. */
  predicate HasPlace(db: Db, id: string, owner: string, scope: string) {
    exists k | k in db.embeddings ::
      k.memory == id && db.embeddings[k].owner == owner && db.embeddings[k].scope == scope
      && db.embeddings[k].vectorRow != None
  }

  predicate ReplaceRoom(env: Env, db: Db, r: Request)
    requires r.Replace?
  {
    EmbeddingRoom(env, db, r.memory, set g | g in r.blobs && EmbeddingKey(r.memory, g) !in db.embeddings)
    && LogRoom(env, db, r)
    && (Target(r) != r.scope ==> forall k | k in db.embeddings && k.memory == r.memory :: k.generation in r.blobs)
  }

  lemma ReplaceRoomIff(env: Env, db: Db, r: Request)
    requires r.Replace?
    ensures ReplaceRoom(env, db, r) <==> ReplaceFits(env, db, r)
  {
    hide EmbeddingRoom, EmbeddingsFit, LogRoom, LogsFit;
    var missing := set g | g in r.blobs && EmbeddingKey(r.memory, g) !in db.embeddings;
    assert missing == Fresh(db.embeddings, r.memory, r.blobs.Keys);
    EmbeddingRoomIff(env, db, r.memory, missing);
    LogRoomIff(env, db, r);
  }

  /** `replace_memory`, answer by answer. */
  lemma ReplaceAnswers(env: Env, db: Db, r: Request)
    requires r.Replace?
    ensures var out := Step(env, db, r).out;
      if !GoodReplace(r) then out == Rejected(InvalidArgument)
      else if !(Entitled(db, r.grant, r.scope, WRITERS) && Target(r) in db.grants[r.grant].memoryScopes)
      then out == Rejected(NotAuthorized)
      else if KeyFiled(db, r) then KeyTells(db, r, out)
      else if !Stands(db, r, false) then out == Rejected(NotAuthorized)
      else
        var owner := db.grants[r.grant].owner;
        if db.metadata[r.memory].revision != r.expected
        then out == Rejected(RevisionConflict(db.metadata[r.memory].revision))
        else if Target(r) != r.scope
          && !AlikeScopes(db, owner, r.scope, Target(r)) then out == Rejected(InvalidArgument)
        else if Target(r) != r.scope && HasPlace(db, r.memory, owner, r.scope) then out == Rejected(RuntimeFailure)
        else if !CoversLive(db, owner, Target(r), r.blobs) then out == Rejected(InvalidArgument)
        else if r.memory !in db.memories then out == Rejected(RevisionConflict(r.expected))
        else if !ReplaceRoom(env, db, r) then out == Rejected(ConstraintFailed)
        else out == Committed(Receipt(r.memory, r.expected + 1, r.at))
  {
    hide GoodReplace, ReplaceWellFormed, Entitled, CanWrite, Resolve, KeyFiled, KeyTells, Stands, Visible, AlikeScopes,
         HasPlace, Projected, CoversLive, LiveProfiles, ReplaceRoom, ReplaceFits, ReplaceCommit, ReplaceRefusal;
    ReplaceArguments(r);
    EntitledIff(db, r.grant, r.scope);
    if GoodReplace(r) && Entitled(db, r.grant, r.scope, WRITERS) {
      EntitledIsThere(db, r.grant, r.scope, WRITERS);
      KeyIff(db, r);
      if KeyFiled(db, r) {
        if Target(r) in db.grants[r.grant].memoryScopes { KeyAnswers(env, db, r); }
      } else {
        RefusalTold(env, db, r);
      }
    }
  }

  /** Why a replace with good arguments and an unused key is refused. */
  lemma RefusalTold(env: Env, db: Db, r: Request)
    requires r.Replace? && r.grant in db.grants
    ensures var owner := db.grants[r.grant].owner;
      ReplaceRefusal(env, db, r) ==
      if !Stands(db, r, false) then Some(NotAuthorized)
      else if db.metadata[r.memory].revision != r.expected then Some(RevisionConflict(db.metadata[r.memory].revision))
      else if Target(r) != r.scope && !AlikeScopes(db, owner, r.scope, Target(r)) then Some(InvalidArgument)
      else if Target(r) != r.scope && HasPlace(db, r.memory, owner, r.scope) then Some(RuntimeFailure)
      else if !CoversLive(db, owner, Target(r), r.blobs) then Some(InvalidArgument)
      else if r.memory !in db.memories then Some(RevisionConflict(r.expected))
      else if !ReplaceRoom(env, db, r) then Some(ConstraintFailed)
      else None
  {
    hide Visible, AlikeScopes, CoversLive, LiveProfiles, ReplaceRoom, ReplaceFits, Projected, HasPlace;
    var owner := db.grants[r.grant].owner;
    StandsIff(db, r, false);
    AlikeIff(db, owner, r.scope, Target(r));
    LiveIff(db, owner, Target(r), r.blobs);
    ReplaceRoomIff(env, db, r);
    PlaceIff(db, r.memory, owner, r.scope);
  }

  lemma PlaceIff(db: Db, id: string, owner: string, scope: string)
    ensures HasPlace(db, id, owner, scope) <==> Projected(db.embeddings, id, owner, scope)
  {
  }

  // ------------------------------------------------------- remove and restore

  /** `remove_memory`, answer by answer. */
  lemma RemoveAnswers(env: Env, db: Db, r: Request)
    requires r.Remove?
    ensures var out := Step(env, db, r).out;
      if !GoodRow(r) then out == Rejected(InvalidArgument)
      else if !Entitled(db, r.grant, r.scope, WRITERS) then out == Rejected(NotAuthorized)
      else if KeyFiled(db, r) then KeyTells(db, r, out)
      else if !Stands(db, r, false) then out == Rejected(NotAuthorized)
      else if db.metadata[r.memory].revision != r.expected
      then out == Rejected(RevisionConflict(db.metadata[r.memory].revision))
      else if !LogRoom(env, db, r) then out == Rejected(ConstraintFailed)
      else out == Committed(Receipt(r.memory, r.expected + 1, r.at))
  {
    hide GoodRow, RowWellFormed, Entitled, CanWrite, Resolve, KeyFiled, KeyTells, Stands, Visible, LogRoom, LogsFit,
         RemoveCommit;
    RowArguments(r);
    EntitledIff(db, r.grant, r.scope);
    if GoodRow(r) && Entitled(db, r.grant, r.scope, WRITERS) {
      EntitledIsThere(db, r.grant, r.scope, WRITERS);
      KeyIff(db, r);
      StandsIff(db, r, false);
      LogRoomIff(env, db, r);
      if KeyFiled(db, r) { KeyAnswers(env, db, r); }
    }
  }

  /** The scope has a live generation, and the memory a row of the scope for each of them. */
  ghost predicate RowsForLive(db: Db, id: string, owner: string, scope: string) {
    (exists g :: Lives(db, owner, scope, g))
    && forall g | Lives(db, owner, scope, g) ::
      EmbeddingKey(id, g) in db.embeddings && db.embeddings[EmbeddingKey(id, g)].owner == owner
      && db.embeddings[EmbeddingKey(id, g)].scope == scope
  }

  lemma RowsForLiveIff(db: Db, id: string, owner: string, scope: string)
    ensures RowsForLive(db, id, owner, scope) <==> FullyEmbedded(db, id, owner, scope)
  {
    hide LiveProfiles, Lives;
    LiveAt(db, owner, scope);
    var live := LiveProfiles(db.profiles, owner, scope);
    SomeNumber(live.Keys);
    assert live.Keys == {} ==> live == map[];
  }

  /** `restore_memory`, answer by answer. */
  lemma RestoreAnswers(env: Env, db: Db, r: Request)
    requires r.Restore?
    ensures var out := Step(env, db, r).out;
      if !GoodRow(r) then out == Rejected(InvalidArgument)
      else if !Entitled(db, r.grant, r.scope, ADMINS) then out == Rejected(NotAuthorized)
      else if KeyFiled(db, r) then KeyTells(db, r, out)
      else if !(r.memory in db.memories && Stands(db, r, true)) then out == Rejected(NotAuthorized)
      else if db.metadata[r.memory].revision != r.expected
      then out == Rejected(RevisionConflict(db.metadata[r.memory].revision))
      else if !RowsForLive(db, r.memory, db.grants[r.grant].owner, r.scope) then out == Rejected(InvalidArgument)
      else if !LogRoom(env, db, r) then out == Rejected(ConstraintFailed)
      else out == Committed(Receipt(r.memory, r.expected + 1, r.at))
  {
    hide GoodRow, RowWellFormed, Entitled, CanAdmin, Resolve, KeyFiled, KeyTells, Stands, Visible, LogRoom, LogsFit,
         RowsForLive, FullyEmbedded, RestoreCommit;
    RowArguments(r);
    EntitledIff(db, r.grant, r.scope);
    if GoodRow(r) && Entitled(db, r.grant, r.scope, ADMINS) {
      EntitledIsThere(db, r.grant, r.scope, ADMINS);
      KeyIff(db, r);
      StandsIff(db, r, true);
      LogRoomIff(env, db, r);
      RowsForLiveIff(db, r.memory, db.grants[r.grant].owner, r.scope);
      if KeyFiled(db, r) { KeyAnswers(env, db, r); }
    }
  }

  // -------------------------------------------------------------------- purge

  /** The table registered for the generation of an embedding row, if there is one. */
  function TableOf(db: Db, k: EmbeddingKey): Option<string>
    requires k in db.embeddings
  {
    var p := ProfileKey(db.embeddings[k].owner, db.embeddings[k].scope, k.generation);
    if p in db.vectorTables then Some(db.vectorTables[p]) else None
  }

  /** Every vector of the memory that a table is registered for can be found in it. */
  predicate PlacesKnown(db: Db, id: string) {
    forall k | k in db.embeddings && k.memory == id && TableOf(db, k) != None ::
      db.embeddings[k].vectorRow != None && TableOf(db, k).value in db.vectors
  }

  lemma PlacesIff(db: Db, id: string)
    ensures PlacesKnown(db, id) <==> VectorsDeletable(db, id)
  {
  }

  /** `purge_memory`, answer by answer: it looks up no key, and takes live rows and tombstones. */
  lemma PurgeAnswers(env: Env, db: Db, r: Request)
    requires r.Purge?
    ensures var out := Step(env, db, r).out;
      if !GoodPurge(r) then out == Rejected(InvalidArgument)
      else if !Entitled(db, r.grant, r.scope, ADMINS) then out == Rejected(NotAuthorized)
      else if !(Stands(db, r, false) || Stands(db, r, true)) then out == Rejected(NotAuthorized)
      else if db.metadata[r.memory].revision != r.expected
      then out == Rejected(RevisionConflict(db.metadata[r.memory].revision))
      else if !LogRoom(env, db, r) then out == Rejected(ConstraintFailed)
      else if !PlacesKnown(db, r.memory) || r.memory !in db.memories then out == Rejected(RuntimeFailure)
      else out == Committed(Receipt(r.memory, r.expected + 1, r.at))
  {
    hide GoodPurge, PurgeWellFormed, Entitled, CanAdmin, PlacesKnown, VectorsDeletable, LogRoom, LogsFit, PurgeCommit;
    PurgeArguments(r);
    EntitledIff(db, r.grant, r.scope);
    PlacesIff(db, r.memory);
    LogRoomIff(env, db, r);
    if Entitled(db, r.grant, r.scope, ADMINS) { EntitledIsThere(db, r.grant, r.scope, ADMINS); }
  }

  // -------------------------------------------------------------- generations

  /** The generation is ACTIVE, and no other one of the scope is. */
  ghost predicate OnlyActive(db: Db, owner: string, scope: string, g: int) {
    forall k :: (k in db.profiles && k.owner == owner && k.scope == scope && db.profiles[k].status == Active)
                <==> k == ProfileKey(owner, scope, g)
  }

  lemma OnlyActiveIff(db: Db, owner: string, scope: string, g: int)
    ensures OnlyActive(db, owner, scope, g) <==> ActiveGenerations(db.profiles, owner, scope) == {g}
  {
    var active := ActiveGenerations(db.profiles, owner, scope);
    forall k | k in db.profiles && k.owner == owner && k.scope == scope && db.profiles[k].status == Active
      ensures k.generation in active
    {
    }
    if active == {g} {
      assert g in active;
      forall k ensures (k in db.profiles && k.owner == owner && k.scope == scope && db.profiles[k].status == Active)
                       <==> k == ProfileKey(owner, scope, g)
      {
      }
    }
    if OnlyActive(db, owner, scope, g) {
      assert ProfileKey(owner, scope, g) in db.profiles && g in active;
      forall h | h in active ensures h == g {
        var k :| k in db.profiles && k.owner == owner && k.scope == scope && db.profiles[k].status == Active
            && k.generation == h;
      }
      assert active == {g};
    }
  }

  /** The memories of the scope are those with a row of the generation in the scope. */
  ghost predicate RowForEach(db: Db, owner: string, scope: string, g: int) {
    forall id ::
      (id in db.metadata && db.metadata[id].owner == owner && db.metadata[id].scope == scope)
      <==> (EmbeddingKey(id, g) in db.embeddings && db.embeddings[EmbeddingKey(id, g)].owner == owner
            && db.embeddings[EmbeddingKey(id, g)].scope == scope)
  }

  lemma RowForEachIff(db: Db, owner: string, scope: string, g: int)
    ensures RowForEach(db, owner, scope, g)
      <==> Canonical(db.metadata, owner, scope) == Embedded(db.embeddings, owner, scope, g)
  {
    var a, b := Canonical(db.metadata, owner, scope), Embedded(db.embeddings, owner, scope, g);
    forall id ensures id in b
      <==> (EmbeddingKey(id, g) in db.embeddings && db.embeddings[EmbeddingKey(id, g)].owner == owner
                                    && db.embeddings[EmbeddingKey(id, g)].scope == scope)
    {
      assert EmbeddingKey(id, g) in db.embeddings ==> EmbeddingKey(id, g).memory == id;
    }
    assert a == b <==> forall id :: id in a <==> id in b;
  }

  /** The rows of the building generation are fit to serve: they carry its provenance, and without a
      registered table none of them has a place, with one each has a place that exists in it. */
  predicate RowsFitToServe(db: Db, owner: string, scope: string, g: int) {
    var p := ProfileKey(owner, scope, g);
    p in db.profiles
    && (p in db.vectorTables ==> db.vectorTables[p] in db.vectors)
    && forall k | k in db.embeddings && k.generation == g && db.embeddings[k].owner == owner
      && db.embeddings[k].scope == scope ::
      db.embeddings[k].provenance == db.profiles[p].provenance
      && if p in db.vectorTables
         then db.embeddings[k].vectorRow != None && db.embeddings[k].vectorRow.value in db.vectors[db.vectorTables[p]]
         else db.embeddings[k].vectorRow == None
  }

  lemma ParityIff(db: Db, owner: string, scope: string, active: int, building: int)
    requires ProfileKey(owner, scope, building) in db.profiles
    ensures InParity(db, owner, scope, active, building)
      <==> RowForEach(db, owner, scope, active) && RowForEach(db, owner, scope, building)
           && RowsFitToServe(db, owner, scope, building)
  {
    hide RowForEach, Canonical, Embedded;
    RowForEachIff(db, owner, scope, active);
    RowForEachIff(db, owner, scope, building);
    forall k | k in db.embeddings
      ensures ProfileOf(db.embeddings, k) == ProfileKey(owner, scope, building)
        <==> k.generation == building && db.embeddings[k].owner == owner && db.embeddings[k].scope == scope
    {
    }
  }

  /** `cutover_embedding_generation`, answer by answer. */
  lemma CutoverAnswers(env: Env, db: Db, r: Request)
    requires r.Cutover?
    ensures var out := Step(env, db, r).out;
      if !(AllSay([r.grant, r.scope, r.at]) && r.expected > 0 && r.building > 0 && r.expected != r.building)
      then out == Rejected(InvalidArgument)
      else if !Entitled(db, r.grant, r.scope, ADMINS) then out == Rejected(NotAuthorized)
      else
        var owner := db.grants[r.grant].owner;
        var p := ProfileKey(owner, r.scope, r.building);
        if !(OnlyActive(db, owner, r.scope, r.expected) && p in db.profiles && db.profiles[p].status == Building)
        then out == Rejected(NotAuthorized)
        else if !(RowForEach(db, owner, r.scope, r.expected) && RowForEach(db, owner, r.scope, r.building)
                  && RowsFitToServe(db, owner, r.scope, r.building)) then out == Rejected(RuntimeFailure)
        else out == Applied
  {
    hide AllSay, CutoverWellFormed, Entitled, CanAdmin, OnlyActive, ActiveGenerations, RowForEach, RowsFitToServe,
         InParity, CutoverCommit;
    ThreeArguments(r.grant, r.scope, r.at);
    CutoverArguments(r);
    EntitledIff(db, r.grant, r.scope);
    if Entitled(db, r.grant, r.scope, ADMINS) {
      EntitledIsThere(db, r.grant, r.scope, ADMINS);
      var owner := db.grants[r.grant].owner;
      OnlyActiveIff(db, owner, r.scope, r.expected);
      if ProfileKey(owner, r.scope, r.building) in db.profiles {
        ParityIff(db, owner, r.scope, r.expected, r.building);
      }
    }
  }

  lemma ThreeArguments(a: string, b: string, c: string)
    ensures AllSay([a, b, c]) <==> !Blank(a) && !Blank(b) && !Blank(c)
  {
    hide Blank, Says;
    var texts := [a, b, c];
    assert AllSay(texts) <==> forall i | 0 <= i < |texts| :: Says(texts[i]);
    forall s ensures Says(s) <==> !Blank(s) { SaysIff(s); }
  }

  lemma CutoverArguments(r: Request)
    requires r.Cutover?
    ensures CutoverWellFormed(r)
      <==> !Blank(r.grant) && !Blank(r.scope) && !Blank(r.at) && r.expected > 0 && r.building > 0
           && r.expected != r.building
  {
    hide Blank;
  }

  /** What the cutover does when it applies: the two profiles change, and nothing else does. */
  lemma CutoverSwitches(env: Env, db: Db, r: Request)
    requires r.Cutover? && Step(env, db, r).out.Applied?
    ensures var owner := OwnerOf(db, r.grant); var e := Step(env, db, r).db;
      var former, later := ProfileKey(owner, r.scope, r.expected), ProfileKey(owner, r.scope, r.building);
      e == db.(profiles := e.profiles) && e.profiles.Keys == db.profiles.Keys
      && former in db.profiles && later in db.profiles
      && e.profiles[former] == Profile(db.profiles[former].provenance, Retired, db.profiles[former].createdAt,
                                    db.profiles[former].activatedAt, Some(r.at))
      && e.profiles[later]
        == Profile(db.profiles[later].provenance, Active, db.profiles[later].createdAt, Some(r.at), None)
      && forall k | k in db.profiles && k != former && k != later :: e.profiles[k] == db.profiles[k]
  {
    hide AddStep, ReplaceStep, RemoveStep, RestoreStep, PurgeStep, OutsideStep, FailStep, CanAdmin, InParity, OwnerOf,
         Entitled,
         RowForEach, RowsFitToServe, ActiveGenerations;
    CutoverAnswers(env, db, r);
    OnlyActiveIff(db, OwnerOf(db, r.grant), r.scope, r.expected);
    assert OnlyActive(db, OwnerOf(db, r.grant), r.scope, r.expected);
  }

  /** The vector table of the generation can be dropped: it exists, or none is registered and no row of
      the generation has a place. */
  predicate TableDroppable(db: Db, owner: string, scope: string, g: int) {
    var p := ProfileKey(owner, scope, g);
    if p in db.vectorTables then db.vectorTables[p] in db.vectors
    else forall k | k in db.embeddings && k.generation == g && db.embeddings[k].owner == owner
      && db.embeddings[k].scope == scope ::
           db.embeddings[k].vectorRow == None
  }

  lemma DroppableIff(db: Db, owner: string, scope: string, g: int)
    ensures TableDroppable(db, owner, scope, g) <==> Droppable(db, ProfileKey(owner, scope, g))
  {
    forall k | k in db.embeddings
      ensures ProfileOf(db.embeddings, k) == ProfileKey(owner, scope, g)
        <==> k.generation == g && db.embeddings[k].owner == owner && db.embeddings[k].scope == scope
    {
    }
  }

  lemma OneActiveIff(db: Db, owner: string, scope: string)
    ensures |ActiveGenerations(db.profiles, owner, scope)| == 1 <==> exists g :: OnlyActive(db, owner, scope, g)
  {
    hide OnlyActive, ActiveGenerations;
    var active := ActiveGenerations(db.profiles, owner, scope);
    forall g ensures OnlyActive(db, owner, scope, g) <==> active == {g} { OnlyActiveIff(db, owner, scope, g); }
    SomeNumber(active);
    if |active| == 1 {
      var g :| g in active;
      SameSizeSubset({g}, active);
    }
  }

  /** `fail_embedding_generation` without any trouble, answer by answer. */
  lemma FailAnswers(env: Env, db: Db, r: Request)
    requires r.FailGeneration?
    ensures var out := Step(env, db, r).out;
      if !(AllSay([r.grant, r.scope, r.at]) && r.building > 0) then out == Rejected(InvalidArgument)
      else if !Entitled(db, r.grant, r.scope, ADMINS) then out == Rejected(NotAuthorized)
      else
        var owner := db.grants[r.grant].owner;
        var p := ProfileKey(owner, r.scope, r.building);
        if !((exists g :: OnlyActive(db, owner, r.scope, g)) && p in db.profiles && db.profiles[p].status == Building)
        then out == Rejected(NotAuthorized)
        else if !TableDroppable(db, owner, r.scope, r.building) then out == Rejected(RuntimeFailure)
        else out == Applied
  {
    hide AllSay, Entitled, CanAdmin, OnlyActive, ActiveGenerations, TableDroppable, Droppable, FailCommit, Blank;
    ThreeArguments(r.grant, r.scope, r.at);
    EntitledIff(db, r.grant, r.scope);
    if Entitled(db, r.grant, r.scope, ADMINS) {
      EntitledIsThere(db, r.grant, r.scope, ADMINS);
      OneActiveIff(db, db.grants[r.grant].owner, r.scope);
      DroppableIff(db, db.grants[r.grant].owner, r.scope, r.building);
    }
  }
}
