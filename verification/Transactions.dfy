/** What each transaction of the authority does to the tables, case by case in the order in
    which the code decides. The methods of `Repository` run the same transactions statement by
    statement and are proved equal to these functions. */
module Transactions {
  import opened Schema

  // ---------------------------------------------------------------- validation

  predicate Texts(s: seq<string>) {
    forall t | t in s :: !Blank(t)
  }

  predicate OptionalText(t: Option<string>) {
    t.Some? ==> !Blank(t.value)
  }

  predicate ValidBlobs(blobs: map<int, Blob>) {
    blobs != map[] && forall g | g in blobs :: g >= 1 && blobs[g] != []
  }

  // The argument checks that each call makes before it opens a connection.

  predicate AddWellFormed(r: Request)
    requires r.Add?
  {
    !Blank(r.grant) && !Blank(r.scope) && !Blank(r.memory) && !Blank(r.content) && !Blank(r.kind)
    && !Blank(r.actor) && !Blank(r.key) && !Blank(r.digest) && !Blank(r.at)
    && Texts(r.tags) && OptionalText(r.conversation) && ValidBlobs(r.blobs)
  }

  predicate ReplaceWellFormed(r: Request)
    requires r.Replace?
  {
    !Blank(r.grant) && !Blank(r.scope) && !Blank(r.memory) && !Blank(r.content) && !Blank(r.kind)
    && !Blank(r.actor) && !Blank(r.key) && !Blank(r.digest) && !Blank(r.at)
    && r.expected >= 1
    && Texts(r.tags) && OptionalText(r.conversation) && OptionalText(r.newScope) && ValidBlobs(r.blobs)
  }

  predicate RowWellFormed(r: Request)
    requires r.Remove? || r.Restore?
  {
    !Blank(r.grant) && !Blank(r.scope) && !Blank(r.memory) && !Blank(r.actor)
    && !Blank(r.key) && !Blank(r.digest) && !Blank(r.at) && r.expected >= 1
  }

  predicate PurgeWellFormed(r: Request)
    requires r.Purge?
  {
    !Blank(r.grant) && !Blank(r.scope) && !Blank(r.memory) && !Blank(r.actor)
    && !Blank(r.key) && !Blank(r.digest) && !Blank(r.denyDigest) && !Blank(r.at) && r.expected >= 1
  }

  predicate CutoverWellFormed(r: Request)
    requires r.Cutover?
  {
    !Blank(r.grant) && !Blank(r.scope) && !Blank(r.at) && r.expected >= 1 && r.building >= 1 && r.expected != r.building
  }

  predicate FailWellFormed(r: Request)
    requires r.FailGeneration?
  {
    !Blank(r.grant) && !Blank(r.scope) && !Blank(r.at) && r.building >= 1
  }

  // ------------------------------------------------------------- authorization

  predicate Usable(db: Db, grant: string) {
    grant in db.grants && db.grants[grant].kind == OAuth
    && db.grants[grant].revokedAt.None? && db.grants[grant].unlinkedAt.None?
  }

  predicate MayReach(db: Db, grant: string, scope: string) {
    grant in db.grants && scope in db.grants[grant].memoryScopes
  }

  predicate CanWrite(db: Db, grant: string, scope: string) {
    Usable(db, grant) && MayReach(db, grant, scope)
    && ("memory:write" in db.grants[grant].oauthScopes || "memory:admin" in db.grants[grant].oauthScopes)
  }

  predicate CanAdmin(db: Db, grant: string, scope: string) {
    Usable(db, grant) && MayReach(db, grant, scope) && "memory:admin" in db.grants[grant].oauthScopes
  }

  function OwnerOf(db: Db, grant: string): string {
    if grant in db.grants then db.grants[grant].owner else ""
  }

  function ClientOf(db: Db, grant: string): string {
    if grant in db.grants then db.grants[grant].sourceClient else ""
  }

  // --------------------------------------------------------------- idempotency

  datatype Lookup = Unused | Replay(receipt: Receipt) | Deny(error: Error)

  const OPERATIONS: seq<Operation> := [OpAdd, OpReplace, OpRemove, OpRestore, OpPurge]

  predicate Matches(db: Db, k: IdemKey, owner: string, scope: string) {
    k in db.idem && db.idem[k].owner == owner && db.idem[k].scope == scope
  }

  /** The row that `fetchone` returns: the one whose operation is `order[0]` if it matches,
      else the next. Which matching row comes first is up to the engine. */
  function Fetch(db: Db, owner: string, grant: string, scope: string, key: string,
                 order: seq<Operation>): Option<IdemKey>
  {
    if order == [] then None
    else if Matches(db, IdemKey(grant, order[0], key), owner, scope) then Some(IdemKey(grant, order[0], key))
    else Fetch(db, owner, grant, scope, key, order[1..])
  }

  function Resolve(db: Db, grant: string, scope: string, operation: Operation, key: string, digest: string,
                   pick: Operation): Lookup
  {
    match Fetch(db, OwnerOf(db, grant), grant, scope, key, [pick] + OPERATIONS)
    case None => Unused
    case Some(k) =>
      if k !in db.idem then Unused
      else if db.idem[k].purgedAt.Some? then Deny(KeyPurged(db.idem[k].memory))
      else if k.operation != operation || db.idem[k].digest != digest then Deny(KeyReused)
      else if db.idem[k].result.None? then Deny(KeyReused)
      else Replay(db.idem[k].result.value)
  }

  // --------------------------------------------------------- shared selections

  /** SELECT ... FROM embedding_profiles WHERE status IN ('ACTIVE', 'BUILDING'), by generation. */
  function LiveProfiles(profiles: map<ProfileKey, Profile>, owner: string, scope: string): map<int, Provenance> {
    map g | g in LiveGenerations(profiles, owner, scope) :: ProvenanceAt(profiles, owner, scope, g)
  }

  function ProvenanceAt(profiles: map<ProfileKey, Profile>, owner: string, scope: string, g: int): Provenance
    requires ProfileKey(owner, scope, g) in profiles
  {
    profiles[ProfileKey(owner, scope, g)].provenance
  }

  function LiveGenerations(profiles: map<ProfileKey, Profile>, owner: string, scope: string): set<int> {
    set k | k in profiles && k.owner == owner && k.scope == scope && IsLive(profiles[k].status) :: k.generation
  }

  predicate IsLive(s: Status) { s == Active || s == Building }

  function ActiveGenerations(profiles: map<ProfileKey, Profile>, owner: string, scope: string): set<int> {
    set k | k in profiles && k.owner == owner && k.scope == scope && profiles[k].status == Active
      :: k.generation
  }

  function Canonical(metadata: map<string, Metadata>, owner: string, scope: string): set<string> {
    set id | id in metadata && metadata[id].owner == owner && metadata[id].scope == scope
  }

  function Embedded(rows: map<EmbeddingKey, Embedding>, owner: string, scope: string, generation: int): set<string> {
    set k | k in rows && k.generation == generation && rows[k].owner == owner && rows[k].scope == scope :: k.memory
  }

  function Bag(fts: map<string, multiset<string>>, id: string): multiset<string> {
    if id in fts then fts[id] else multiset{}
  }

  function KeywordRows(words: set<string>, id: string): set<Keyword> {
    set w | w in words :: Keyword(w, id)
  }

  function OtherKeywords(rows: set<Keyword>, id: string): set<Keyword> {
    set w | w in rows && w.memory != id
  }

  function OtherEmbeddings(rows: map<EmbeddingKey, Embedding>, id: string): map<EmbeddingKey, Embedding> {
    map k | k in rows && k.memory != id :: rows[k]
  }

  // -------------------------------------------------------------- constraints

  predicate EventFits(env: Env, events: map<EventKey, Event>, id: string, revision: int, op: Operation) {
    EventKey(id, revision) !in events
    && forall k | k in events :: events[k].id != env.eventId(id, revision, op)
  }

  /** The event row and the idempotency row of a write can be inserted. */
  predicate LogsFit(env: Env, db: Db, grant: string, id: string, revision: int, op: Operation, key: string) {
    EventFits(env, db.events, id, revision, op) && IdemKey(grant, op, key) !in db.idem
  }

  predicate EmbeddingIdFree(rows: map<EmbeddingKey, Embedding>, embeddingId: string) {
    forall k | k in rows :: rows[k].id != embeddingId
  }

  /** The embedding rows of `generations` can all be inserted: new keys, new ids. */
  predicate EmbeddingsFit(env: Env, rows: map<EmbeddingKey, Embedding>, id: string, generations: set<int>) {
    (forall g | g in generations :: EmbeddingKey(id, g) !in rows && EmbeddingIdFree(rows, env.embeddingId(id, g)))
    && forall g, h | g in generations && h in generations && g != h :: env.embeddingId(id, g) != env.embeddingId(id, h)
  }

  function Fresh(rows: map<EmbeddingKey, Embedding>, id: string, generations: set<int>): set<int> {
    set g | g in generations && EmbeddingKey(id, g) !in rows
  }

  // ------------------------------------------------------------------ inserts

  function WithEvent(env: Env, db: Db, grant: string, id: string, revision: int, op: Operation, actor: string,
                     at: string, digest: string): map<EventKey, Event>
  {
    db.events[EventKey(id, revision) :=
      Event(env.eventId(id, revision, op), OwnerOf(db, grant), grant, op, actor, ClientOf(db, grant), at, digest)]
  }

  function WithReceipt(db: Db, grant: string, op: Operation, key: string, actor: string, scope: string, digest: string,
                       receipt: Receipt): map<IdemKey, IdemRow>
  {
    db.idem[IdemKey(grant, op, key) :=
      IdemRow(OwnerOf(db, grant), actor, receipt.memory, scope, digest, Some(receipt), receipt.at, None)]
  }

  function Reindexed(rows: set<Keyword>, id: string, words: set<string>): set<Keyword> {
    OtherKeywords(rows, id) + KeywordRows(words, id)
  }

  // ---------------------------------------------------------------------- add

  function AddStep(env: Env, db: Db, r: Request): Reply
    requires r.Add?
  {
    if !AddWellFormed(r) then Reply(db, Rejected(InvalidArgument))
    else if !CanWrite(db, r.grant, r.scope) then Reply(db, Rejected(NotAuthorized))
    else match Resolve(db, r.grant, r.scope, OpAdd, r.key, r.digest, r.pick)
    case Deny(e) => Reply(db, Rejected(e))
    case Replay(receipt) => Reply(db, Replayed(receipt))
    case Unused =>
      if r.memory in db.metadata then Reply(db, Rejected(NotAuthorized))
      else if LiveProfiles(db.profiles, OwnerOf(db, r.grant), r.scope).Keys != r.blobs.Keys
        then Reply(db, Rejected(InvalidArgument))
      else if !AddFits(env, db, r) then Reply(db, Rejected(ConstraintFailed))
      else Reply(AddCommit(env, db, r), Committed(Receipt(r.memory, 1, r.at)))
  }

  predicate AddFits(env: Env, db: Db, r: Request)
    requires r.Add?
  {
    r.memory !in db.memories
    && KeywordRows(env.keywords(r.content), r.memory) !! db.keywords
    && EmbeddingsFit(env, db.embeddings, r.memory, r.blobs.Keys)
    && LogsFit(env, db, r.grant, r.memory, 1, OpAdd, r.key)
  }

  function AddCommit(env: Env, db: Db, r: Request): Db
    requires r.Add?
  {
    var owner := OwnerOf(db, r.grant);
    var live := LiveProfiles(db.profiles, owner, r.scope);
    db.(
      memories := db.memories[r.memory := Memory(r.content, r.at, SessionOf(r.conversation), r.kind)],
      keywords := db.keywords + KeywordRows(env.keywords(r.content), r.memory),
      fts := db.fts[r.memory := Bag(db.fts, r.memory) + multiset{r.content}],
      metadata := db.metadata[r.memory :=
        Metadata(owner, r.grant, 1, r.scope, r.kind, r.tags, env.sha256(r.content), ClientOf(db, r.grant),
                 r.conversation, r.actor, r.at, r.at, None, false, live)],
      embeddings := db.embeddings + NewEmbeddings(env, r.memory, owner, r.scope, live, r.blobs, r.at, live.Keys),
      events := WithEvent(env, db, r.grant, r.memory, 1, OpAdd, r.actor, r.at, r.digest),
      idem := WithReceipt(db, r.grant, OpAdd, r.key, r.actor, r.scope, r.digest, Receipt(r.memory, 1, r.at)))
  }

  function SessionOf(conversation: Option<string>): string {
    if conversation.Some? then conversation.value else ""
  }

  function NewEmbedding(env: Env, id: string, owner: string, scope: string, live: map<int, Provenance>,
                        blobs: map<int, Blob>, at: string, g: int): Embedding
  {
    Embedding(env.embeddingId(id, g), owner, scope,
              if g in live then live[g] else Provenance("", "", "", 0),
              if g in blobs then blobs[g] else [], None, at)
  }

  function NewEmbeddings(env: Env, id: string, owner: string, scope: string, live: map<int, Provenance>,
                         blobs: map<int, Blob>, at: string, generations: set<int>): map<EmbeddingKey, Embedding>
  {
    map g | g in generations :: EmbeddingKey(id, g) := NewEmbedding(env, id, owner, scope, live, blobs, at, g)
  }

  // ------------------------------------------------------------------ replace

  function TargetScope(r: Request): string
    requires r.Replace?
  {
    if r.newScope.Some? then r.newScope.value else r.scope
  }

  /** The live row that a write names, or the reason why there is none. */
  function Visible(db: Db, grant: string, scope: string, id: string, expected: int, deleted: bool): Option<Error> {
    if !(id in db.metadata && db.metadata[id].owner == OwnerOf(db, grant) && db.metadata[id].scope == scope
         && db.metadata[id].deletedAt.Some? == deleted) then Some(NotAuthorized)
    else if db.metadata[id].revision != expected then Some(RevisionConflict(db.metadata[id].revision))
    else None
  }

  function ReplaceStep(env: Env, db: Db, r: Request): Reply
    requires r.Replace?
  {
    if !ReplaceWellFormed(r) then Reply(db, Rejected(InvalidArgument))
    else if !(CanWrite(db, r.grant, r.scope) && MayReach(db, r.grant, TargetScope(r)))
    then Reply(db, Rejected(NotAuthorized))
    else match Resolve(db, r.grant, r.scope, OpReplace, r.key, r.digest, r.pick)
    case Deny(e) => Reply(db, Rejected(e))
    case Replay(receipt) => Reply(db, Replayed(receipt))
    case Unused =>
      match ReplaceRefusal(env, db, r)
      case Some(e) => Reply(db, Rejected(e))
      case None => Reply(ReplaceCommit(env, db, r), Committed(Receipt(r.memory, r.expected + 1, r.at)))
  }

  predicate Projected(rows: map<EmbeddingKey, Embedding>, id: string, owner: string, scope: string) {
    exists k | k in rows ::
      k.memory == id && rows[k].owner == owner && rows[k].scope == scope && rows[k].vectorRow.Some?
  }

  function ReplaceRefusal(env: Env, db: Db, r: Request): Option<Error>
    requires r.Replace?
  {
    var owner := OwnerOf(db, r.grant);
    var target := TargetScope(r);
    var live := LiveProfiles(db.profiles, owner, target);
    var unseen := Visible(db, r.grant, r.scope, r.memory, r.expected, false);
    if unseen.Some? then unseen
    else if target != r.scope && LiveProfiles(db.profiles, owner, r.scope) != live then Some(InvalidArgument)
    else if target != r.scope && Projected(db.embeddings, r.memory, owner, r.scope) then Some(RuntimeFailure)
    else if live.Keys != r.blobs.Keys then Some(InvalidArgument)
    else if r.memory !in db.memories then Some(RevisionConflict(r.expected))
    else if !ReplaceFits(env, db, r) then Some(ConstraintFailed)
    else None
  }

  /** Unique keys of the inserted rows, and the foreign keys that a scope move defers to the
      commit: no embedding row of the memory may stay behind in the source scope. */
  predicate ReplaceFits(env: Env, db: Db, r: Request)
    requires r.Replace?
  {
    RowsFit(env, db, r.grant, r.memory, r.expected + 1, r.key, TargetScope(r) != r.scope, r.blobs.Keys)
  }

  predicate RowsFit(env: Env, db: Db, grant: string, id: string, revision: int, key: string, moves: bool,
                    generations: set<int>) {
    EmbeddingsFit(env, db.embeddings, id, Fresh(db.embeddings, id, generations))
    && LogsFit(env, db, grant, id, revision, OpReplace, key)
    && (moves ==> OnlyIn(db.embeddings, id, generations))
  }

  predicate OnlyIn(rows: map<EmbeddingKey, Embedding>, id: string, generations: set<int>) {
    forall k | k in rows && k.memory == id :: k.generation in generations
  }

  function Refreshed(rows: map<EmbeddingKey, Embedding>, id: string, scope: string, live: map<int, Provenance>,
                     blobs: map<int, Blob>, at: string): map<EmbeddingKey, Embedding>
  {
    map k | k in rows ::
      if k.memory == id && k.generation in live && k.generation in blobs
      then rows[k].(scope := scope, provenance := live[k.generation], blob := blobs[k.generation],
                    vectorRow := None, createdAt := at)
      else rows[k]
  }

  /** The metadata row after a replace. */
  function Revised(env: Env, row: Metadata, r: Request, client: string, live: map<int, Provenance>): Metadata
    requires r.Replace?
  {
    row.(revision := r.expected + 1, scope := TargetScope(r), kind := r.kind, tags := r.tags,
         contentHash := env.sha256(r.content), sourceClient := client,
         conversation := r.conversation, actor := r.actor, updatedAt := r.at,
         reindexRequired := false, provenance := live)
  }

  function ReplaceCommit(env: Env, db: Db, r: Request): Db
    requires r.Replace? && r.memory in db.metadata && r.memory in db.memories
  {
    var owner := OwnerOf(db, r.grant);
    var target := TargetScope(r);
    var live := LiveProfiles(db.profiles, owner, target);
    var receipt := Receipt(r.memory, r.expected + 1, r.at);
    db.(
      memories := db.memories[r.memory :=
        db.memories[r.memory].(content := r.content, session := SessionOf(r.conversation), tag := r.kind)],
      keywords := Reindexed(db.keywords, r.memory, env.keywords(r.content)),
      fts := db.fts[r.memory := multiset{r.content}],
      metadata := db.metadata[r.memory := Revised(env, db.metadata[r.memory], r, ClientOf(db, r.grant), live)],
      embeddings := Refreshed(db.embeddings, r.memory, target, live, r.blobs, r.at)
        + NewEmbeddings(env, r.memory, owner, target, live, r.blobs, r.at, Fresh(db.embeddings, r.memory, live.Keys)),
      events := WithEvent(env, db, r.grant, r.memory, r.expected + 1, OpReplace, r.actor, r.at, r.digest),
      idem := WithReceipt(db, r.grant, OpReplace, r.key, r.actor, target, r.digest, receipt))
  }

  // ------------------------------------------------------------------- remove

  function RemoveStep(env: Env, db: Db, r: Request): Reply
    requires r.Remove?
  {
    if !RowWellFormed(r) then Reply(db, Rejected(InvalidArgument))
    else if !CanWrite(db, r.grant, r.scope) then Reply(db, Rejected(NotAuthorized))
    else match Resolve(db, r.grant, r.scope, OpRemove, r.key, r.digest, r.pick)
    case Deny(e) => Reply(db, Rejected(e))
    case Replay(receipt) => Reply(db, Replayed(receipt))
    case Unused =>
      match Visible(db, r.grant, r.scope, r.memory, r.expected, false)
      case Some(e) => Reply(db, Rejected(e))
      case None =>
        if !LogsFit(env, db, r.grant, r.memory, r.expected + 1, OpRemove, r.key)
          then Reply(db, Rejected(ConstraintFailed))
        else Reply(RemoveCommit(env, db, r), Committed(Receipt(r.memory, r.expected + 1, r.at)))
  }

  function RemoveCommit(env: Env, db: Db, r: Request): Db
    requires r.Remove? && r.memory in db.metadata
  {
    db.(
      metadata := db.metadata[r.memory := db.metadata[r.memory].(
        revision := r.expected + 1, sourceClient := ClientOf(db, r.grant), actor := r.actor,
        updatedAt := r.at, deletedAt := Some(r.at))],
      events := WithEvent(env, db, r.grant, r.memory, r.expected + 1, OpRemove, r.actor, r.at, r.digest),
      idem := WithReceipt(db, r.grant, OpRemove, r.key, r.actor, r.scope, r.digest,
                          Receipt(r.memory, r.expected + 1, r.at)))
  }

  // ------------------------------------------------------------------ restore

  function RestoreStep(env: Env, db: Db, r: Request): Reply
    requires r.Restore?
  {
    if !RowWellFormed(r) then Reply(db, Rejected(InvalidArgument))
    else if !CanAdmin(db, r.grant, r.scope) then Reply(db, Rejected(NotAuthorized))
    else match Resolve(db, r.grant, r.scope, OpRestore, r.key, r.digest, r.pick)
    case Deny(e) => Reply(db, Rejected(e))
    case Replay(receipt) => Reply(db, Replayed(receipt))
    case Unused =>
      if r.memory !in db.memories then Reply(db, Rejected(NotAuthorized))
      else match Visible(db, r.grant, r.scope, r.memory, r.expected, true)
      case Some(e) => Reply(db, Rejected(e))
      case None =>
        if !FullyEmbedded(db, r.memory, OwnerOf(db, r.grant), r.scope) then Reply(db, Rejected(InvalidArgument))
        else if !LogsFit(env, db, r.grant, r.memory, r.expected + 1, OpRestore, r.key)
          then Reply(db, Rejected(ConstraintFailed))
        else Reply(RestoreCommit(env, db, r), Committed(Receipt(r.memory, r.expected + 1, r.at)))
  }

  predicate FullyEmbedded(db: Db, id: string, owner: string, scope: string) {
    var live := LiveProfiles(db.profiles, owner, scope);
    live != map[]
    && forall g | g in live :: EmbeddingKey(id, g) in db.embeddings
                               && db.embeddings[EmbeddingKey(id, g)].owner == owner
                               && db.embeddings[EmbeddingKey(id, g)].scope == scope
  }

  function RestoreCommit(env: Env, db: Db, r: Request): Db
    requires r.Restore? && r.memory in db.metadata && r.memory in db.memories
  {
    var content := db.memories[r.memory].content;
    db.(
      keywords := Reindexed(db.keywords, r.memory, env.keywords(content)),
      fts := db.fts[r.memory := multiset{content}],
      metadata := db.metadata[r.memory := db.metadata[r.memory].(
        revision := r.expected + 1, sourceClient := ClientOf(db, r.grant), actor := r.actor,
        updatedAt := r.at, deletedAt := None)],
      events := WithEvent(env, db, r.grant, r.memory, r.expected + 1, OpRestore, r.actor, r.at, r.digest),
      idem := WithReceipt(db, r.grant, OpRestore, r.key, r.actor, r.scope, r.digest,
                          Receipt(r.memory, r.expected + 1, r.at)))
  }

  // -------------------------------------------------------------------- purge

  function PurgeStep(env: Env, db: Db, r: Request): Reply
    requires r.Purge?
  {
    if !PurgeWellFormed(r) then Reply(db, Rejected(InvalidArgument))
    else if !CanAdmin(db, r.grant, r.scope) then Reply(db, Rejected(NotAuthorized))
    else if !(r.memory in db.metadata && db.metadata[r.memory].owner == OwnerOf(db, r.grant)
              && db.metadata[r.memory].scope == r.scope) then Reply(db, Rejected(NotAuthorized))
    else if db.metadata[r.memory].revision != r.expected
    then Reply(db, Rejected(RevisionConflict(db.metadata[r.memory].revision)))
    else if !LogsFit(env, db, r.grant, r.memory, r.expected + 1, OpPurge, r.key)
      then Reply(db, Rejected(ConstraintFailed))
    else if !VectorsDeletable(db, r.memory) then Reply(db, Rejected(RuntimeFailure))
    else if r.memory !in db.memories then Reply(db, Rejected(RuntimeFailure))
    else Reply(PurgeCommit(env, db, r), Committed(Receipt(r.memory, r.expected + 1, r.at)))
  }

  function ProfileOf(rows: map<EmbeddingKey, Embedding>, k: EmbeddingKey): ProfileKey
    requires k in rows
  {
    ProfileKey(rows[k].owner, rows[k].scope, k.generation)
  }

  /** Every embedding of the memory in a registered generation has a row id in a valid table. */
  predicate VectorsDeletable(db: Db, id: string) {
    forall k | k in db.embeddings && k.memory == id && ProfileOf(db.embeddings, k) in db.vectorTables ::
      db.embeddings[k].vectorRow.Some? && db.vectorTables[ProfileOf(db.embeddings, k)] in db.vectors
  }

  function PurgedVectors(db: Db, id: string): map<string, set<int>> {
    map t | t in db.vectors ::
      db.vectors[t] - set k | k in db.embeddings && k.memory == id && ProfileOf(db.embeddings, k) in db.vectorTables
                              && db.vectorTables[ProfileOf(db.embeddings, k)] == t && db.embeddings[k].vectorRow.Some?
                        :: db.embeddings[k].vectorRow.value
  }

  function Scrub(row: IdemRow, owner: string, id: string, deny: string, at: string): IdemRow {
    if row.owner == owner && row.memory == id
    then row.(result := None, digest := deny, purgedAt := Some(at)) else row
  }

  function Scrubbed(idem: map<IdemKey, IdemRow>, owner: string, id: string, deny: string,
                    at: string): map<IdemKey, IdemRow> {
    map k | k in idem :: Scrub(idem[k], owner, id, deny, at)
  }

  function PurgeCommit(env: Env, db: Db, r: Request): Db
    requires r.Purge?
  {
    var owner := OwnerOf(db, r.grant);
    var deny := IdemRow(owner, r.actor, r.memory, r.scope, r.denyDigest, None, r.at, Some(r.at));
    db.(
      memories := db.memories - {r.memory},
      keywords := OtherKeywords(db.keywords, r.memory),
      fts := db.fts - {r.memory},
      metadata := db.metadata - {r.memory},
      embeddings := OtherEmbeddings(db.embeddings, r.memory),
      vectors := PurgedVectors(db, r.memory),
      legacyVectors := db.legacyVectors - {r.memory},
      events := WithEvent(env, db, r.grant, r.memory, r.expected + 1, OpPurge, r.actor, r.at, r.digest),
      idem := Scrubbed(db.idem[IdemKey(r.grant, OpPurge, r.key) := deny], owner, r.memory, r.denyDigest, r.at))
  }

  // -------------------------------------------------------------- generations

  function CutoverStep(db: Db, r: Request): Reply
    requires r.Cutover?
  {
    var owner := OwnerOf(db, r.grant);
    var building := ProfileKey(owner, r.scope, r.building);
    if !CutoverWellFormed(r) then Reply(db, Rejected(InvalidArgument))
    else if !CanAdmin(db, r.grant, r.scope) then Reply(db, Rejected(NotAuthorized))
    else if !(ActiveGenerations(db.profiles, owner, r.scope) == {r.expected}
              && building in db.profiles && db.profiles[building].status == Building)
    then Reply(db, Rejected(NotAuthorized))
    else if !InParity(db, owner, r.scope, r.expected, r.building) then Reply(db, Rejected(RuntimeFailure))
    else Reply(CutoverCommit(db, owner, r), Applied)
  }

  /** Same memories in the scope, its ACTIVE rows and its BUILDING rows; BUILDING rows carry the
      building profile; and their physical vectors exist iff the generation is registered. */
  predicate InParity(db: Db, owner: string, scope: string, active: int, building: int) {
    var key := ProfileKey(owner, scope, building);
    Canonical(db.metadata, owner, scope) == Embedded(db.embeddings, owner, scope, active)
      == Embedded(db.embeddings, owner, scope, building)
    && (forall k | k in db.embeddings && ProfileOf(db.embeddings, k) == key ::
          key in db.profiles && db.embeddings[k].provenance == db.profiles[key].provenance)
    && (if key in db.vectorTables
        then db.vectorTables[key] in db.vectors
             && forall k | k in db.embeddings && ProfileOf(db.embeddings, k) == key ::
                  db.embeddings[k].vectorRow.Some?
                    && db.embeddings[k].vectorRow.value in db.vectors[db.vectorTables[key]]
        else forall k | k in db.embeddings && ProfileOf(db.embeddings, k) == key :: db.embeddings[k].vectorRow.None?)
  }

  /** The two UPDATEs of a cutover. */
  function Switched(profiles: map<ProfileKey, Profile>, active: ProfileKey, building: ProfileKey,
                    at: string): map<ProfileKey, Profile> {
    map k | k in profiles ::
      if k == active then profiles[k].(status := Retired, retiredAt := Some(at))
      else if k == building then profiles[k].(status := Active, activatedAt := Some(at), retiredAt := None)
      else profiles[k]
  }

  function CutoverCommit(db: Db, owner: string, r: Request): Db
    requires r.Cutover?
  {
    db.(profiles := Switched(db.profiles, ProfileKey(owner, r.scope, r.expected),
                             ProfileKey(owner, r.scope, r.building), r.at))
  }

  /** The decision that the preflight and the transaction of a generation failure both make. */
  predicate MayFail(db: Db, r: Request)
    requires r.FailGeneration?
  {
    var owner := OwnerOf(db, r.grant);
    var key := ProfileKey(owner, r.scope, r.building);
    CanAdmin(db, r.grant, r.scope) && |ActiveGenerations(db.profiles, owner, r.scope)| == 1
    && key in db.profiles && db.profiles[key].status == Building
  }

  predicate Droppable(db: Db, key: ProfileKey) {
    if key in db.vectorTables then db.vectorTables[key] in db.vectors
    else forall k | k in db.embeddings && ProfileOf(db.embeddings, k) == key :: db.embeddings[k].vectorRow.None?
  }

  function FailStep(db: Db, r: Request): Reply
    requires r.FailGeneration?
  {
    var key := ProfileKey(OwnerOf(db, r.grant), r.scope, r.building);
    if !FailWellFormed(r) then Reply(db, Rejected(InvalidArgument))
    else if !MayFail(db, r) then Reply(db, Rejected(NotAuthorized))
    else if !Droppable(db, key) then Reply(db, Rejected(RuntimeFailure))
    else Reply(FailCommit(db, key, r.at), Applied)
  }

  function FailCommit(db: Db, key: ProfileKey, at: string): Db
    requires key in db.profiles
  {
    db.(
      vectors := if key in db.vectorTables then db.vectors - {db.vectorTables[key]} else db.vectors,
      embeddings := map k | k in db.embeddings && ProfileOf(db.embeddings, k) != key :: db.embeddings[k],
      vectorTables := db.vectorTables - {key},
      profiles := db.profiles[key := db.profiles[key].(status := Failed, retiredAt := Some(at))])
  }

  // ------------------------------------------------ steps outside the repository

  const DEFAULT_GENERATION := 1

  /** `ensure_embedding_profile`: the first write to a scope makes its generation 1 ACTIVE. */
  function EnsureStep(db: Db, r: Request): Reply
    requires r.EnsureProfile?
  {
    var live := LiveProfiles(db.profiles, r.owner, r.scope);
    var first := ProfileKey(r.owner, r.scope, DEFAULT_GENERATION);
    if r.identity.dimension < 1 then Reply(db, Rejected(EmbeddingUnavailable))
    else if live != map[]
    then Reply(db, if forall g | g in live :: live[g] == r.identity then Applied else Rejected(EmbeddingUnavailable))
    else if first in db.profiles then Reply(db, Applied)
    else Reply(db.(profiles := db.profiles[first := Profile(r.identity, Active, r.at, Some(r.at), None)]), Applied)
  }

  predicate Unclaimed(db: Db, id: string, row: Grant) {
    id !in db.grants
    && forall g | g in db.grants :: !(db.grants[g].issuer == row.issuer && db.grants[g].subject == row.subject
                                      && db.grants[g].clientId == row.clientId
                                      && db.grants[g].generation == row.generation)
  }

  /** A building generation is started beside a live one, under a new number. */
  predicate Startable(db: Db, key: ProfileKey) {
    key.generation >= 1 && key !in db.profiles && LiveProfiles(db.profiles, key.owner, key.scope) != map[]
  }

  /** Backfill writes rows of BUILDING generations only; their provenance is left open. */
  predicate Backfillable(db: Db, id: string, key: ProfileKey, row: Embedding) {
    key in db.profiles && db.profiles[key].status == Building
    && id in db.metadata && db.metadata[id].owner == key.owner && db.metadata[id].scope == key.scope
    && row.owner == key.owner && row.scope == key.scope
    && EmbeddingKey(id, key.generation) !in db.embeddings
    && forall k | k in db.embeddings :: db.embeddings[k].id != row.id
  }

  function Reprojected(rows: map<EmbeddingKey, Embedding>,
                       places: map<EmbeddingKey, Option<int>>): map<EmbeddingKey, Embedding> {
    map k | k in rows :: if k in places then rows[k].(vectorRow := places[k]) else rows[k]
  }

  function OutsideStep(db: Db, r: Request): Reply {
    match r
    case EnsureProfile(_, _, _, _) => EnsureStep(db, r)
    case Bind(id, row) =>
      if Unclaimed(db, id, row) then Reply(db.(grants := db.grants[id := row]), Applied)
      else Reply(db, Rejected(ConstraintFailed))
    case Revoke(id, at) =>
      Reply(if id in db.grants then db.(grants := db.grants[id := db.grants[id].(revokedAt := Some(at))]) else db,
            Applied)
    case Unlink(id, at) =>
      Reply(if id in db.grants then db.(grants := db.grants[id := db.grants[id].(unlinkedAt := Some(at))]) else db,
            Applied)
    case StartBuild(key, identity, at) =>
      if Startable(db, key)
      then Reply(db.(profiles := db.profiles[key := Profile(identity, Building, at, None, None)]), Applied)
      else Reply(db, Rejected(ConstraintFailed))
    case Backfill(id, key, row) =>
      if Backfillable(db, id, key, row)
      then Reply(db.(embeddings := db.embeddings[EmbeddingKey(id, key.generation) := row]), Applied)
      else Reply(db, Rejected(ConstraintFailed))
    case Project(tables, vectors, rows) =>
      if tables.Keys <= db.profiles.Keys
        && (forall k, j | k in tables && j in tables && k != j :: tables[k] != tables[j])
      then Reply(db.(vectorTables := tables, vectors := vectors, embeddings := Reprojected(db.embeddings, rows)),
                 Applied)
      else Reply(db, Rejected(ConstraintFailed))
    case _ => Reply(db, Rejected(InvalidArgument))
  }

  // --------------------------------------------------------------------- runs

  function Step(env: Env, db: Db, r: Request): Reply {
    if r.Add? then AddStep(env, db, r)
    else if r.Replace? then ReplaceStep(env, db, r)
    else if r.Remove? then RemoveStep(env, db, r)
    else if r.Restore? then RestoreStep(env, db, r)
    else if r.Purge? then PurgeStep(env, db, r)
    else if r.Cutover? then CutoverStep(db, r)
    else if r.FailGeneration? then FailStep(db, r)
    else OutsideStep(db, r)
  }

  function Run(env: Env, db: Db, rs: seq<Request>): Db
    decreases |rs|
  {
    if rs == [] then db else Run(env, Step(env, db, rs[0]).db, rs[1..])
  }
}
