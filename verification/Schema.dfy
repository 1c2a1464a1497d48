/** The tables of the canonical authority database and the requests made of it.

    Every SQL table is a map (or a set) indexed by one of its unique keys, so that
    the PRIMARY KEY constraint chosen as index holds by construction and the
    remaining constraints are guards of the statements in `Transactions`. */
module Schema {

  datatype Option<+T> = None | Some(value: T)

  /** What `str.isspace` accepts, hence what `str.strip` removes. */
  predicate IsSpace(c: char) {
    '\t' <= c <= '\r' || '\U{1c}' <= c <= ' ' || c == '\U{85}' || c == '\U{a0}' || c == '\U{1680}'
    || '\U{2000}' <= c <= '\U{200a}' || c == '\U{2028}' || c == '\U{2029}' || c == '\U{202f}'
    || c == '\U{205f}' || c == '\U{3000}'
  }

  predicate Blank(s: string) {
    forall i | 0 <= i < |s| :: IsSpace(s[i])
  }

  const LEGACY_SCOPE := "legacy:unscoped"

  datatype GrantKind = OAuth | Migration

  datatype Grant = Grant(
    owner: string, issuer: string, subject: string, clientId: string, generation: int,
    kind: GrantKind, sourceClient: string,
    oauthScopes: seq<string>, memoryScopes: seq<string>,
    revokedAt: Option<string>, unlinkedAt: Option<string>)

  datatype Status = Building | Active | Retired | Failed

  datatype Provenance = Provenance(provider: string, endpointHash: string, model: string, dimension: int)

  datatype ProfileKey = ProfileKey(owner: string, scope: string, generation: int)

  datatype Profile = Profile(
    provenance: Provenance, status: Status,
    createdAt: string, activatedAt: Option<string>, retiredAt: Option<string>)

  datatype Memory = Memory(content: string, timestamp: string, session: string, tag: string)

  datatype Keyword = Keyword(keyword: string, memory: string)

  datatype Metadata = Metadata(
    owner: string, creator: string, revision: int, scope: string, kind: string, tags: seq<string>,
    contentHash: string, sourceClient: string, conversation: Option<string>, actor: string,
    createdAt: string, updatedAt: string, deletedAt: Option<string>,
    reindexRequired: bool, provenance: map<int, Provenance>)

  /** UNIQUE(memory_id, generation) */
  datatype EmbeddingKey = EmbeddingKey(memory: string, generation: int)

  type Blob = seq<bv8>

  datatype Embedding = Embedding(
    id: string, owner: string, scope: string, provenance: Provenance,
    blob: Blob, vectorRow: Option<int>, createdAt: string)

  datatype Operation = OpAdd | OpReplace | OpRemove | OpRestore | OpPurge

  /** UNIQUE(memory_id, revision) */
  datatype EventKey = EventKey(memory: string, revision: int)

  datatype Event = Event(
    id: string, owner: string, grant: string, operation: Operation,
    actor: string, sourceClient: string, at: string, digest: string)

  /** What a committed write returns: the id, its revision, and the time under which
      the operation reports it (created_at, updated_at, deleted_at, restored_at, purged_at). */
  datatype Receipt = Receipt(memory: string, revision: int, at: string)

  /** PRIMARY KEY(grant_id, operation, idempotency_key) */
  datatype IdemKey = IdemKey(grant: string, operation: Operation, key: string)

  datatype IdemRow = IdemRow(
    owner: string, actor: string, memory: string, scope: string, digest: string,
    result: Option<Receipt>, createdAt: string, purgedAt: Option<string>)

  /** `fts` groups the rows of the full-text table by id: the table itself has no key.
      `vectors` holds the valid vec0 tables by name with their row ids. */
  datatype Db = Db(
    memories: map<string, Memory>,
    keywords: set<Keyword>,
    fts: map<string, multiset<string>>,
    metadata: map<string, Metadata>,
    embeddings: map<EmbeddingKey, Embedding>,
    profiles: map<ProfileKey, Profile>,
    vectorTables: map<ProfileKey, string>,
    vectors: map<string, set<int>>,
    legacyVectors: set<string>,
    events: map<EventKey, Event>,
    idem: map<IdemKey, IdemRow>,
    grants: map<string, Grant>)

  /** The functions the repository computes with but whose values are of no concern here:
      SHA-256 of a content, its lower-cased keywords, and the two kinds of stable id. */
  datatype Env = Env(
    sha256: string -> string,
    keywords: string -> set<string>,
    embeddingId: (string, int) -> string,
    eventId: (string, int, Operation) -> string)

  /** One call on the database. `pick` is the operation of the row that the engine happens
      to return first from the idempotency lookup, which has no ORDER BY.
      The constructors after FailGeneration are the steps taken outside the repository. */
  datatype Request =
    | Add(grant: string, scope: string, memory: string, content: string, kind: string,
          tags: seq<string>, conversation: Option<string>, actor: string, key: string,
          digest: string, at: string, blobs: map<int, Blob>, pick: Operation)
    | Replace(grant: string, scope: string, memory: string, expected: int, content: string,
              kind: string, tags: seq<string>, conversation: Option<string>, actor: string,
              key: string, digest: string, at: string, blobs: map<int, Blob>,
              newScope: Option<string>, pick: Operation)
    | Remove(grant: string, scope: string, memory: string, expected: int, actor: string,
             key: string, digest: string, at: string, pick: Operation)
    | Restore(grant: string, scope: string, memory: string, expected: int, actor: string,
              key: string, digest: string, at: string, pick: Operation)
    | Purge(grant: string, scope: string, memory: string, expected: int, actor: string,
            key: string, digest: string, denyDigest: string, at: string)
    | Cutover(grant: string, scope: string, expected: int, building: int, at: string)
    | FailGeneration(grant: string, scope: string, building: int, at: string)
    | EnsureProfile(owner: string, scope: string, identity: Provenance, at: string)
    | Bind(grantId: string, binding: Grant)
    | Revoke(grant: string, at: string)
    | Unlink(grant: string, at: string)
    | StartBuild(profile: ProfileKey, identity: Provenance, at: string)
    | Backfill(memory: string, profile: ProfileKey, row: Embedding)
    | Project(tables: map<ProfileKey, string>, vectors: map<string, set<int>>,
              rows: map<EmbeddingKey, Option<int>>)

  datatype Error =
    | InvalidArgument                    // ValueError
    | NotAuthorized                      // PermissionError
    | RevisionConflict(current: int)
    | KeyReused
    | KeyPurged(purged: string)
    | ConstraintFailed                   // sqlite3.IntegrityError
    | RuntimeFailure                     // RuntimeError
    | EmbeddingUnavailable
    | Interrupted                        // an exception raised between two statements

  /** Both Replayed and Committed return their receipt to the caller; Applied is the
      successful end of a call that returns nothing. */
  datatype Outcome =
    | Rejected(error: Error)
    | Replayed(receipt: Receipt)
    | Committed(receipt: Receipt)
    | Applied

  datatype Reply = Reply(db: Db, out: Outcome)
}
