/** The scoped reads: what `get` and `recent` return, and whom a write can affect. */
module Reads {
  import opened Schema
  import opened Transactions
  import opened Integrity
  import opened Preservation
  import opened Effects
  import opened Order

  datatype Record = Record(
    memory: string, content: string, revision: int, scope: string, kind: string, tags: seq<string>,
    contentHash: string, sourceClient: string, conversation: Option<string>, actor: string,
    creator: string, createdAt: string, updatedAt: string)

  /** The join with the grant row: it belongs to the row's owner, is in force, reaches the scope, and
      either carries a read right or is the migration grant, which client-facing reads refuse. */
  predicate CanRead(grants: map<string, Grant>, grant: string, owner: string, scope: string, clientFacing: bool) {
    grant in grants && grants[grant].owner == owner
    && grants[grant].revokedAt.None? && grants[grant].unlinkedAt.None?
    && (clientFacing ==> grants[grant].kind == OAuth)
    && scope in grants[grant].memoryScopes
    && (grants[grant].kind == Migration
        || "memory:read" in grants[grant].oauthScopes || "memory:admin" in grants[grant].oauthScopes)
  }

  predicate Shown(db: Db, grant: string, scope: string, clientFacing: bool, id: string) {
    id in db.metadata && id in db.memories && db.metadata[id].scope == scope && db.metadata[id].deletedAt.None?
    && CanRead(db.grants, grant, db.metadata[id].owner, scope, clientFacing)
  }

  function RecordOf(m: Metadata, memory: Memory, id: string): Record {
    Record(id, memory.content, m.revision, m.scope, m.kind, m.tags, m.contentHash, m.sourceClient,
           m.conversation, m.actor, m.creator, m.createdAt, m.updatedAt)
  }

  /** `get_scoped_memory` on nonblank arguments. */
  function Get(db: Db, grant: string, scope: string, clientFacing: bool, id: string): Option<Record> {
    if Shown(db, grant, scope, clientFacing, id)
    then Some(RecordOf(db.metadata[id], db.memories[id], id)) else None
  }

  function ShownIds(db: Db, grant: string, scope: string, clientFacing: bool): set<string> {
    set id | id in db.metadata && Shown(db, grant, scope, clientFacing, id)
  }

  // ------------------------------------------------------------------- order

  /** ORDER BY updated_at DESC, id */
  predicate Before(times: map<string, string>, x: string, y: string)
    requires x in times && y in times
  {
    Less(times[y], times[x]) || (times[x] == times[y] && Less(x, y))
  }

  lemma BeforeIsTotal(times: map<string, string>, x: string, y: string)
    requires x in times && y in times
    ensures Before(times, x, y) || Before(times, y, x) || x == y
    ensures !(Before(times, x, y) && Before(times, y, x))
  {
    LessIsTotal(times[x], times[y]);
    LessIsTotal(x, y);
  }

  lemma BeforeIsTransitive(times: map<string, string>, x: string, y: string, z: string)
    requires x in times && y in times && z in times && Before(times, x, y) && Before(times, y, z)
    ensures Before(times, x, z)
  {
    if Less(times[y], times[x]) && Less(times[z], times[y]) { LessIsTransitive(times[z], times[y], times[x]); }
    if Less(x, y) && Less(y, z) { LessIsTransitive(x, y, z); }
  }

  predicate IsFirst(times: map<string, string>, x: string) {
    x in times && forall y | y in times && y != x :: Before(times, x, y)
  }

  lemma {:induction false} FirstExists(times: map<string, string>) returns (x: string)
    requires times != map[]
    ensures IsFirst(times, x)
    decreases |times|
  {
    var c :| c in times;
    var rest := times - {c};
    x := c;
    assert forall z | z in times && z != c :: z in rest;
    if rest != map[] {
      assert rest.Keys == times.Keys - {c};
      var y := FirstExists(rest);
      BeforeIsTotal(times, c, y);
      x := if Before(times, c, y) then c else y;
      forall z | z in times && z != x ensures Before(times, x, z) {
        if z != c && z != y && x == c {
          assert Before(rest, y, z);
          BeforeIsTransitive(times, c, y, z);
        } else if z != c {
          assert z in rest;
        }
      }
    }
  }

  ghost function First(times: map<string, string>): (x: string)
    requires times != map[]
    ensures IsFirst(times, x)
  {
    assert exists x :: IsFirst(times, x) by { var x := FirstExists(times); }
    var x :| IsFirst(times, x); x
  }

  /** ORDER BY ... LIMIT n */
  ghost function FirstN(times: map<string, string>, n: nat): seq<string>
    decreases n
  {
    if n == 0 || times == map[] then [] else [First(times)] + FirstN(times - {First(times)}, n - 1)
  }

  /** The property that the query asks for, which determines its answer. */
  ghost predicate IsPage(times: map<string, string>, n: nat, ids: seq<string>) {
    |ids| == (if n < |times| then n else |times|)
    && (forall i | 0 <= i < |ids| :: ids[i] in times)
    && (forall i, j | 0 <= i < j < |ids| :: Before(times, ids[i], ids[j]))
    && (forall x, i | x in times && x !in ids && 0 <= i < |ids| :: Before(times, ids[i], x))
  }

  lemma {:induction false} FirstNIsPage(times: map<string, string>, n: nat)
    ensures IsPage(times, n, FirstN(times, n))
    decreases n
  {
    hide IsPage, Before;
    if n == 0 || times == map[] {
      EmptyPage(times, n);
    } else {
      FirstNIsPage(times - {First(times)}, n - 1);
      PageExtends(times, First(times), n, FirstN(times - {First(times)}, n - 1));
    }
  }

  lemma EmptyPage(times: map<string, string>, n: nat)
    requires n == 0 || times == map[]
    ensures IsPage(times, n, [])
  {
  }

  lemma PageExtends(times: map<string, string>, f: string, n: nat, ids: seq<string>)
    requires n > 0 && IsFirst(times, f) && IsPage(times - {f}, n - 1, ids)
    ensures IsPage(times, n, [f] + ids)
  {
    var rest, page := times - {f}, [f] + ids;
    assert |rest| == |times| - 1 by { assert rest.Keys == times.Keys - {f}; }
    forall x, i | x in times && x !in page && 0 <= i < |page| ensures Before(times, page[i], x) {
      if i > 0 { assert Before(rest, ids[i - 1], x); }
    }
    forall i, j | 0 <= i < j < |page| ensures Before(times, page[i], page[j]) {
      if i > 0 { assert Before(rest, ids[i - 1], ids[j - 1]); }
    }
  }

  /** Two answers to the same query are equal. */
  lemma {:induction false} PageIsUnique(times: map<string, string>, n: nat, ids: seq<string>, other: seq<string>)
    requires IsPage(times, n, ids) && IsPage(times, n, other)
    ensures ids == other
  {
    forall k: nat | k < |ids| ensures ids[k] == other[k] {
      SamePrefix(times, n, ids, other, k);
    }
  }

  lemma {:induction false} SamePrefix(times: map<string, string>, n: nat, ids: seq<string>, other: seq<string>, k: nat)
    requires IsPage(times, n, ids) && IsPage(times, n, other) && k < |ids|
    ensures ids[k] == other[k]
    decreases k
  {
    forall j: nat | j < k ensures ids[j] == other[j] { SamePrefix(times, n, ids, other, j); }
    var x, y := ids[k], other[k];
    if x != y {
      NotLater(times, n, ids, other, k);
      NotLater(times, n, other, ids, k);
      BeforeIsTotal(times, x, y);
    }
  }

  /** With equal elements before `k`, the k-th of one page is not after the k-th of the other. */
  lemma NotLater(times: map<string, string>, n: nat, ids: seq<string>, other: seq<string>, k: nat)
    requires IsPage(times, n, ids) && IsPage(times, n, other) && k < |ids| && ids[k] != other[k]
    requires forall j: nat | j < k :: ids[j] == other[j]
    ensures Before(times, ids[k], other[k])
  {
    var y := other[k];
    if y in ids {
      var j: nat :| j < |ids| && ids[j] == y;
      if j < k {
        assert Before(times, other[j], other[k]);
        BeforeIsTotal(times, y, y);
      }
    }
  }

  function Times(metadata: map<string, Metadata>, ids: set<string>): map<string, string> {
    map id | id in ids && id in metadata :: metadata[id].updatedAt
  }

  /** `recent_scoped_memories` on nonblank arguments: the ids of the page, newest first. */
  ghost function Recent(db: Db, grant: string, scope: string, clientFacing: bool, limit: nat): seq<string> {
    FirstN(Times(db.metadata, ShownIds(db, grant, scope, clientFacing)), limit)
  }

  /** `recent` returns exactly the first `limit` of the rows that `get` shows in the scope, newest
      first and by id among equals, and no other page answers the query. */
  lemma RecentIsExact(db: Db, grant: string, scope: string, clientFacing: bool, limit: nat, page: seq<string>)
    ensures IsPage(Times(db.metadata, ShownIds(db, grant, scope, clientFacing)), limit, page)
            <==> page == Recent(db, grant, scope, clientFacing, limit)
    ensures forall id | id in Recent(db, grant, scope, clientFacing, limit) ::
      Get(db, grant, scope, clientFacing, id).Some?
  {
    var times := Times(db.metadata, ShownIds(db, grant, scope, clientFacing));
    FirstNIsPage(times, limit);
    if IsPage(times, limit, page) {
      PageIsUnique(times, limit, page, FirstN(times, limit));
    }
  }

  // ------------------------------------------------------------------- frame

  /** A call of the repository itself, as opposed to a change of grants or profiles around it. */
  predicate IsRepositoryCall(r: Request) {
    IsWrite(r) || r.Cutover? || r.FailGeneration?
  }

  lemma WriteHidesFromOthers(env: Env, db: Db, r: Request, e: Db, grant: string, scope: string, clientFacing: bool,
                             id: string)
    requires IsWrite(r) && WriteEffect(env, db, r, e) && OwnerOf(db, r.grant) != OwnerOf(db, grant)
    ensures Get(e, grant, scope, clientFacing, id) == Get(db, grant, scope, clientFacing, id)
    ensures id in ShownIds(db, grant, scope, clientFacing) ==> e.metadata[id] == db.metadata[id]
    ensures id in ShownIds(e, grant, scope, clientFacing) <==> id in ShownIds(db, grant, scope, clientFacing)
  {
    if id != r.memory {
      SameValue(e.metadata, db.metadata, r.memory, id);
      SameValue(e.memories, db.memories, r.memory, id);
    }
  }

  lemma SameShown(env: Env, db: Db, r: Request, reply: Reply, grant: string, scope: string, clientFacing: bool)
    requires IsRepositoryCall(r) && Effect(env, db, r, reply) && OwnerOf(db, r.grant) != OwnerOf(db, grant)
    ensures ShownIds(reply.db, grant, scope, clientFacing) == ShownIds(db, grant, scope, clientFacing)
    ensures forall id | id in ShownIds(db, grant, scope, clientFacing) :: reply.db.metadata[id] == db.metadata[id]
  {
    if reply.out.Committed? {
      forall id ensures id in ShownIds(reply.db, grant, scope, clientFacing)
        <==> id in ShownIds(db, grant, scope, clientFacing)
        ensures id in ShownIds(db, grant, scope, clientFacing) ==> reply.db.metadata[id] == db.metadata[id]
      {
        WriteHidesFromOthers(env, db, r, reply.db, grant, scope, clientFacing, id);
      }
    }
  }

  lemma SameTimes(m: map<string, Metadata>, n: map<string, Metadata>, ids: set<string>)
    requires ids <= m.Keys && ids <= n.Keys && forall id | id in ids :: m[id] == n[id]
    ensures Times(m, ids) == Times(n, ids)
  {
  }

  /** No call by a grant of another owner changes what a grant gets or sees as recent. */
  lemma OtherOwnersAreUnaffected(env: Env, db: Db, r: Request, grant: string, scope: string, clientFacing: bool,
                                 id: string, limit: nat)
    requires IsRepositoryCall(r) && OwnerOf(db, r.grant) != OwnerOf(db, grant)
    ensures var e := Step(env, db, r).db;
      Get(e, grant, scope, clientFacing, id) == Get(db, grant, scope, clientFacing, id)
      && Recent(e, grant, scope, clientFacing, limit) == Recent(db, grant, scope, clientFacing, limit)
  {
    StepEffect(env, db, r);
    SameReads(env, db, r, Step(env, db, r), grant, scope, clientFacing, id, limit);
  }

  lemma SameReads(env: Env, db: Db, r: Request, reply: Reply, grant: string, scope: string, clientFacing: bool,
                  id: string, limit: nat)
    requires IsRepositoryCall(r) && Effect(env, db, r, reply) && OwnerOf(db, r.grant) != OwnerOf(db, grant)
    ensures Get(reply.db, grant, scope, clientFacing, id) == Get(db, grant, scope, clientFacing, id)
    ensures Recent(reply.db, grant, scope, clientFacing, limit) == Recent(db, grant, scope, clientFacing, limit)
  {
    SameShown(env, db, r, reply, grant, scope, clientFacing);
    SameTimes(reply.db.metadata, db.metadata, ShownIds(db, grant, scope, clientFacing));
    if reply.out.Committed? {
      WriteHidesFromOthers(env, db, r, reply.db, grant, scope, clientFacing, id);
    }
  }

  // ------------------------------------------------------ reading what was written

  lemma AddThenGet(env: Env, db: Db, r: Request, grant: string, clientFacing: bool)
    requires r.Add? && AddStep(env, db, r).out.Committed?
    requires CanRead(db.grants, grant, OwnerOf(db, r.grant), r.scope, clientFacing)
    ensures Get(AddStep(env, db, r).db, grant, r.scope, clientFacing, r.memory)
         == Some(Record(r.memory, r.content, 1, r.scope, r.kind, r.tags, env.sha256(r.content), ClientOf(db, r.grant),
                        r.conversation, r.actor, r.grant, r.at, r.at))
  {
    AddShape(env, db, r);
  }

  lemma ReplaceCommitGet(env: Env, db: Db, r: Request, grant: string, scope: string, clientFacing: bool)
    requires r.Replace? && r.memory in db.memories && Visible(db, r.grant, r.scope, r.memory, r.expected, false).None?
    requires CanRead(db.grants, grant, OwnerOf(db, r.grant), TargetScope(r), clientFacing)
    ensures Get(ReplaceCommit(env, db, r), grant, scope, clientFacing, r.memory)
         == if scope != TargetScope(r) then None
            else Some(Record(r.memory, r.content, r.expected + 1, scope, r.kind, r.tags, env.sha256(r.content),
                             ClientOf(db, r.grant), r.conversation, r.actor, db.metadata[r.memory].creator,
                             db.metadata[r.memory].createdAt, r.at))
  {
  }

  /** A replace shows in its target scope what it wrote, with creator and creation time kept, and
      nothing in any other scope. */
  lemma ReplaceThenGet(env: Env, db: Db, r: Request, grant: string, scope: string, clientFacing: bool)
    requires r.Replace? && ReplaceStep(env, db, r).out.Committed? && r.memory in db.metadata
    requires CanRead(db.grants, grant, OwnerOf(db, r.grant), TargetScope(r), clientFacing)
    ensures Get(ReplaceStep(env, db, r).db, grant, scope, clientFacing, r.memory)
         == if scope != TargetScope(r) then None
            else Some(Record(r.memory, r.content, r.expected + 1, scope, r.kind, r.tags, env.sha256(r.content),
                             ClientOf(db, r.grant), r.conversation, r.actor, db.metadata[r.memory].creator,
                             db.metadata[r.memory].createdAt, r.at))
  {
    ReplaceShape(env, db, r);
    NotRefused(env, db, r);
    ReplaceCommitGet(env, db, r, grant, scope, clientFacing);
  }

  lemma RemoveThenGet(env: Env, db: Db, r: Request, grant: string, scope: string, clientFacing: bool)
    requires (r.Remove? || r.Purge?) && Step(env, db, r).out.Committed?
    ensures Get(Step(env, db, r).db, grant, scope, clientFacing, r.memory) == None
  {
    StepEffect(env, db, r);
  }

  predicate SameRows(db: Db, f: Db) {
    f.memories == db.memories && f.keywords == db.keywords && f.fts == db.fts && f.embeddings == db.embeddings
    && f.profiles == db.profiles && f.vectors == db.vectors && f.vectorTables == db.vectorTables
    && f.grants == db.grants
  }

  lemma RestoredRows(env: Env, db: Db, r: Request, q: Request)
    requires r.Remove? && q.Restore? && r.memory == q.memory
    requires r.memory in db.metadata && r.memory in db.memories && r.memory in db.fts
    requires db.fts[r.memory] == multiset{db.memories[r.memory].content} && KeywordsAgree(env, db, r.memory)
    ensures SameRows(db, RestoreCommit(env, RemoveCommit(env, db, r), q))
  {
    ReindexIsIdle(db.keywords, r.memory, env.keywords(db.memories[r.memory].content));
  }

  lemma RestoredMetadata(env: Env, db: Db, r: Request, q: Request)
    requires r.Remove? && q.Restore? && r.memory == q.memory && r.memory in db.metadata && r.memory in db.memories
    requires db.metadata[r.memory].deletedAt.None? && db.metadata[r.memory].revision == r.expected
      && q.expected == r.expected + 1
    ensures RestoreCommit(env, RemoveCommit(env, db, r), q).metadata == db.metadata[r.memory := db.metadata[r.memory].(
      revision := db.metadata[r.memory].revision + 2, sourceClient := ClientOf(db, q.grant),
      actor := q.actor, updatedAt := q.at)]
  {
  }

  predicate Undone(db: Db, id: string, q: Request, f: Db)
    requires q.Restore? && id in db.metadata
  {
    SameRows(db, f)
    && f.metadata == db.metadata[id := db.metadata[id].(
         revision := db.metadata[id].revision
           + 2, sourceClient := ClientOf(db, q.grant), actor := q.actor, updatedAt := q.at)]
  }

  lemma RestoreUndoes(env: Env, db: Db, r: Request, q: Request)
    requires r.Remove? && q.Restore? && r.memory == q.memory && RemoveAllowed(env, db, r)
    requires RestoreAllowed(env, RemoveCommit(env, db, r), q)
    requires Sound(env, db, r.memory) && AddCreated(db, r.memory)
    ensures Undone(db, r.memory, q, RestoreCommit(env, RemoveCommit(env, db, r), q))
  {
    RestoredRows(env, db, r, q);
    RestoredMetadata(env, db, r, q);
  }

  /** Restoring a removed memory gives back every row that the remove hid: contents, keywords, full
      text and embeddings, and its metadata but for revision, writer and time of the last change. */
  lemma RestoreUndoesRemove(env: Env, db: Db, r: Request, e: Db, q: Request)
    requires r.Remove? && q.Restore? && r.memory == q.memory
    requires r.memory in db.metadata && Sound(env, db, r.memory) && AddCreated(db, r.memory)
    requires RemoveStep(env, db, r).out.Committed? && e == RemoveStep(env, db, r).db
    requires RestoreStep(env, e, q).out.Committed?
    ensures Undone(db, r.memory, q, RestoreStep(env, e, q).db)
  {
    RemoveShape(env, db, r);
    RestoreShape(env, e, q);
    RestoreUndoes(env, db, r, q);
  }

  lemma ReindexIsIdle(rows: set<Keyword>, id: string, words: set<string>)
    requires KeywordsOf(rows, id) == words
    ensures Reindexed(rows, id, words) == rows
  {
    forall w ensures w in Reindexed(rows, id, words) <==> w in rows {
      if w.memory == id {
        assert w == Keyword(w.keyword, id);
        assert w in rows ==> w.keyword in KeywordsOf(rows, id);
      }
    }
  }
}
