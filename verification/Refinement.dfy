/** The twelve tables behave like one plain map from memory ids to entries, changed only by
    compare-and-set on the revision. */
module Refinement {
  import opened Schema
  import opened Transactions
  import opened Integrity
  import opened Effects

  datatype Entry = Entry(owner: string, scope: string, revision: int, content: string, deleted: bool)

  type Store = map<string, Entry>

  function EntryOf(metadata: map<string, Metadata>, memories: map<string, Memory>, id: string): Entry
    requires id in metadata
  {
    Entry(metadata[id].owner, metadata[id].scope, metadata[id].revision,
          if id in memories then memories[id].content else "", metadata[id].deletedAt.Some?)
  }

  function Entries(metadata: map<string, Metadata>, memories: map<string, Memory>): Store {
    map id | id in metadata :: EntryOf(metadata, memories, id)
  }

  function Abs(db: Db): Store {
    Entries(db.metadata, db.memories)
  }

  /** The comparison: the row exists, is the caller's, lies in the scope and has the revision. */
  predicate Holds(m: Store, owner: string, scope: string, id: string, revision: int) {
    id in m && m[id].owner == owner && m[id].scope == scope && m[id].revision == revision
  }

  predicate Enabled(m: Store, owner: string, r: Request)
    requires IsWrite(r)
  {
    if r.Add? then r.memory !in m
    else Holds(m, owner, r.scope, r.memory, r.expected)
         && ((r.Replace? || r.Remove?) ==> !m[r.memory].deleted) && (r.Restore? ==> m[r.memory].deleted)
  }

  /** The set: a write of `owner` applied to the plain map. */
  function Apply(m: Store, owner: string, r: Request): Store
    requires IsWrite(r) && Enabled(m, owner, r)
  {
    if r.Add? then m[r.memory := Entry(owner, r.scope, 1, r.content, false)]
    else if r.Replace? then m[r.memory := Entry(owner, TargetScope(r), r.expected + 1, r.content, false)]
    else if r.Remove? then m[r.memory := m[r.memory].(revision := r.expected + 1, deleted := true)]
    else if r.Restore? then m[r.memory := m[r.memory].(revision := r.expected + 1, deleted := false)]
    else m - {r.memory}
  }

  lemma SameEntry(metadata: map<string, Metadata>, memories: map<string, Memory>, metadata': map<string, Metadata>,
                  memories': map<string, Memory>, id: string, x: string)
    requires metadata' - {id} == metadata - {id} && memories' - {id} == memories - {id} && x != id
    ensures x in metadata' <==> x in metadata
    ensures x in metadata' ==> EntryOf(metadata', memories', x) == EntryOf(metadata, memories, x)
  {
    SameValue(metadata', metadata, id, x);
    SameValue(memories', memories, id, x);
  }

  lemma OneEntry(metadata: map<string, Metadata>, memories: map<string, Memory>, metadata': map<string, Metadata>,
                 memories': map<string, Memory>, id: string)
    requires metadata' - {id} == metadata - {id} && memories' - {id} == memories - {id}
    ensures Entries(metadata', memories') - {id} == Entries(metadata, memories) - {id}
  {
    forall x | x != id ensures x in metadata' <==> x in metadata
      ensures x in metadata' ==> EntryOf(metadata', memories', x) == EntryOf(metadata, memories, x)
    {
      SameEntry(metadata, memories, metadata', memories', id, x);
    }
  }

  lemma PutBack(m: Store, n: Store, id: string)
    requires m - {id} == n - {id}
    ensures if id in n then n == m[id := n[id]] else n == m - {id}
  {
    forall x | x != id ensures x in m <==> x in n
      ensures x in m ==> m[x] == n[x]
    {
      SameValue(m, n, id, x);
    }
  }

  /** What a committed write does to the plain map. */
  predicate Becomes(db: Db, r: Request, e: Db)
    requires IsWrite(r)
  {
    Enabled(Abs(db), OwnerOf(db, r.grant), r) && Abs(e) == Apply(Abs(db), OwnerOf(db, r.grant), r)
  }

  lemma TouchedRows(db: Db, e: Db, id: string)
    requires Touches(db, e, id)
    ensures e.metadata - {id} == db.metadata - {id} && e.memories - {id} == db.memories - {id}
  {
  }

  lemma EffectBecomes(env: Env, db: Db, r: Request, e: Db)
    requires IsWrite(r) && WriteEffect(env, db, r, e)
    ensures Becomes(db, r, e)
  {
    hide Touches, Appends, Files, Resolve, Usable, MayReach;
    TouchedRows(db, e, r.memory);
    OneEntry(db.metadata, db.memories, e.metadata, e.memories, r.memory);
    PutBack(Abs(db), Abs(e), r.memory);
  }

  /** One call is one compare-and-set of the plain map, or no change of it; a call that is
      rejected or replayed changes no table at all. */
  lemma StepRefines(env: Env, db: Db, r: Request)
    ensures var reply := Step(env, db, r);
      if reply.out.Committed?
      then IsWrite(r) && Becomes(db, r, reply.db) && reply.out.receipt == Receipt(r.memory, NextRevision(r), r.at)
      else Abs(reply.db) == Abs(db)
    ensures Step(env, db, r).out.Rejected? || Step(env, db, r).out.Replayed? ==> Step(env, db, r).db == db
  {
    StepEffect(env, db, r);
    if Step(env, db, r).out.Committed? {
      EffectBecomes(env, db, r, Step(env, db, r).db);
    }
  }

  // --------------------------------------------------------------------- runs

  /** A committed write and the owner it was made for. */
  datatype Write = Write(owner: string, request: Request)

  /** The writes that a run commits, in order. */
  function Trace(env: Env, db: Db, rs: seq<Request>): seq<Write>
    decreases |rs|
  {
    if rs == [] then []
    else
      var reply := Step(env, db, rs[0]);
      (if reply.out.Committed? && IsWrite(rs[0]) then [Write(OwnerOf(db, rs[0].grant), rs[0])] else [])
      + Trace(env, reply.db, rs[1..])
  }

  predicate AllEnabled(m: Store, ws: seq<Write>)
    decreases |ws|
  {
    ws == [] || (IsWrite(ws[0].request) && Enabled(m, ws[0].owner, ws[0].request)
                 && AllEnabled(Apply(m, ws[0].owner, ws[0].request), ws[1..]))
  }

  function ApplyAll(m: Store, ws: seq<Write>): Store
    requires AllEnabled(m, ws)
    decreases |ws|
  {
    if ws == [] then m else ApplyAll(Apply(m, ws[0].owner, ws[0].request), ws[1..])
  }

  /** Every run of the tables is the run of its committed writes on the plain map. */
  lemma {:induction false} RunRefines(env: Env, db: Db, rs: seq<Request>)
    ensures AllEnabled(Abs(db), Trace(env, db, rs))
    ensures Abs(Run(env, db, rs)) == ApplyAll(Abs(db), Trace(env, db, rs))
    decreases |rs|
  {
    hide Step, Abs, Enabled, Apply;
    if rs != [] {
      var reply := Step(env, db, rs[0]);
      StepRefines(env, db, rs[0]);
      RunRefines(env, reply.db, rs[1..]);
      var rest := Trace(env, reply.db, rs[1..]);
      if reply.out.Committed? {
        assert Trace(env, db, rs)[1..] == rest;
      } else {
        assert Trace(env, db, rs) == rest;
      }
    }
  }

  /** The entry of `id` told from the writes alone: content and scope of the last add or replace,
      deleted iff the last other write is a remove, one revision per write since the add. */
  function Told(before: Option<Entry>, ws: seq<Write>, id: string): Option<Entry>
    decreases |ws|
  {
    if ws == [] then before
    else
      var w := ws[|ws| - 1];
      var earlier := Told(before, ws[..|ws| - 1], id);
      if !IsWrite(w.request) || w.request.memory != id then earlier
      else match w.request
        case Add(_, _, _, _, _, _, _, _, _, _, _, _, _) =>
          Some(Entry(w.owner, w.request.scope, 1, w.request.content, false))
        case Purge(_, _, _, _, _, _, _, _, _) => None
        case _ =>
          if earlier.None? then None
          else Some(Entry(earlier.value.owner,
                          if w.request.Replace? then TargetScope(w.request) else earlier.value.scope,
                          earlier.value.revision + 1,
                          if w.request.Replace? then w.request.content else earlier.value.content,
                          w.request.Remove?))
  }

  function Find(m: Store, id: string): Option<Entry> {
    if id in m then Some(m[id]) else None
  }

  lemma {:induction false} ApplyLast(m: Store, ws: seq<Write>)
    requires ws != [] && AllEnabled(m, ws)
    ensures AllEnabled(m, ws[..|ws| - 1])
    ensures var w := ws[|ws| - 1]; var n := ApplyAll(m, ws[..|ws| - 1]);
      IsWrite(w.request) && Enabled(n, w.owner, w.request) && ApplyAll(m, ws) == Apply(n, w.owner, w.request)
    decreases |ws|
  {
    if |ws| > 1 {
      var m' := Apply(m, ws[0].owner, ws[0].request);
      ApplyLast(m', ws[1..]);
      assert ws[..|ws| - 1][1..] == ws[1..][..|ws| - 2];
    }
  }

  lemma {:induction false} WritesTell(m: Store, ws: seq<Write>, id: string)
    requires AllEnabled(m, ws)
    ensures Find(ApplyAll(m, ws), id) == Told(Find(m, id), ws, id)
    decreases |ws|
  {
    if ws != [] {
      ApplyLast(m, ws);
      WritesTell(m, ws[..|ws| - 1], id);
    }
  }

  /** After any run a memory's entry is what its committed writes say: in particular its content
      is that of the last committed add or replace. */
  lemma LastWriteWins(env: Env, db: Db, rs: seq<Request>, id: string)
    ensures Find(Abs(Run(env, db, rs)), id) == Told(Find(Abs(db), id), Trace(env, db, rs), id)
  {
    RunRefines(env, db, rs);
    WritesTell(Abs(db), Trace(env, db, rs), id);
  }
}
