/** The append-only event log: dense revisions, tombstones, and the finality of a purge. */
module EventLog {
  import opened Schema
  import opened Transactions
  import opened Integrity
  import opened Preservation
  import opened Effects
  import opened Refinement

  predicate Grows(events: map<EventKey, Event>, later: map<EventKey, Event>) {
    forall k | k in events :: k in later && later[k] == events[k]
  }

  lemma EffectGrows(env: Env, db: Db, r: Request, reply: Reply)
    requires Effect(env, db, r, reply)
    ensures Grows(db.events, reply.db.events)
  {
  }

  /** Log rows are never changed nor lost. */
  lemma {:induction false} RunAppendsOnly(env: Env, db: Db, rs: seq<Request>)
    ensures Grows(db.events, Run(env, db, rs).events)
    decreases |rs|
  {
    if rs != [] {
      StepEffect(env, db, rs[0]);
      EffectGrows(env, db, rs[0], Step(env, db, rs[0]));
      RunAppendsOnly(env, Step(env, db, rs[0]).db, rs[1..]);
    }
  }

  /** `e` under `k` is the record of the committed write `w`. */
  predicate Records(w: Write, k: EventKey, e: Event) {
    IsWrite(w.request) && k == EventKey(w.request.memory, NextRevision(w.request))
    && e.owner == w.owner && e.grant == w.request.grant && e.operation == OperationOf(w.request)
    && e.actor == w.request.actor && e.at == w.request.at && e.digest == w.request.digest
  }

  lemma EffectRecords(env: Env, db: Db, r: Request, reply: Reply)
    requires Effect(env, db, r, reply) && reply.out.Committed?
    ensures var k := EventKey(r.memory, NextRevision(r));
      k !in db.events && reply.db.events.Keys == db.events.Keys + {k}
      && Records(Write(OwnerOf(db, r.grant), r), k, reply.db.events[k])
  {
    hide Touches, Moves, Stores, Files, OwnerOf, Resolve;
  }

  ghost predicate Accounted(events: map<EventKey, Event>, later: map<EventKey, Event>, ws: seq<Write>) {
    (forall w | w in ws :: exists k :: k in later && k !in events && Records(w, k, later[k]))
    && forall k | k in later && k !in events :: exists w :: w in ws && Records(w, k, later[k])
  }

  lemma AccountedFirst(events: map<EventKey, Event>, next: map<EventKey, Event>, later: map<EventKey, Event>, w: Write,
                       ws: seq<Write>)
    requires Grows(events, next) && Grows(next, later) && Accounted(next, later, ws)
    requires exists k :: k !in events && next.Keys == events.Keys + {k} && Records(w, k, next[k])
    ensures Accounted(events, later, [w] + ws)
  {
    var added :| added !in events && next.Keys == events.Keys + {added} && Records(w, added, next[added]);
    forall v | v in [w] + ws ensures exists k :: k in later && k !in events && Records(v, k, later[k]) {
      if v in ws {
        var k :| k in later && k !in next && Records(v, k, later[k]);
        assert k !in events;
      } else {
        assert v == w && added in later && later[added] == next[added];
      }
    }
    forall k | k in later && k !in events ensures exists v :: v in [w] + ws && Records(v, k, later[k]) {
      if k in next {
        assert k == added && w in [w] + ws && Records(w, k, later[k]);
      } else {
        var v :| v in ws && Records(v, k, later[k]);
        assert v in [w] + ws;
      }
    }
  }

  /** The log is complete and sound: every committed write of a run is recorded with its owner, grant,
      operation, actor, time and digest, and no event appears that is not the record of such a write. */
  lemma {:induction false} LogIsTheTrace(env: Env, db: Db, rs: seq<Request>)
    ensures Accounted(db.events, Run(env, db, rs).events, Trace(env, db, rs))
    decreases |rs|
  {
    hide Step, Accounted, Records, Grows;
    if rs == [] {
      NothingToAccount(db.events);
    } else {
      var reply := Step(env, db, rs[0]);
      StepEffect(env, db, rs[0]);
      EffectGrows(env, db, rs[0], reply);
      RunAppendsOnly(env, reply.db, rs[1..]);
      LogIsTheTrace(env, reply.db, rs[1..]);
      if reply.out.Committed? {
        EffectRecords(env, db, rs[0], reply);
        AccountedFirst(db.events, reply.db.events, Run(env, db, rs).events, Write(OwnerOf(db, rs[0].grant), rs[0]),
                       Trace(env, reply.db, rs[1..]));
      } else {
        QuietKeepsEvents(env, db, rs[0], reply);
        assert Trace(env, db, rs) == Trace(env, reply.db, rs[1..]);
      }
    }
  }

  lemma NothingToAccount(events: map<EventKey, Event>)
    ensures Accounted(events, events, [])
  {
  }

  lemma QuietKeepsEvents(env: Env, db: Db, r: Request, reply: Reply)
    requires Effect(env, db, r, reply) && !reply.out.Committed?
    ensures reply.db.events == db.events
  {
  }

  // ------------------------------------------------------------------ density

  /** The event revisions of `id` are exactly 1..current. */
  predicate Dense(events: map<EventKey, Event>, id: string, revision: int) {
    (forall k | k in events && k.memory == id :: 1 <= k.revision <= revision)
    && forall v | 1 <= v <= revision :: EventKey(id, v) in events
  }

  /** The last event is a remove iff the row is a tombstone, and never a purge. */
  predicate LastEventTells(events: map<EventKey, Event>, id: string, revision: int, deleted: bool) {
    EventKey(id, revision) in events
    && (events[EventKey(id, revision)].operation == OpRemove <==> deleted)
    && events[EventKey(id, revision)].operation != OpPurge
  }

  predicate Logged(db: Db, id: string)
    requires id in db.metadata
  {
    Dense(db.events, id, db.metadata[id].revision)
    && LastEventTells(db.events, id, db.metadata[id].revision, db.metadata[id].deletedAt.Some?)
  }

  predicate AllLogged(db: Db) {
    forall id | id in db.metadata && AddCreated(db, id) :: Logged(db, id)
  }

  predicate NeverNamed(db: Db, id: string) {
    forall k | k in db.events :: k.memory != id
  }

  /** A committed add does not take an id that the log already names. */
  predicate FreshId(env: Env, db: Db, r: Request) {
    r.Add? && Step(env, db, r).out.Committed? ==> NeverNamed(db, r.memory)
  }

  predicate FreshIds(env: Env, db: Db, rs: seq<Request>)
    decreases |rs|
  {
    rs == [] || (FreshId(env, db, rs[0]) && FreshIds(env, Step(env, db, rs[0]).db, rs[1..]))
  }

  lemma EffectIsDenseIff(env: Env, db: Db, r: Request, e: Db)
    requires r.Add? && Appends(env, db, r, e)
    ensures Dense(e.events, r.memory, 1) <==> NeverNamed(db, r.memory)
  {
    if k :| k in db.events && k.memory == r.memory {
      assert k != EventKey(r.memory, 1) && k in e.events;
      assert k == EventKey(k.memory, k.revision);
    }
  }

  /** Whether an add starts a dense log depends on nothing but whether its id was ever logged. */
  lemma AddIsDenseIff(env: Env, db: Db, r: Request)
    requires r.Add? && Step(env, db, r).out.Committed?
    ensures Dense(Step(env, db, r).db.events, r.memory, 1) <==> NeverNamed(db, r.memory)
  {
    StepEffect(env, db, r);
    EffectIsDenseIff(env, db, r, Step(env, db, r).db);
  }

  lemma ExtendLog(events: map<EventKey, Event>, id: string, revision: int, row: Event)
    requires revision >= 1
      && (if revision == 1 then forall k | k in events :: k.memory != id else Dense(events, id, revision - 1))
    ensures Dense(events[EventKey(id, revision) := row], id, revision)
  {
  }

  lemma OtherLog(events: map<EventKey, Event>, key: EventKey, row: Event, id: string, revision: int, deleted: bool)
    requires key.memory != id
    requires Dense(events, id, revision) && LastEventTells(events, id, revision, deleted)
    ensures Dense(events[key := row], id, revision) && LastEventTells(events[key := row], id, revision, deleted)
  {
  }

  function NewEvent(env: Env, db: Db, r: Request): Event
    requires IsWrite(r)
  {
    Event(env.eventId(r.memory, NextRevision(r), OperationOf(r)), OwnerOf(db, r.grant), r.grant, OperationOf(r),
          r.actor, ClientOf(db, r.grant), r.at, r.digest)
  }

  lemma WriteKeepsLogged(env: Env, db: Db, r: Request, e: Db, id: string)
    requires IsWrite(r) && WriteEffect(env, db, r, e) && AllLogged(db)
    requires r.Add? ==> NeverNamed(db, r.memory)
    requires AddCreated(e, id) && (id in db.metadata ==> db.metadata[id].revision >= 1)
    ensures Logged(e, id)
  {
    if id == r.memory {
      if !r.Add? {
        assert AddCreated(db, id) && Logged(db, id);
      }
      ExtendLog(db.events, id, NextRevision(r), NewEvent(env, db, r));
    } else {
      SameValue(e.metadata, db.metadata, r.memory, id);
      assert AddCreated(db, id) && Logged(db, id);
      OtherLog(db.events, EventKey(r.memory, NextRevision(r)), NewEvent(env, db, r), id,
               db.metadata[id].revision, db.metadata[id].deletedAt.Some?);
    }
  }

  lemma QuietKeepsLogged(db: Db, e: Db)
    requires QuietEffect(db, e) && AllLogged(db) && CreatorsExist(db)
    ensures AllLogged(e)
  {
    forall id | AddCreated(e, id) ensures Logged(e, id) {
      assert AddCreated(db, id);
    }
  }

  lemma EffectKeepsLogged(env: Env, db: Db, r: Request, reply: Reply)
    requires Effect(env, db, r, reply) && Inv(env, db) && AllLogged(db)
    requires r.Add? && reply.out.Committed? ==> NeverNamed(db, r.memory)
    ensures AllLogged(reply.db)
  {
    if reply.out.Committed? {
      forall id | AddCreated(reply.db, id) ensures Logged(reply.db, id) {
        assert id in db.metadata ==> Sound(env, db, id);
        WriteKeepsLogged(env, db, r, reply.db, id);
      }
    } else {
      QuietKeepsLogged(db, reply.db);
    }
  }

  /** In every run whose adds take new ids, the event revisions of an added memory are exactly
      1..current, and it is a tombstone iff its last event is a remove. */
  lemma {:induction false} RunKeepsLogged(env: Env, db: Db, rs: seq<Request>)
    requires Inv(env, db) && AllLogged(db) && FreshIds(env, db, rs)
    ensures AllLogged(Run(env, db, rs))
    decreases |rs|
  {
    if rs != [] {
      StepKeepsInv(env, db, rs[0]);
      StepEffect(env, db, rs[0]);
      EffectKeepsLogged(env, db, rs[0], Step(env, db, rs[0]));
      RunKeepsLogged(env, Step(env, db, rs[0]).db, rs[1..]);
    }
  }

  // --------------------------------------------------- what a re-used id costs

  /** An id with any event but a first one has a second one, and so has a row at revision 2 or more. */
  predicate Paired(db: Db) {
    (forall k | k in db.events && k.revision != 1 :: EventKey(k.memory, 2) in db.events)
    && forall id | id in db.metadata && db.metadata[id].revision >= 2 :: EventKey(id, 2) in db.events
  }

  lemma EffectKeepsPaired(env: Env, db: Db, r: Request, reply: Reply)
    requires Effect(env, db, r, reply) && Inv(env, db) && Paired(db)
    ensures Paired(reply.db)
  {
    hide Resolve, Files, Stores, Inv;
    if reply.out.Committed? {
      CommitIsPaired(env, db, r, reply.db);
    }
  }

  lemma RevisionsCount(env: Env, db: Db)
    requires Inv(env, db)
    ensures forall id | id in db.metadata :: db.metadata[id].revision >= 1
  {
    forall id | id in db.metadata ensures db.metadata[id].revision >= 1 {
      assert Sound(env, db, id);
    }
  }

  lemma TouchedMetadata(db: Db, e: Db, id: string)
    requires Touches(db, e, id)
    ensures e.metadata - {id} == db.metadata - {id}
  {
  }

  lemma CommitIsPaired(env: Env, db: Db, r: Request, e: Db)
    requires IsWrite(r) && WriteEffect(env, db, r, e) && Inv(env, db) && Paired(db)
    ensures Paired(e)
  {
    hide Resolve, Files, Stores, Inv, Touches, AddCreated, Usable;
    RevisionsCount(env, db);
    TouchedMetadata(db, e, r.memory);
    forall id | id in e.metadata && e.metadata[id].revision >= 2 ensures EventKey(id, 2) in e.events {
      if id != r.memory { SameValue(e.metadata, db.metadata, r.memory, id); }
    }
  }

  /** The row stands at revision 1, and revision 2 is taken in the log. */
  predicate Stuck(db: Db, id: string) {
    id in db.metadata && db.metadata[id].revision == 1 && id in db.memories && EventKey(id, 2) in db.events
  }

  predicate SameRow(db: Db, e: Db, id: string) {
    id in db.metadata && id in e.metadata && e.metadata[id] == db.metadata[id]
    && id in db.memories && id in e.memories && e.memories[id] == db.memories[id]
  }

  lemma EffectKeepsStuck(env: Env, db: Db, r: Request, reply: Reply, id: string)
    requires Effect(env, db, r, reply) && Stuck(db, id)
    ensures Stuck(reply.db, id) && SameRow(db, reply.db, id) && (reply.out.Committed? ==> IsWrite(r) && r.memory != id)
    ensures AddCreated(db, id) ==> AddCreated(reply.db, id)
  {
    hide Resolve, Files, Stores;
    if reply.out.Committed? && r.memory != id {
      SameValue(reply.db.metadata, db.metadata, r.memory, id);
      SameValue(reply.db.memories, db.memories, r.memory, id);
    }
  }

  /** A stuck row stays as it is for ever: no replace, remove or purge of it commits in any run. */
  lemma {:induction false} StuckForEver(env: Env, db: Db, rs: seq<Request>, id: string)
    requires Stuck(db, id)
    ensures Stuck(Run(env, db, rs), id) && SameRow(db, Run(env, db, rs), id) && !WritesIn(Trace(env, db, rs), id)
    ensures AddCreated(db, id) ==> AddCreated(Run(env, db, rs), id)
    decreases |rs|
  {
    hide Step, Effect;
    if rs != [] {
      StepEffect(env, db, rs[0]);
      EffectKeepsStuck(env, db, rs[0], Step(env, db, rs[0]), id);
      StuckForEver(env, Step(env, db, rs[0]).db, rs[1..], id);
    }
  }

  lemma ReAddSticks(env: Env, db: Db, r: Request, reply: Reply)
    requires Effect(env, db, r, reply) && r.Add? && reply.out.Committed? && Paired(db) && !NeverNamed(db, r.memory)
    ensures Stuck(reply.db, r.memory) && AddCreated(reply.db, r.memory)
  {
    hide Resolve, Files;
    var k :| k in db.events && k.memory == r.memory;
    assert k == EventKey(k.memory, k.revision);
  }

  /** An id that was logged before and is added again is stuck: its content can never be replaced,
      removed or purged. */
  lemma ReAddedForEver(env: Env, db: Db, r: Request)
    requires r.Add? && Paired(db) && Step(env, db, r).out.Committed? && !NeverNamed(db, r.memory)
    ensures !CanBeWritten(env, Step(env, db, r).db, r.memory)
    ensures forall rs :: SameRow(Step(env, db, r).db, Run(env, Step(env, db, r).db, rs), r.memory)
  {
    hide Step, Effect, Run, Paired, NeverNamed, Stuck, WritesIn, SameRow;
    StepEffect(env, db, r);
    ReAddSticks(env, db, r, Step(env, db, r));
    forall rs ensures !WritesIn(Trace(env, Step(env, db, r).db, rs), r.memory)
      ensures SameRow(Step(env, db, r).db, Run(env, Step(env, db, r).db, rs), r.memory)
    {
      StuckForEver(env, Step(env, db, r).db, rs, r.memory);
    }
  }

  lemma StuckIsNotLogged(db: Db, id: string)
    requires Stuck(db, id) && AddCreated(db, id)
    ensures !AllLogged(db)
  {
    var k := EventKey(id, 2);
    assert k in db.events && k.memory == id && k.revision == 2;
    assert !Logged(db, id);
  }

  /** From the import on, a run ends with every log dense and telling exactly if its adds took ids that
      were never logged. */
  lemma {:induction false} RunLoggedIff(env: Env, db: Db, rs: seq<Request>)
    requires Inv(env, db) && AllLogged(db) && Paired(db)
    ensures AllLogged(Run(env, db, rs)) <==> FreshIds(env, db, rs)
    decreases |rs|
  {
    hide Step, Effect, Inv, AllLogged, Paired, NeverNamed, Stuck;
    if rs != [] {
      var reply := Step(env, db, rs[0]);
      StepKeepsInv(env, db, rs[0]);
      StepEffect(env, db, rs[0]);
      EffectKeepsPaired(env, db, rs[0], reply);
      if FreshId(env, db, rs[0]) {
        EffectKeepsLogged(env, db, rs[0], reply);
        RunLoggedIff(env, reply.db, rs[1..]);
      } else {
        ReAddSticks(env, db, rs[0], reply);
        StuckForEver(env, reply.db, rs[1..], rs[0].memory);
        StuckIsNotLogged(Run(env, reply.db, rs[1..]), rs[0].memory);
      }
    }
  }

  // ----------------------------------------------------------------- finality

  /** The memory is gone and its first event remains. */
  predicate Gone(db: Db, id: string) {
    id !in db.metadata && EventKey(id, 1) in db.events
  }

  lemma PurgeMakesGone(env: Env, db: Db, r: Request, e: Db)
    requires r.Purge? && WriteEffect(env, db, r, e) && EventKey(r.memory, 1) in db.events
    ensures Gone(e, r.memory)
  {
  }

  lemma EffectKeepsGone(env: Env, db: Db, r: Request, reply: Reply, id: string)
    requires Effect(env, db, r, reply) && Gone(db, id)
    ensures Gone(reply.db, id) && (reply.out.Committed? ==> IsWrite(r) && r.memory != id)
  {
    if reply.out.Committed? && r.memory != id {
      SameValue(reply.db.metadata, db.metadata, r.memory, id);
    }
  }

  lemma {:induction false} GoneForEver(env: Env, db: Db, rs: seq<Request>, id: string)
    requires Gone(db, id)
    ensures Gone(Run(env, db, rs), id)
    ensures forall w | w in Trace(env, db, rs) :: IsWrite(w.request) && w.request.memory != id
    decreases |rs|
  {
    if rs != [] {
      StepEffect(env, db, rs[0]);
      EffectKeepsGone(env, db, rs[0], Step(env, db, rs[0]), id);
      GoneForEver(env, Step(env, db, rs[0]).db, rs[1..], id);
    }
  }

  /** Once an added memory is purged, no call on its id ever commits again. */
  lemma PurgeIsFinal(env: Env, db: Db, r: Request, rs: seq<Request>)
    requires Inv(env, db) && r.Purge? && Step(env, db, r).out.Committed? && AddCreated(db, r.memory)
    ensures forall w | w in Trace(env, Step(env, db, r).db, rs) :: IsWrite(w.request) && w.request.memory != r.memory
  {
    StepEffect(env, db, r);
    assert Sound(env, db, r.memory);
    PurgeMakesGone(env, db, r, Step(env, db, r).db);
    GoneForEver(env, Step(env, db, r).db, rs, r.memory);
  }

  // ------------------------------------------------------- who can come back

  predicate WritesIn(ws: seq<Write>, id: string) {
    exists w | w in ws :: IsWrite(w.request) && w.request.memory == id
  }

  /** Some run from `db` commits a write on `id`. */
  ghost predicate CanBeWritten(env: Env, db: Db, id: string) {
    exists rs: seq<Request> :: WritesIn(Trace(env, db, rs), id)
  }

  /** The stable ids that a first event and a first embedding of `id` would get are not in use. */
  predicate IdsFree(env: Env, db: Db, id: string) {
    EmbeddingIdFree(db.embeddings, env.embeddingId(id, DEFAULT_GENERATION))
    && forall k | k in db.events :: db.events[k].id != env.eventId(id, 1, OpAdd)
  }

  /** No owner, grant or issuer is called `t`. */
  predicate Unheard(db: Db, t: string) {
    !Blank(t) && t !in db.grants && (forall g | g in db.grants :: db.grants[g].issuer != t)
    && forall k | k in db.profiles :: k.owner != t
  }

  lemma {:induction false} NewText(s: set<string>) returns (t: string)
    ensures t !in s && !Blank(t) && forall x | x in s :: |x| < |t|
    decreases s
  {
    if s == {} {
      t := "x";
      assert !IsSpace(t[0]);
    } else {
      var x :| x in s;
      var longer := NewText(s - {x});
      t := longer + x + "x";
      assert !IsSpace(t[|t| - 1]);
      forall y | y in s ensures |y| < |t| {
        assert y != x ==> y in s - {x};
      }
    }
  }

  lemma SomeoneIsUnheard(db: Db) returns (t: string)
    ensures Unheard(db, t)
  {
    t :=
      NewText(db.grants.Keys + (set g | g in db.grants :: db.grants[g].issuer) + (set k | k in db.profiles :: k.owner));
  }

  // A newcomer binds a grant, its scope is provisioned, and it adds `id`.

  function Binds(t: string): Request {
    Bind(t, Grant(t, t, t, t, 1, OAuth, t, ["memory:write"], [t], None, None))
  }

  function Provisions(t: string): Request {
    EnsureProfile(t, t, Provenance(t, t, t, 1), t)
  }

  function Adds(t: string, id: string): Request {
    Add(t, t, id, t, t, [], None, t, t, t, t, map[DEFAULT_GENERATION := [0 as bv8]], OpAdd)
  }

  lemma NewcomerEnters(env: Env, db: Db, t: string)
    requires Unheard(db, t)
    ensures var e := Step(env, Step(env, db, Binds(t)).db, Provisions(t)).db;
      e == db.(grants := e.grants, profiles := e.profiles) && e.grants == db.grants[t := Binds(t).binding]
      && LiveProfiles(e.profiles, t, t).Keys == {DEFAULT_GENERATION}
  {
    hide LiveProfiles;
    var profiles := db.profiles;
    assert Unclaimed(db, t, Binds(t).binding);
    LiveMeansServed(profiles, t, t);
    FirstIsInserted(profiles, t, t, Profile(Provenance(t, t, t, 1), Active, t, Some(t), None));
  }

  lemma NewcomerMayWrite(db: Db, t: string, id: string)
    requires t in db.grants && db.grants[t] == Binds(t).binding && !Blank(t) && !Blank(id)
    ensures AddWellFormed(Adds(t, id)) && CanWrite(db, t, t) && OwnerOf(db, t) == t
  {
    assert db.grants[t].memoryScopes[0] == t && db.grants[t].oauthScopes[0] == "memory:write";
    assert DEFAULT_GENERATION in Adds(t, id).blobs;
  }

  lemma NoRowsOfNewcomer(db: Db, t: string, pick: Operation)
    requires forall k | k in db.idem :: k.grant != t
    ensures Resolve(db, t, t, OpAdd, t, t, pick).Unused?
  {
    NothingFetched(db, OwnerOf(db, t), t, t, t, [pick] + OPERATIONS);
  }

  lemma {:induction false} NothingFetched(db: Db, owner: string, grant: string, scope: string, key: string,
                                          order: seq<Operation>)
    requires forall op: Operation :: !Matches(db, IdemKey(grant, op, key), owner, scope)
    ensures Fetch(db, owner, grant, scope, key, order) == None
  {
    if order != [] { NothingFetched(db, owner, grant, scope, key, order[1..]); }
  }

  /** The rows of an absent memory are gone from every table, and nobody acted under an absent grant. */
  lemma AbsentHasNoRows(env: Env, db: Db, t: string, id: string)
    requires Inv(env, db) && id !in db.metadata && t !in db.grants
    ensures id !in db.memories && (forall w | w in db.keywords :: w.memory != id)
      && (forall k | k in db.embeddings :: k.memory != id)
    ensures forall k | k in db.idem :: k.grant != t
  {
    hide AllSound, OneActive, NeverAbandoned;
  }

  /** So only the log can refuse an add. */
  lemma AbsentFits(env: Env, e: Db, t: string, id: string)
    requires id !in e.memories && (forall w | w in e.keywords :: w.memory != id)
      && (forall k | k in e.embeddings :: k.memory != id)
    requires EventKey(id, 1) !in e.events && IdsFree(env, e, id) && forall k | k in e.idem :: k.grant != t
    ensures AddFits(env, e, Adds(t, id))
  {
    assert KeywordRows(env.keywords(t), id) !! e.keywords;
    assert Adds(t, id).blobs.Keys == {DEFAULT_GENERATION};
  }

  lemma NewcomerAdds(env: Env, db: Db, t: string, id: string)
    requires Inv(env, db) && Unheard(db, t)
    requires id !in db.metadata && EventKey(id, 1) !in db.events && IdsFree(env, db, id) && !Blank(id)
    ensures Step(env, Step(env, Step(env, db, Binds(t)).db, Provisions(t)).db, Adds(t, id)).out.Committed?
  {
    hide Inv, AddFits, AddWellFormed, CanWrite, LiveProfiles, Resolve, OutsideStep, OwnerOf, AddCommit, Blank;
    var e := Step(env, Step(env, db, Binds(t)).db, Provisions(t)).db;
    NewcomerEnters(env, db, t);
    NewcomerMayWrite(e, t, id);
    AbsentHasNoRows(env, db, t, id);
    assert IdsFree(env, e, id);
    AbsentFits(env, e, t, id);
    NoRowsOfNewcomer(e, t, OpAdd);
  }

  lemma ThreeWrites(env: Env, db: Db, a: Request, b: Request, r: Request, id: string)
    requires var e := Step(env, Step(env, db, a).db, b).db;
      IsWrite(r) && r.memory == id && Step(env, e, r).out.Committed?
    ensures WritesIn(Trace(env, db, [a, b, r]), id)
  {
    hide Step;
    var e := Step(env, db, a).db;
    var f := Step(env, e, b).db;
    assert [a, b, r][1..] == [b, r] && [b, r][1..] == [r];
    assert Trace(env, f, [r])[0] == Write(OwnerOf(f, r.grant), r);
    assert Trace(env, f, [r])[0] in Trace(env, f, [r]);
    assert forall w | w in Trace(env, f, [r]) :: w in Trace(env, e, [b, r]);
    assert forall w | w in Trace(env, e, [b, r]) :: w in Trace(env, db, [a, b, r]);
  }

  /** An absent id can ever be written again exactly if the log holds no first event of it: no state of
      any other table, and no grant, scope or key that is or may come to be, decides it. */
  lemma ComesBackIff(env: Env, db: Db, id: string)
    requires Inv(env, db) && id !in db.metadata && !Blank(id) && IdsFree(env, db, id)
    ensures CanBeWritten(env, db, id) <==> EventKey(id, 1) !in db.events
  {
    hide Inv, Step, Trace, IdsFree, Blank;
    if EventKey(id, 1) !in db.events {
      var t := SomeoneIsUnheard(db);
      NewcomerAdds(env, db, t, id);
      ThreeWrites(env, db, Binds(t), Provisions(t), Adds(t, id), id);
    } else if rs: seq<Request> :| WritesIn(Trace(env, db, rs), id) {
      GoneForEver(env, db, rs, id);
    }
  }
}
