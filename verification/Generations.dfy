/** The lifecycle of embedding generations. */
module Generations {
  import opened Schema
  import opened Transactions
  import opened Integrity
  import opened Preservation
  import opened Effects

  /** The moves of one step: BUILDING to ACTIVE or FAILED, ACTIVE to RETIRED. */
  predicate StatusStep(s: Status, t: Status) {
    s == t || (s == Building && (t == Active || t == Failed)) || (s == Active && t == Retired)
  }

  /** The moves of a run: what `StatusStep` reaches. */
  predicate StatusLater(s: Status, t: Status) {
    s == t || s == Building || (s == Active && t == Retired)
  }

  predicate HasActive(profiles: map<ProfileKey, Profile>, owner: string, scope: string) {
    exists k | k in profiles :: k.owner == owner && k.scope == scope && profiles[k].status == Active
  }

  /** Profiles are never dropped nor rewritten, their status moves as it may, and no scope loses
      its ACTIVE generation. */
  predicate ProfilesStep(before: map<ProfileKey, Profile>, after: map<ProfileKey, Profile>) {
    (forall k | k in before ::
       k in after && after[k].provenance == before[k].provenance && after[k].createdAt == before[k].createdAt
       && StatusStep(before[k].status, after[k].status))
    && (forall k | k in before && before[k].status == Active :: HasActive(after, k.owner, k.scope))
  }

  predicate ProfilesLater(before: map<ProfileKey, Profile>, after: map<ProfileKey, Profile>) {
    (forall k | k in before ::
       k in after && after[k].provenance == before[k].provenance && after[k].createdAt == before[k].createdAt
       && StatusLater(before[k].status, after[k].status))
    && (forall k | k in before && before[k].status == Active :: HasActive(after, k.owner, k.scope))
  }

  lemma SameProfilesStep(profiles: map<ProfileKey, Profile>)
    ensures ProfilesStep(profiles, profiles)
  {
    forall k | k in profiles && profiles[k].status == Active ensures HasActive(profiles, k.owner, k.scope) {
    }
  }

  lemma InsertStep(profiles: map<ProfileKey, Profile>, key: ProfileKey, row: Profile)
    requires key !in profiles
    ensures ProfilesStep(profiles, profiles[key := row])
  {
    forall k | k in profiles && profiles[k].status == Active ensures HasActive(profiles[key := row], k.owner, k.scope) {
      assert profiles[key := row][k] == profiles[k];
    }
  }

  lemma SwitchStep(profiles: map<ProfileKey, Profile>, active: ProfileKey, building: ProfileKey, at: string)
    requires active in profiles && building in profiles && active != building
    requires profiles[active].status == Active && profiles[building].status == Building
    requires active.owner == building.owner && active.scope == building.scope
    ensures ProfilesStep(profiles, Switched(profiles, active, building, at))
  {
    var after := Switched(profiles, active, building, at);
    assert after[building].status == Active;
    forall k | k in profiles && profiles[k].status == Active ensures HasActive(after, k.owner, k.scope) {
      if k != active { assert after[k].status == Active; }
    }
  }

  lemma FailedStep(profiles: map<ProfileKey, Profile>, key: ProfileKey, at: string)
    requires key in profiles && profiles[key].status == Building
    ensures ProfilesStep(profiles, profiles[key := profiles[key].(status := Failed, retiredAt := Some(at))])
  {
    var after := profiles[key := profiles[key].(status := Failed, retiredAt := Some(at))];
    forall k | k in profiles && profiles[k].status == Active ensures HasActive(after, k.owner, k.scope) {
      assert after[k].status == Active;
    }
  }

  lemma CutoverMoves(db: Db, r: Request)
    requires r.Cutover?
    ensures ProfilesStep(db.profiles, CutoverStep(db, r).db.profiles)
  {
    SameProfilesStep(db.profiles);
    if CutoverStep(db, r).out.Applied? {
      var owner := OwnerOf(db, r.grant);
      ActiveProfile(db.profiles, owner, r.scope, r.expected);
      SwitchStep(db.profiles, ProfileKey(owner, r.scope, r.expected), ProfileKey(owner, r.scope, r.building), r.at);
    }
  }

  lemma FailMoves(db: Db, r: Request)
    requires r.FailGeneration?
    ensures ProfilesStep(db.profiles, FailStep(db, r).db.profiles)
  {
    SameProfilesStep(db.profiles);
    if FailStep(db, r).out.Applied? {
      FailedStep(db.profiles, ProfileKey(OwnerOf(db, r.grant), r.scope, r.building), r.at);
    }
  }

  lemma OutsideMoves(db: Db, r: Request)
    ensures ProfilesStep(db.profiles, OutsideStep(db, r).db.profiles)
  {
    SameProfilesStep(db.profiles);
    match r
    case EnsureProfile(owner, scope, identity, at) =>
      var first := ProfileKey(owner, scope, DEFAULT_GENERATION);
      if first !in db.profiles { InsertStep(db.profiles, first, Profile(identity, Active, at, Some(at), None)); }
    case StartBuild(key, identity, at) =>
      if key !in db.profiles { InsertStep(db.profiles, key, Profile(identity, Building, at, None, None)); }
    case _ =>
  }

  lemma StepMoves(env: Env, db: Db, r: Request)
    ensures ProfilesStep(db.profiles, Step(env, db, r).db.profiles)
  {
    if IsWrite(r) {
      StepEffect(env, db, r);
      SameProfilesStep(db.profiles);
    }
    else if r.Cutover? { CutoverMoves(db, r); }
    else if r.FailGeneration? { FailMoves(db, r); }
    else { OutsideMoves(db, r); }
  }

  lemma StepThenLater(a: map<ProfileKey, Profile>, b: map<ProfileKey, Profile>, c: map<ProfileKey, Profile>)
    requires ProfilesStep(a, b) && ProfilesLater(b, c)
    ensures ProfilesLater(a, c)
  {
    forall k | k in a && a[k].status == Active ensures HasActive(c, k.owner, k.scope) {
      var j :| j in b && j.owner == k.owner && j.scope == k.scope && b[j].status == Active;
    }
  }

  /** Over every run: status only moves BUILDING, ACTIVE, RETIRED or BUILDING, FAILED; a profile keeps
      its provenance; and a scope with an ACTIVE generation always has one. */
  lemma {:induction false} RunMoves(env: Env, db: Db, rs: seq<Request>)
    ensures ProfilesLater(db.profiles, Run(env, db, rs).profiles)
    decreases |rs|
  {
    if rs == [] {
      SameProfilesStep(db.profiles);
    } else {
      StepMoves(env, db, rs[0]);
      RunMoves(env, Step(env, db, rs[0]).db, rs[1..]);
      StepThenLater(db.profiles, Step(env, db, rs[0]).db.profiles, Run(env, db, rs).profiles);
    }
  }

  lemma ExactlyOne(profiles: map<ProfileKey, Profile>, owner: string, scope: string)
    requires OneActive(profiles) && HasActive(profiles, owner, scope)
    ensures |ActiveGenerations(profiles, owner, scope)| == 1
  {
    var k :| k in profiles && k.owner == owner && k.scope == scope && profiles[k].status == Active;
    assert ActiveGenerations(profiles, owner, scope) == {k.generation};
  }

  /** Once a scope has an ACTIVE generation, every later committed state has exactly one. */
  lemma OneActiveForEver(env: Env, db: Db, rs: seq<Request>, owner: string, scope: string)
    requires Inv(env, db) && HasActive(db.profiles, owner, scope)
    ensures |ActiveGenerations(Run(env, db, rs).profiles, owner, scope)| == 1
  {
    RunMoves(env, db, rs);
    RunKeepsInv(env, db, rs);
    ExactlyOne(Run(env, db, rs).profiles, owner, scope);
  }

  // ------------------------------------------------------------------ cutover

  /** Between the two UPDATEs of a cutover the scope has no ACTIVE generation, so neither UPDATE can
      meet the unique index; and the second completes the switch. */
  lemma HalfwayThroughCutover(profiles: map<ProfileKey, Profile>, active: ProfileKey, building: ProfileKey, at: string)
    requires OneActive(profiles) && active in profiles && building in profiles && active != building
    requires profiles[active].status == Active && active.owner == building.owner && active.scope == building.scope
    ensures var half := profiles[active := profiles[active].(status := Retired, retiredAt := Some(at))];
      ActiveGenerations(half, active.owner, active.scope) == {} && OneActive(half)
      && half[building := half[building].(status := Active, activatedAt := Some(at), retiredAt := None)]
         == Switched(profiles, active, building, at)
  {
    var half := profiles[active := profiles[active].(status := Retired, retiredAt := Some(at))];
    assert forall k | k in half && k.owner == active.owner && k.scope == active.scope :: half[k].status != Active;
  }

  /** A committed cutover found the scope's memories, its old ACTIVE rows and its BUILDING rows equal,
      and leaves the former BUILDING generation as the only ACTIVE one, with a row for each memory of
      the scope that carries its provenance. */
  lemma CutoverIsComplete(env: Env, db: Db, r: Request, id: string)
    requires Inv(env, db) && r.Cutover? && Step(env, db, r).out.Applied?
    ensures var e := Step(env, db, r).db; var owner := OwnerOf(db, r.grant);
      ActiveGenerations(e.profiles, owner, r.scope) == {r.building}
    ensures var e := Step(env, db, r).db; var owner := OwnerOf(db, r.grant);
      id in Canonical(e.metadata, owner, r.scope) <==>
        EmbeddingKey(id, r.building) in e.embeddings
        && ProfileOf(e.embeddings, EmbeddingKey(id, r.building)) == ProfileKey(owner, r.scope, r.building)
    ensures var e := Step(env, db, r).db; var owner := OwnerOf(db, r.grant);
      Canonical(db.metadata, owner, r.scope) == Embedded(db.embeddings, owner, r.scope, r.expected)
      && Canonical(db.metadata, owner, r.scope) == Embedded(db.embeddings, owner, r.scope, r.building)
  {
    hide AddStep, ReplaceStep, RemoveStep, RestoreStep, PurgeStep, OutsideStep, FailStep, CanAdmin, OwnerOf, AllSound,
         AuditKeysHold, NeverAbandoned, CreatorsExist, NoOrphanKeywords, RegistryKeysHold, OneToOne;
    var owner := OwnerOf(db, r.grant);
    var e := CutoverCommit(db, owner, r);
    ActiveProfile(db.profiles, owner, r.scope, r.expected);
    SwitchedActive(db.profiles, ProfileKey(owner, r.scope, r.expected), ProfileKey(owner, r.scope, r.building), r.at);
    assert id in Embedded(db.embeddings, owner, r.scope, r.building) <==>
      (EmbeddingKey(id, r.building) in db.embeddings
       && ProfileOf(db.embeddings, EmbeddingKey(id, r.building)) == ProfileKey(owner, r.scope, r.building));
  }

  lemma SwitchedActive(profiles: map<ProfileKey, Profile>, active: ProfileKey, building: ProfileKey, at: string)
    requires OneActive(profiles) && active in profiles && building in profiles && active != building
    requires profiles[active].status == Active && active.owner == building.owner && active.scope == building.scope
    ensures ActiveGenerations(Switched(profiles, active, building, at), building.owner, building.scope)
      == {building.generation}
  {
    var after := Switched(profiles, active, building, at);
    assert building in after && after[building].status == Active;
    forall k | k in after && k.owner == building.owner && k.scope == building.scope && after[k].status == Active
      ensures k == building
    {
      assert k != active;
    }
  }

  // --------------------------------------------------------------------- fail

  /** Every row outside of the generation `key` is as before. */
  predicate OthersKept(before: Db, key: ProfileKey, after: Db) {
    after.profiles - {key} == before.profiles - {key} && after.vectorTables - {key} == before.vectorTables - {key}
    && (forall t | t in before.vectors && (key in before.vectorTables ==> t != before.vectorTables[key]) ::
          t in after.vectors && after.vectors[t] == before.vectors[t])
    && (forall t | t in after.vectors :: t in before.vectors)
    && (forall k | k in before.embeddings && ProfileOf(before.embeddings, k) != key ::
          k in after.embeddings && after.embeddings[k] == before.embeddings[k])
    && (forall k | k in after.embeddings :: k in before.embeddings && after.embeddings[k] == before.embeddings[k])
    && after.memories == before.memories && after.keywords == before.keywords && after.fts == before.fts
    && after.metadata == before.metadata && after.legacyVectors == before.legacyVectors
    && after.events == before.events && after.idem == before.idem && after.grants == before.grants
  }

  lemma CommitCleans(before: Db, key: ProfileKey, at: string)
    requires key in before.profiles
    ensures var after := FailCommit(before, key, at);
      (key in before.vectorTables ==> before.vectorTables[key] !in after.vectors)
      && (forall k | k in after.embeddings :: ProfileOf(after.embeddings, k) != key)
      && key !in after.vectorTables && OthersKept(before, key, after)
      && key in after.profiles && after.profiles[key] == before.profiles[key].(status := Failed, retiredAt := Some(at))
  {
    var after := FailCommit(before, key, at);
    assert after.profiles - {key} == before.profiles - {key}
        && after.vectorTables - {key} == before.vectorTables - {key};
  }

  /** What failing a generation removes: its rows, its registration and its vector table; what it
      keeps: everything else. */
  lemma FailCleansOneGeneration(env: Env, db: Db, r: Request)
    requires r.FailGeneration? && Step(env, db, r).out.Applied?
    ensures var key := ProfileKey(OwnerOf(db, r.grant), r.scope, r.building); var e := Step(env, db, r).db;
      key in db.profiles && key in e.profiles
      && e.profiles[key] == db.profiles[key].(status := Failed, retiredAt := Some(r.at))
      && (key in db.vectorTables ==> db.vectorTables[key] !in e.vectors) && key !in e.vectorTables
      && (forall k | k in e.embeddings :: ProfileOf(e.embeddings, k) != key) && OthersKept(db, key, e)
  {
    hide AddStep, ReplaceStep, RemoveStep, RestoreStep, PurgeStep, CutoverStep, OutsideStep, CanAdmin,
         ActiveGenerations, OwnerOf, FailCommit, OthersKept, Droppable;
    CommitCleans(db, ProfileKey(OwnerOf(db, r.grant), r.scope, r.building), r.at);
  }
}
