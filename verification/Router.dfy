/** `retrieve_tiered`: hot first, then warm, then cold, with promotions on the way. */
module Router {
  import opened Sets
  import opened Schema
  import opened TierStore
  import opened Retrieval

  const SAMPLING_INTERVAL: nat := 20

  predicate SameButTier(row: Row, later: Row) {
    later.content == row.content && later.timestamp == row.timestamp && later.embedding == row.embedding
    && later.session == row.session && later.tag == row.tag
  }

  /** Each row of `ids` was read once more, no other row was, and no row changed but for its tier. */
  predicate Visited(before: map<string, Row>, after: map<string, Row>, ids: set<string>) {
    after.Keys == before.Keys
    && forall id | id in before ::
      SameButTier(before[id], after[id]) && after[id].access == before[id].access + if id in ids then 1 else 0
  }

  function Counted(rows: map<string, Row>, ids: set<string>, readAt: string -> int): map<string, Row> {
    map id | id in rows ::
      if id in ids then rows[id].(access := rows[id].access + 1, lastAccessed := Some(readAt(id))) else rows[id]
  }

  function Max(a: int, b: int): int { if a >= b then a else b }

  lemma CountOneMore(rows: map<string, Row>, ids: set<string>, id: string, readAt: string -> int)
    requires id in rows && id !in ids
    ensures Counted(rows, ids + {id}, readAt)
         == Counted(rows, ids, readAt)[id := rows[id].(access := rows[id].access + 1, lastAccessed := Some(readAt(id)))]
    ensures id in Counted(rows, ids, readAt) && Counted(rows, ids, readAt)[id] == rows[id]
  {
  }

  lemma NoneCounted(rows: map<string, Row>, readAt: string -> int)
    ensures Counted(rows, {}, readAt) == rows
  {
  }

  lemma WarmOneMore(rows: map<string, Row>, id: string)
    requires id in rows
    ensures |InTier(rows[id := rows[id].(tier := Warm)], Warm)| <= |InTier(rows, Warm)| + 1
  {
    assert InTier(rows[id := rows[id].(tier := Warm)], Warm) == InTier(rows, Warm) + {id};
  }

  /** `after` differs from `before` only in rows that were warmed up. */
  predicate WarmedOnly(before: map<string, Row>, after: map<string, Row>) {
    after.Keys == before.Keys
      && forall id | id in before :: after[id] == before[id] || after[id] == before[id].(tier := Warm)
  }

  lemma CountingVisits(before: map<string, Row>, mid: map<string, Row>, ids: set<string>, readAt: string -> int)
    requires WarmedOnly(before, mid)
    ensures Visited(before, Counted(mid, ids, readAt), ids)
    ensures InTier(Counted(mid, ids, readAt), Warm) == InTier(mid, Warm)
      && InTier(Counted(mid, ids, readAt), Hot) == InTier(mid, Hot)
  {
  }

  lemma SamplingVisits(before: map<string, Row>, mid: map<string, Row>, ids: set<string>, sampled: set<string>)
    requires Visited(before, mid, ids)
    ensures Visited(before, Warmed(mid, sampled), ids)
  {
  }

  // ------------------------------------------------------- what is returned

  function FillUp(all: seq<string>, found: seq<string>, k: nat): seq<string>
    decreases |found|
  {
    if found == [] then all
    else FillUp(if found[0] !in all && |all| < k then all + [found[0]] else all, found[1..], k)
  }

  /** The ids returned and the rows after the cold phase, with room for `capacity` more warm rows. */
  datatype Phase = Phase(all: seq<string>, rows: map<string, Row>)

  function ColdPhase(rows: map<string, Row>, all: seq<string>, cold: seq<string>, k: nat, capacity: int,
                     at: string -> int): Phase
    decreases |cold|
  {
    if cold == [] then Phase(all, rows)
    else
      var id := cold[0];
      if id in all || |all| >= k || id !in rows then ColdPhase(rows, all, cold[1..], k, capacity, at)
      else if capacity > 0 && Cooled(rows[id], at(id))
      then ColdPhase(rows[id := rows[id].(tier := Warm)], all + [id], cold[1..], k, capacity - 1, at)
      else ColdPhase(rows, all + [id], cold[1..], k, capacity, at)
  }

  /** The three phases: hot, then warm if there is a gap, then cold if there still is one. */
  function Routed(rows: map<string, Row>, k: nat, hot: seq<string>, warm: seq<string>, cold: seq<string>,
                  at: string -> int): Phase {
    var first := if InTier(rows, Hot) != {} then hot else [];
    var second := if |first| < k && InTier(rows, Warm) != {} then FillUp(first, warm, k) else first;
    if |second| < k && InTier(rows, Cold) != {}
      then ColdPhase(rows, second, cold, k, WARM_CAPACITY - |InTier(rows, Warm)|, at)
    else Phase(second, rows)
  }

  lemma {:induction false} FillUpIsSane(all: seq<string>, found: seq<string>, k: nat)
    requires Distinct(all) && |all| <= k
    ensures Distinct(FillUp(all, found, k)) && |FillUp(all, found, k)| <= k && all <= FillUp(all, found, k)
    ensures forall id | id in FillUp(all, found, k) :: id in all || id in found
    ensures forall id | id in found :: id in FillUp(all, found, k) || |FillUp(all, found, k)| == k
    decreases |found|
  {
    if found != [] {
      FillUpIsSane(if found[0] !in all && |all| < k then all + [found[0]] else all, found[1..], k);
      assert found == [found[0]] + found[1..];
    }
  }

  /** The cold phase only warms rows up, returns at most `k` distinct ones, and never fills the warm
      tier beyond the larger of its size and its capacity. */
  lemma {:induction false} ColdPhaseKeeps(rows: map<string, Row>, all: seq<string>, cold: seq<string>, k: nat,
                                          capacity: int, at: string -> int)
    requires Distinct(all) && |all| <= k && forall id | id in all :: id in rows
    ensures var p := ColdPhase(rows, all, cold, k, capacity, at);
      Distinct(p.all) && |p.all| <= k && all <= p.all && (forall id | id in p.all :: id in rows)
      && WarmedOnly(rows, p.rows)
      && |InTier(p.rows, Warm)| <= |InTier(rows, Warm)| + Max(capacity, 0)
    decreases |cold|
  {
    hide InTier, Distinct;
    if cold != [] {
      var id := cold[0];
      if id in all || |all| >= k || id !in rows {
        ColdPhaseKeeps(rows, all, cold[1..], k, capacity, at);
      } else {
        OneMoreIsDistinct(all, id);
        if capacity > 0 && Cooled(rows[id], at(id)) {
          WarmOneMore(rows, id);
          ColdPhaseKeeps(rows[id := rows[id].(tier := Warm)], all + [id], cold[1..], k, capacity - 1, at);
        } else {
          ColdPhaseKeeps(rows, all + [id], cold[1..], k, capacity, at);
        }
      }
    }
  }

  lemma OneMoreIsDistinct(all: seq<string>, id: string)
    requires Distinct(all) && id !in all
    ensures Distinct(all + [id])
  {
  }

  /** Filling the gap never pushes the warm tier above the larger of its size and 5000. */
  lemma RoutedKeeps(rows: map<string, Row>, k: nat, hot: seq<string>, warm: seq<string>, cold: seq<string>,
                    at: string -> int)
    requires Sane(rows, k, hot) && Sane(rows, k, warm) && Sane(rows, k, cold)
    ensures var p := Routed(rows, k, hot, warm, cold, at);
      Sane(rows, k, p.all) && WarmedOnly(rows, p.rows)
      && |InTier(p.rows, Warm)| <= Max(|InTier(rows, Warm)|, WARM_CAPACITY)
  {
    hide InTier, ColdPhase, FillUp;
    var first := if InTier(rows, Hot) != {} then hot else [];
    FillUpIsSane(first, warm, k);
    var second := if |first| < k && InTier(rows, Warm) != {} then FillUp(first, warm, k) else first;
    ColdPhaseKeeps(rows, second, cold, k, WARM_CAPACITY - |InTier(rows, Warm)|, at);
  }

  // -------------------------------------------------- the answer in three parts

  /** The ids of `found` that are not in `all`, in their order. */
  function Without(found: seq<string>, all: seq<string>): seq<string>
    decreases |found|
  {
    if found == [] then []
    else (if found[0] in all then [] else [found[0]]) + Without(found[1..], all)
  }

  function Take(ids: seq<string>, n: int): seq<string> {
    if n <= 0 then [] else if n >= |ids| then ids else ids[..n]
  }

  /** The ids whose rows are not cooling down, in their order. */
  function CooledOf(rows: map<string, Row>, ids: seq<string>, at: string -> int): seq<string>
    decreases |ids|
  {
    if ids == [] then []
    else (if ids[0] in rows && Cooled(rows[ids[0]], at(ids[0])) then [ids[0]] else []) + CooledOf(rows, ids[1..], at)
  }

  lemma {:induction false} WithoutIsFilter(found: seq<string>, all: seq<string>, id: string)
    ensures id in Without(found, all) <==> id in found && id !in all
    decreases |found|
  {
    if found != [] {
      WithoutIsFilter(found[1..], all, id);
      assert found == [found[0]] + found[1..];
    }
  }

  lemma {:induction false} WithoutOneMore(found: seq<string>, all: seq<string>, id: string)
    requires id !in found
    ensures Without(found, all + [id]) == Without(found, all)
    decreases |found|
  {
    if found != [] {
      assert found == [found[0]] + found[1..];
      WithoutOneMore(found[1..], all, id);
    }
  }

  lemma TakeOneMore(id: string, ids: seq<string>, n: int)
    ensures Take([id] + ids, n) == if n <= 0 then [] else [id] + Take(ids, n - 1)
  {
  }

  /** Filling up appends the new ids in their order, as many as there is room for. */
  lemma {:induction false} FillUpIs(all: seq<string>, found: seq<string>, k: nat)
    requires Distinct(found)
    ensures FillUp(all, found, k) == all + Take(Without(found, all), k - |all|)
    decreases |found|
  {
    hide Take, Without, Distinct;
    if found == [] {
      NothingTaken(all, k - |all|);
    } else {
      var id, rest := found[0], found[1..];
      assert found == [id] + rest;
      RestIsDistinct(id, rest);
      FirstWithout(found, all);
      TakeOneMore(id, Without(rest, all), k - |all|);
      if id in all {
        FillUpIs(all, rest, k);
      } else if |all| >= k {
        FillUpIs(all, rest, k);
        NoRoom(Without(rest, all), k - |all|);
      } else {
        FillUpIs(all + [id], rest, k);
        WithoutOneMore(rest, all, id);
        assert all + [id] + Take(Without(rest, all), k - |all| - 1)
            == all + ([id] + Take(Without(rest, all), k - |all| - 1));
      }
    }
  }

  lemma NothingTaken(all: seq<string>, n: int)
    ensures all + Take(Without([], all), n) == all
  {
  }

  lemma TakeTakes(ids: seq<string>, n: int)
    ensures (forall id | id in Take(ids, n) :: id in ids) && (|Take(ids, n)| < n ==> Take(ids, n) == ids)
  {
  }

  lemma NoRoom(ids: seq<string>, n: int)
    ensures n <= 0 ==> Take(ids, n) == []
  {
  }

  lemma FirstWithout(found: seq<string>, all: seq<string>)
    requires found != []
    ensures Without(found, all)
      == if found[0] in all then Without(found[1..], all) else [found[0]] + Without(found[1..], all)
  {
  }

  lemma {:induction false} CooledElsewhere(rows: map<string, Row>, ids: seq<string>, at: string -> int, id: string)
    requires id in rows
    ensures CooledOf(rows[id := rows[id].(tier := Warm)], ids, at) == CooledOf(rows, ids, at)
    decreases |ids|
  {
    if ids != [] { CooledElsewhere(rows, ids[1..], at, id); }
  }

  lemma WarmedOneMore(rows: map<string, Row>, id: string, ids: seq<string>)
    requires id in rows
    ensures Warmed(rows[id := rows[id].(tier := Warm)], Members(ids)) == Warmed(rows, Members([id] + ids))
  {
    assert Members([id] + ids) == {id} + Members(ids);
  }

  /** The cold phase fills up like the others, and warms up the cooled ones among what it adds, in their
      order, until the room in the warm tier is used up. */
  lemma {:induction false} ColdPhaseIs(rows: map<string, Row>, all: seq<string>, cold: seq<string>, k: nat,
                                       capacity: int, at: string -> int)
    requires Distinct(cold) && forall id | id in cold :: id in rows
    ensures var p := ColdPhase(rows, all, cold, k, capacity, at); var added := Take(Without(cold, all), k - |all|);
      p.all == all + added && p.rows == Warmed(rows, Members(Take(CooledOf(rows, added, at), capacity)))
    decreases |cold|, 0
  {
    hide Cooled, Warmed, Take, Without, Distinct, CooledOf;
    if cold == [] {
      NothingTaken(all, k - |all|);
      NothingWarmed(rows, at, capacity);
      assert all + [] == all;
    } else {
      var id, rest := cold[0], cold[1..];
      assert cold == [id] + rest;
      RestIsDistinct(id, rest);
      FirstWithout(cold, all);
      TakeOneMore(id, Without(rest, all), k - |all|);
      if id in all {
        ColdPhaseIs(rows, all, rest, k, capacity, at);
      } else if |all| >= k {
        ColdPhaseIs(rows, all, rest, k, capacity, at);
        NoRoom(Without(rest, all), k - |all|);
      } else {
        WithoutOneMore(rest, all, id);
        ColdPhaseAdds(rows, all, id, rest, k, capacity, at);
      }
    }
  }

  lemma {:induction false} ColdPhaseAdds(rows: map<string, Row>, all: seq<string>, id: string, rest: seq<string>,
                                         k: nat,
                                         capacity: int, at: string -> int)
    requires Distinct([id] + rest) && id in rows && (forall x | x in rest :: x in rows) && id !in all && |all| < k
    requires Without(rest, all + [id]) == Without(rest, all)
    ensures var p := ColdPhase(rows, all, [id] + rest, k, capacity, at);
      var added := [id] + Take(Without(rest, all), k - |all| - 1);
      p.all == all + added && p.rows == Warmed(rows, Members(Take(CooledOf(rows, added, at), capacity)))
    decreases |rest|, 1
  {
    hide Cooled, Warmed, Take, Without, CooledOf, Distinct, Members;
    var more := Take(Without(rest, all), k - |all| - 1);
    assert ([id] + rest)[1..] == rest;
    assert all + [id] + more == all + ([id] + more);
    RestIsDistinct(id, rest);
    FirstCooled(rows, id, more, at);
    TakeOneMore(id, CooledOf(rows, more, at), capacity);
    if capacity > 0 && Cooled(rows[id], at(id)) {
      var next := rows[id := rows[id].(tier := Warm)];
      ColdPhaseIs(next, all + [id], rest, k, capacity - 1, at);
      CooledElsewhere(rows, more, at, id);
      WarmedOneMore(rows, id, Take(CooledOf(rows, more, at), capacity - 1));
    } else {
      ColdPhaseIs(rows, all + [id], rest, k, capacity, at);
      NoRoom(CooledOf(rows, more, at), capacity);
    }
  }

  lemma FirstCooled(rows: map<string, Row>, id: string, ids: seq<string>, at: string -> int)
    requires id in rows
    ensures CooledOf(rows, [id] + ids, at)
         == if Cooled(rows[id], at(id)) then [id] + CooledOf(rows, ids, at) else CooledOf(rows, ids, at)
  {
    assert ([id] + ids)[1..] == ids;
  }

  lemma RestIsDistinct(id: string, rest: seq<string>)
    requires Distinct([id] + rest)
    ensures Distinct(rest) && id !in rest
  {
    forall i | 0 <= i < |rest| ensures rest[i] != id {
      assert ([id] + rest)[0] == id && ([id] + rest)[i + 1] == rest[i];
    }
    forall i, j | 0 <= i < j < |rest| ensures rest[i] != rest[j] {
      assert ([id] + rest)[i + 1] == rest[i] && ([id] + rest)[j + 1] == rest[j];
    }
  }

  /** The answer is what the hot tier found, then what warm and cold add to it as long as there is a gap;
      a tier without rows is not searched. */
  predicate InThreeParts(rows: map<string, Row>, k: nat, hot: seq<string>, warm: seq<string>, cold: seq<string>,
                         all: seq<string>, a: nat, b: nat)
    requires a <= b <= |all|
  {
    all[..a] == (if exists id :: id in rows && rows[id].tier == Hot then hot else [])
    && all[a..b] == (if a < k && exists id :: id in rows && rows[id].tier == Warm
                     then Take(Without(warm, all[..a]), k - a) else [])
    && all[b..] == (if b < k && exists id :: id in rows && rows[id].tier == Cold
                    then Take(Without(cold, all[..b]), k - b) else [])
  }

  /** What the routing makes of the rows: it warms up what the third part allows. */
  function WarmedByThird(rows: map<string, Row>, third: seq<string>, at: string -> int): map<string, Row> {
    Warmed(rows, Members(Take(CooledOf(rows, third, at), WARM_CAPACITY - |InTier(rows, Warm)|)))
  }

  lemma TierIff(rows: map<string, Row>, tier: Tier)
    ensures InTier(rows, tier) != {} <==> exists id :: id in rows && rows[id].tier == tier
  {
    if id :| id in rows && rows[id].tier == tier {
      assert id in InTier(rows, tier);
    }
  }

  lemma RoutedInParts(rows: map<string, Row>, k: nat, hot: seq<string>, warm: seq<string>, cold: seq<string>,
                      at: string -> int)
    returns (a: nat, b: nat)
    requires Distinct(warm) && Distinct(cold) && forall id | id in cold :: id in rows
    ensures var p := Routed(rows, k, hot, warm, cold, at);
      a <= b <= |p.all| && InThreeParts(rows, k, hot, warm, cold, p.all, a, b)
        && p.rows == WarmedByThird(rows, p.all[b..], at)
  {
    hide InTier, FillUp, ColdPhase, Warmed, CooledOf, Take, Without, Distinct, Members, InThreeParts;
    var room := WARM_CAPACITY - |InTier(rows, Warm)|;
    var first := if InTier(rows, Hot) != {} then hot else [];
    var second := if |first| < k && InTier(rows, Warm) != {} then FillUp(first, warm, k) else first;
    a, b := |first|, |second|;
    FillUpIs(first, warm, k);
    ColdPhaseIs(rows, second, cold, k, room, at);
    NothingWarmed(rows, at, room);
    var mid := if |first| < k && InTier(rows, Warm) != {} then Take(Without(warm, first), k - |first|) else [];
    var third := if |second| < k && InTier(rows, Cold) != {} then Take(Without(cold, second), k - |second|) else [];
    assert second == first + mid;
    assert Routed(rows, k, hot, warm, cold, at).all == second + third;
    PartsAre(rows, k, hot, warm, cold, first, mid, third);
    assert (second + third)[b..] == third;
  }

  lemma PartsAre(rows: map<string, Row>, k: nat, hot: seq<string>, warm: seq<string>, cold: seq<string>,
                 first: seq<string>,
                 mid: seq<string>, third: seq<string>)
    requires first == if InTier(rows, Hot) != {} then hot else []
    requires mid == if |first| < k && InTier(rows, Warm) != {} then Take(Without(warm, first), k - |first|) else []
    requires third == if |first + mid| < k
      && InTier(rows, Cold) != {} then Take(Without(cold, first + mid), k - |first + mid|)
                      else []
    ensures InThreeParts(rows, k, hot, warm, cold, first + mid + third, |first|, |first + mid|)
  {
    hide Take, Without, InTier;
    TierIff(rows, Hot);
    TierIff(rows, Warm);
    TierIff(rows, Cold);
    var all := first + mid + third;
    assert all[..|first|] == first && all[|first|..|first + mid|] == mid && all[..|first + mid|] == first + mid
      && all[|first + mid|..] == third;
  }

  lemma NothingWarmed(rows: map<string, Row>, at: string -> int, room: int)
    ensures Warmed(rows, Members(Take(CooledOf(rows, [], at), room))) == rows
  {
    assert Warmed(rows, {}) == rows;
  }

  /** So the hot results always come first and complete, every id has been found in a tier that was
      searched, and an answer with a gap has all that the tiers found. */
  lemma PartsTell(rows: map<string, Row>, k: nat, hot: seq<string>, warm: seq<string>, cold: seq<string>,
                  all: seq<string>, a: nat, b: nat)
    requires a <= b <= |all| && InThreeParts(rows, k, hot, warm, cold, all, a, b)
    ensures (exists id :: id in rows && rows[id].tier == Hot) ==> hot <= all
    ensures forall id | id in all ::
      (id in hot && exists x :: x in rows && rows[x].tier == Hot)
      || (id in warm && exists x :: x in rows && rows[x].tier == Warm)
      || (id in cold && exists x :: x in rows && rows[x].tier == Cold)
    ensures |all| < k && (exists id :: id in rows && rows[id].tier == Warm) ==> forall id | id in warm :: id in all
    ensures |all| < k && (exists id :: id in rows && rows[id].tier == Cold) ==> forall id | id in cold :: id in all
  {
    hide Without, Take;
    var x, y, z := all[..a], all[a..b], all[b..];
    assert all == x + y + z;
    assert all[..b] == x + y;
    var hots := exists id :: id in rows && rows[id].tier == Hot;
    var warms := exists id :: id in rows && rows[id].tier == Warm;
    var colds := exists id :: id in rows && rows[id].tier == Cold;
    ThreeTell(x, y, z, hots, warms, colds, hot, warm, cold, k);
  }

  lemma ThreeTell(x: seq<string>, y: seq<string>, z: seq<string>, hots: bool, warms: bool, colds: bool,
                  hot: seq<string>, warm: seq<string>, cold: seq<string>, k: nat)
    requires x == (if hots then hot else [])
    requires y == (if |x| < k && warms then Take(Without(warm, x), k - |x|) else [])
    requires z == (if |x + y| < k && colds then Take(Without(cold, x + y), k - |x + y|) else [])
    ensures hots ==> hot <= x + y + z
    ensures forall id | id in x + y + z :: (id in hot && hots) || (id in warm && warms) || (id in cold && colds)
    ensures |x + y + z| < k && warms ==> forall id | id in warm :: id in x + y + z
    ensures |x + y + z| < k && colds ==> forall id | id in cold :: id in x + y + z
  {
    hide Without, Take;
    PartOf(warm, x, k);
    PartOf(cold, x + y, k);
    forall id | id in x + y + z ensures id in x || id in y || id in z {
    }
    forall id | id in x + y ensures id in x + y + z {
    }
  }

  /** What a tier adds to `all` is what it found, and all of it unless the answer is full. */
  lemma PartOf(found: seq<string>, all: seq<string>, k: nat)
    ensures var added := Take(Without(found, all), k - |all|);
      (forall id | id in added :: id in found)
      && (|all + added| < k ==> forall id | id in found :: id in all + added)
  {
    hide Without;
    forall id ensures id in Without(found, all) <==> id in found && id !in all { WithoutIsFilter(found, all, id); }
  }

  /** `mid` are the rows after the routing that answers `all`, before accesses are counted. */
  ghost predicate RoutedAs(rows: map<string, Row>, k: nat, hot: seq<string>, warm: seq<string>, cold: seq<string>,
                           at: string -> int, all: seq<string>, mid: map<string, Row>) {
    exists a: nat, b: nat :: a <= b <= |all| && InThreeParts(rows, k, hot, warm, cold, all, a, b)
                             && mid == WarmedByThird(rows, all[b..], at)
  }

  lemma RoutedIs(rows: map<string, Row>, k: nat, hot: seq<string>, warm: seq<string>, cold: seq<string>,
                 at: string -> int)
    requires Distinct(warm) && Distinct(cold) && forall id | id in cold :: id in rows
    ensures var p := Routed(rows, k, hot, warm, cold, at);
      RoutedAs(rows, k, hot, warm, cold, at, p.all, p.rows)
      && ((exists id :: id in rows && rows[id].tier == Hot) ==> hot <= p.all)
      && (|p.all| < k && (exists id :: id in rows && rows[id].tier == Warm) ==> forall id | id in warm :: id in p.all)
      && (|p.all| < k && (exists id :: id in rows && rows[id].tier == Cold) ==> forall id | id in cold :: id in p.all)
  {
    hide InThreeParts, WarmedByThird, Routed, Distinct;
    var a, b := RoutedInParts(rows, k, hot, warm, cold, at);
    PartsTell(rows, k, hot, warm, cold, Routed(rows, k, hot, warm, cold, at).all, a, b);
  }

  class TierRouter {
    var queries: nat

    constructor () ensures queries == 0 { queries := 0; }

    /** Appends what is new, up to `k` in all. */
    method Fill(all: seq<string>, found: seq<string>, k: nat) returns (more: seq<string>)
      ensures more == FillUp(all, found, k)
    {
      more := all;
      var n := 0;
      while n < |found|
        invariant 0 <= n <= |found| && FillUp(all, found, k) == FillUp(more, found[n..], k)
      {
        assert found[n..][0] == found[n] && found[n..][1..] == found[n + 1..];
        if found[n] !in more && |more| < k { more := more + [found[n]]; }
        n := n + 1;
      }
    }

    /** The same from the cold tier, warming up what is not cooling down while the warm tier has room. */
    method FillFromCold(store: SQLiteStore, all: seq<string>, cold: seq<string>, k: nat, at: string -> int)
      returns (more: seq<string>)
      requires store.Valid() && forall id | id in cold :: id in store.rows
      modifies store`rows, store`vec, store`history
      ensures store.Valid() && RisesLogged(old(store.rows), store.rows, old(store.history), store.history, at)
      ensures Phase(more, store.rows)
           == ColdPhase(old(store.rows), all, cold, k, WARM_CAPACITY - |InTier(old(store.rows), Warm)|, at)
      ensures old(Exact(store.rows, store.vec)) ==> Exact(store.rows, store.vec)
    {
      hide Exact, AllCooled, Tracked, RisesLogged, InTier;
      more := all;
      ghost var before, log := store.rows, store.history;
      NothingRises(before, before, log, log, at);
      var capacity := WARM_CAPACITY - |InTier(store.rows, Warm)|;
      ghost var target := ColdPhase(before, all, cold, k, capacity, at);
      var n := 0;
      while n < |cold|
        invariant 0 <= n <= |cold| && store.Valid() && RisesLogged(before, store.rows, log, store.history, at)
        invariant old(Exact(store.rows, store.vec)) ==> Exact(store.rows, store.vec)
        invariant store.rows.Keys == before.Keys && target == ColdPhase(store.rows, more, cold[n..], k, capacity, at)
      {
        var id := cold[n];
        assert id in cold && cold[n..][0] == id && cold[n..][1..] == cold[n + 1..];
        if id !in more && |more| < k {
          more := more + [id];
          if capacity > 0 {
            ghost var current, sofar := store.rows, store.history;
            var moved := store.WarmUp(id, at(id));
            if moved {
              capacity := capacity - 1;
              OneRises(current, id, store.rows[id], sofar, at);
              RisesCompose(before, current, store.rows, log, sofar, store.history, at);
            }
          }
        }
        n := n + 1;
      }
    }

    method CountAccesses(store: SQLiteStore, ids: seq<string>, readAt: string -> int)
      requires store.Valid() && Distinct(ids) && forall i | 0 <= i < |ids| :: ids[i] in store.rows
      modifies store`rows
      ensures store.Valid() && store.rows == Counted(old(store.rows), Members(ids), readAt)
      ensures old(Exact(store.rows, store.vec)) ==> Exact(store.rows, store.vec)
    {
      hide Exact, AllCooled, Tracked, Counted;
      ghost var before := store.rows;
      var n := 0;
      NoneCounted(before, readAt);
      assert Members(ids[..0]) == {};
      while n < |ids|
        invariant 0 <= n <= |ids| && store.Valid() && store.rows == Counted(before, Members(ids[..n]), readAt)
        invariant old(Exact(store.rows, store.vec)) ==> Exact(store.rows, store.vec)
      {
        OneMoreMember(ids, n);
        CountOneMore(before, Members(ids[..n]), ids[n], readAt);
        store.IncrementAccess(ids[n], readAt(ids[n]));
        n := n + 1;
      }
      assert ids[..n] == ids;
    }

    /** `at` and `readAt` are the readings of the clock for each row, at its promotion and when its access
        is counted. `hot`, `warm` and `cold` are the answers of `RetrieveRelevant` for each tier, `pick` the engine's
        random choice of up to two rows. Every twentieth call also samples the cold tier. */
    method RetrieveTiered(store: SQLiteStore, k: nat, hot: seq<string>, warm: seq<string>, cold: seq<string>,
                          query: set<string>, pick: set<string> -> seq<string>, keywords: string -> set<string>,
                          at: string -> int, readAt: string -> int)
      returns (all: seq<string>)
      requires store.Valid() && Sane(store.rows, k, hot) && Sane(store.rows, k, warm) && Sane(store.rows, k, cold)
      requires forall s :: Distinct(pick(s)) && Members(pick(s)) <= s && |pick(s)| <= 2
      modifies this, store`rows, store`vec, store`history
      ensures store.Valid() && RisesLogged(old(store.rows), store.rows, old(store.history), store.history, at)
      ensures Sane(store.rows, k, all) && Visited(old(store.rows), store.rows, Members(all))
      ensures var routed := Routed(old(store.rows), k, hot, warm, cold, at);
        var counted := Counted(routed.rows, Members(all), readAt);
        all == routed.all
        && if old(queries) + 1 < SAMPLING_INTERVAL then store.rows == counted && queries == old(queries) + 1
           else queries == 0
                && store.rows == Warmed(counted, Sampled(counted, query, pick(InTier(counted, Cold)), keywords, at))
      ensures RoutedAs(old(store.rows), k, hot, warm, cold, at, all,
                       Routed(old(store.rows), k, hot, warm, cold, at).rows)
      ensures (exists id :: id in old(store.rows) && old(store.rows)[id].tier == Hot) ==> hot <= all
      ensures |all| < k && (exists id :: id in old(store.rows) && old(store.rows)[id].tier == Warm) ==>
        forall id | id in warm :: id in all
      ensures |all| < k && (exists id :: id in old(store.rows) && old(store.rows)[id].tier == Cold) ==>
        forall id | id in cold :: id in all
      ensures |InTier(store.rows, Warm)| <= Max(|InTier(old(store.rows), Warm)|, WARM_CAPACITY)
                                            + if old(queries) + 1 < SAMPLING_INTERVAL then 0 else 2
      ensures old(Exact(store.rows, store.vec)) ==> Exact(store.rows, store.vec)
    {
      hide Exact, AllCooled, Tracked, RisesLogged, RoutedAs, Counted, Warmed, Sampled, InTier, Visited, Routed;
      ghost var before, log := store.rows, store.history;
      RoutedKeeps(before, k, hot, warm, cold, at);
      RoutedIs(before, k, hot, warm, cold, at);
      all := Route(store, k, hot, warm, cold, at);
      ghost var mid, routed := store.rows, store.history;
      CountingVisits(before, mid, Members(all), readAt);
      CountingRaisesNothing(mid, Members(all), routed, at, readAt);
      CountAccesses(store, all, readAt);
      RisesCompose(before, mid, store.rows, log, routed, routed, at);
      queries := queries + 1;
      if queries >= SAMPLING_INTERVAL {
        queries := 0;
        ghost var counted := store.rows;
        var picks := pick(InTier(store.rows, Cold));
        SamplingVisits(before, counted, Members(all), Sampled(counted, query, picks, keywords, at));
        SamplingWarms(counted, query, picks, keywords, at);
        var promoted := store.SampleCold(query, picks, keywords, at);
        RisesCompose(before, counted, store.rows, log, routed, store.history, at);
      }
    }

    /** The three fill-gap phases. */
    method Route(store: SQLiteStore, k: nat, hot: seq<string>, warm: seq<string>, cold: seq<string>, at: string -> int)
      returns (all: seq<string>)
      requires store.Valid() && forall id | id in cold :: id in store.rows
      modifies store`rows, store`vec, store`history
      ensures store.Valid() && RisesLogged(old(store.rows), store.rows, old(store.history), store.history, at)
      ensures Phase(all, store.rows) == Routed(old(store.rows), k, hot, warm, cold, at)
      ensures old(Exact(store.rows, store.vec)) ==> Exact(store.rows, store.vec)
    {
      hide Exact, AllCooled, Tracked, RisesLogged, InTier, ColdPhase, FillUp;
      NothingRises(store.rows, store.rows, store.history, store.history, at);
      all := [];
      if InTier(store.rows, Hot) != {} { all := hot; }
      if |all| < k && InTier(store.rows, Warm) != {} { all := Fill(all, warm, k); }
      if |all| < k && InTier(store.rows, Cold) != {} { all := FillFromCold(store, all, cold, k, at); }
    }
  }

  lemma CountingRaisesNothing(rows: map<string, Row>, ids: set<string>, log: seq<Entry>, at: string -> int,
                              readAt: string -> int)
    ensures RisesLogged(rows, Counted(rows, ids, readAt), log, log, at) && Counted(rows, ids, readAt).Keys == rows.Keys
  {
  }

  lemma SamplingWarms(rows: map<string, Row>, query: set<string>, picks: seq<string>, keywords: string -> set<string>,
                      at: string -> int)
    requires Distinct(picks) && |picks| <= 2
    ensures |InTier(Warmed(rows, Sampled(rows, query, picks, keywords, at)), Warm)| <= |InTier(rows, Warm)| + 2
  {
    var sampled := Sampled(rows, query, picks, keywords, at);
    assert InTier(Warmed(rows, sampled), Warm) == InTier(rows, Warm) + sampled;
    assert sampled <= Members(picks);
    DistinctMembers(picks);
    SubsetSize(sampled, Members(picks));
    assert |InTier(rows, Warm) + sampled| <= |InTier(rows, Warm)| + |sampled|;
  }
}
