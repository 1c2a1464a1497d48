/** Reciprocal rank fusion of the vector, keyword and full-text paths. */
module Fusion {
  import opened Sets
  import opened Schema
  import opened TierStore

  const RANK_BASE: real := 60.0

  /** 1 / (60 + rank) */
  function Reciprocal(rank: nat): (r: real)
    ensures 0.0 < r <= 1.0 / 60.0
  {
    1.0 / (RANK_BASE + rank as real)
  }

  /** What a path that returns `ids` in this order adds to the score of `m`. */
  function RankSum(ids: seq<string>, m: string): real
    decreases |ids|
  {
    if ids == [] then 0.0
    else
      var n := |ids| - 1;
      RankSum(ids[..n], m) + if ids[n] == m then Reciprocal(n) else 0.0
  }

  function Get(path: map<string, real>, m: string): real { if m in path then path[m] else 0.0 }

  /** `after` is `path` with the path `ids` added. */
  ghost predicate Plus(path: map<string, real>, ids: seq<string>, after: map<string, real>) {
    after.Keys == path.Keys + Members(ids) && forall m | m in after :: after[m] == Get(path, m) + RankSum(ids, m)
  }

  lemma {:induction false} RankSumElsewhere(ids: seq<string>, m: string)
    requires m !in ids
    ensures RankSum(ids, m) == 0.0
    decreases |ids|
  {
    if ids != [] { RankSumElsewhere(ids[..|ids| - 1], m); }
  }

  lemma {:induction false} RankSumOnce(ids: seq<string>, m: string)
    requires Distinct(ids) && m in ids
    ensures 0.0 < RankSum(ids, m) <= 1.0 / 60.0
    decreases |ids|
  {
    var n := |ids| - 1;
    assert ids == ids[..n] + [ids[n]];
    if ids[n] == m {
      RankSumElsewhere(ids[..n], m);
    } else {
      RankSumOnce(ids[..n], m);
    }
  }

  lemma PlusOneMore(path: map<string, real>, ids: seq<string>, now: map<string, real>, m: string)
    requires Plus(path, ids, now)
    ensures Plus(path, ids + [m], now[m := Get(now, m) + Reciprocal(|ids|)])
  {
    var after := now[m := Get(now, m) + Reciprocal(|ids|)];
    assert (ids + [m])[..|ids|] == ids;
    forall x | x in after ensures after[x] == Get(path, x) + RankSum(ids + [m], x) {
      if x !in now { RankSumElsewhere(ids, x); }
    }
  }

  lemma NothingAdded(path: map<string, real>)
    ensures Plus(path, [], path)
  {
  }

  method AddPath(path: map<string, real>, ids: seq<string>) returns (after: map<string, real>)
    ensures Plus(path, ids, after)
  {
    hide Plus;
    after := path;
    var rank := 0;
    NothingAdded(path);
    assert ids[..0] == [];
    while rank < |ids|
      invariant 0 <= rank <= |ids| && Plus(path, ids[..rank], after)
    {
      PlusOneMore(path, ids[..rank], after, ids[rank]);
      after := after[ids[rank] := Get(after, ids[rank]) + Reciprocal(rank)];
      assert ids[..rank + 1] == ids[..rank] + [ids[rank]];
      rank := rank + 1;
    }
    assert ids[..rank] == ids;
  }

  /** `order` lists what the hops from `hop` on add to `known`: hop after hop, each from the ids that the
      one before it added, and each in any order; nothing is searched without seeds. */
  predicate Arranged(order: seq<string>, known: set<string>, seeds: set<string>, hop: nat, hops: nat,
                     found: (nat, set<string>) -> set<string>)
    decreases hops - hop
  {
    if hop >= hops then order == []
    else
      var hits := if seeds == {} then {} else found(hop, seeds);
      var added := hits - known;
      |added| <= |order| && Members(order[..|added|]) == added
      && if added == {} then order == [] else Arranged(order[|added|..], known + hits, added, hop + 1, hops, found)
  }

  /** What the hops reach: the ids that are new at each hop, as long as one is and hops are left. */
  function Hopped(known: set<string>, seeds: set<string>, hop: nat, hops: nat,
                  found: (nat, set<string>) -> set<string>): set<string>
    decreases hops - hop
  {
    if hop >= hops || seeds == {} || found(hop, seeds) <= known then {}
    else
      var added := found(hop, seeds) - known;
      added + Hopped(known + added, added, hop + 1, hops, found)
  }

  /** An arrangement lists exactly what the hops reach. */
  lemma {:induction false} ArrangedIsHopped(order: seq<string>, known: set<string>, seeds: set<string>, hop: nat,
                                            hops: nat,
                                            found: (nat, set<string>) -> set<string>)
    requires Arranged(order, known, seeds, hop, hops, found)
    ensures Members(order) == Hopped(known, seeds, hop, hops, found)
    decreases hops - hop
  {
    hide Members;
    if hop < hops {
      var hits := if seeds == {} then {} else found(hop, seeds);
      var added := hits - known;
      AddedIff(known, hits);
      MembersSplit(order, |added|);
      if added == {} {
        NoMembers();
      } else {
        ArrangedIsHopped(order[|added|..], known + hits, added, hop + 1, hops, found);
      }
    } else {
      NoMembers();
    }
  }

  lemma AddedIff(known: set<string>, hits: set<string>)
    ensures (hits - known == {} <==> hits <= known) && known + hits == known + (hits - known)
  {
    if hits - known == {} {
      assert forall m | m in hits :: m !in known ==> m in hits - known;
    }
  }

  lemma NoMembers()
    ensures Members([]) == {}
  {
  }

  lemma MembersSplit(order: seq<string>, n: nat)
    ensures n <= |order| ==> Members(order) == Members(order[..n]) + Members(order[n..])
  {
    if n <= |order| { assert order == order[..n] + order[n..]; }
  }

  lemma ArrangedNext(prefix: seq<string>, tail: seq<string>, known: set<string>, seeds: set<string>, hop: nat,
                     hops: nat, found: (nat, set<string>) -> set<string>)
    requires hop < hops && Distinct(prefix)
    requires var hits := if seeds == {} then {} else found(hop, seeds);
      Members(prefix) == hits - known && hits - known != {}
        && Arranged(tail, known + hits, hits - known, hop + 1, hops, found)
    ensures Arranged(prefix + tail, known, seeds, hop, hops, found)
  {
    DistinctMembers(prefix);
    assert (prefix + tail)[..|prefix|] == prefix && (prefix + tail)[|prefix|..] == tail;
  }

  lemma ArrangedEnds(known: set<string>, seeds: set<string>, hop: nat, hops: nat,
                     found: (nat, set<string>) -> set<string>)
    requires hop >= hops || (if seeds == {} then {} else found(hop, seeds)) <= known
    ensures Arranged([], known, seeds, hop, hops, found)
  {
    if hop < hops { assert (if seeds == {} then {} else found(hop, seeds)) - known == {}; }
  }

  /** Scores the ids that one hop adds, in any order, and counts on from `rank`. */
  method AddHop(path: map<string, real>, ghost base: map<string, real>, ghost before: seq<string>, added: set<string>,
                rank: nat)
    returns (after: map<string, real>, order: seq<string>)
    requires Plus(base, before, path) && rank == |before|
    ensures Plus(base, before + order, after) && Members(order) == added && Distinct(order) && |order| == |added|
  {
    hide Plus;
    after, order := path, [];
    var todo := added;
    assert before + order == before;
    while todo != {}
      invariant todo <= added && Plus(base, before + order, after) && Distinct(order)
      invariant Members(order) == added - todo && |order| == |added| - |todo|
      decreases todo
    {
      var m :| m in todo;
      PlusOneMore(base, before + order, after, m);
      assert before + order + [m] == before + (order + [m]);
      after := after[m := Get(after, m) + Reciprocal(rank + |order|)];
      assert Members(order + [m]) == Members(order) + {m};
      assert m !in Members(order);
      order := order + [m];
      todo := todo - {m};
    }
  }

  /** What is left to arrange after `order` completes an arrangement from `start` on. */
  ghost predicate Continues(start: set<string>, order: seq<string>, known: set<string>, seeds: set<string>, hop: nat,
                            hops: nat, found: (nat, set<string>) -> set<string>)
  {
    Distinct(order) && Members(order) !! start && start + Members(order) <= known
    && forall tail :: Arranged(tail, known, seeds, hop, hops, found) ==>
      Arranged(order + tail, start, start, 0, hops, found)
  }

  lemma ContinuesFrom(start: set<string>, hops: nat, found: (nat, set<string>) -> set<string>)
    ensures Continues(start, [], start, start, 0, hops, found)
  {
    forall tail: seq<string> ensures [] + tail == tail {
    }
  }

  lemma ContinuesNext(start: set<string>, order: seq<string>, known: set<string>, seeds: set<string>, hop: nat,
                      hops: nat, found: (nat, set<string>) -> set<string>, more: seq<string>)
    requires Continues(start, order, known, seeds, hop, hops, found) && hop < hops && Distinct(more)
    requires var hits := if seeds == {} then {} else found(hop, seeds);
      Members(more) == hits - known && hits - known != {}
    ensures var hits := if seeds == {} then {} else found(hop, seeds);
      Continues(start, order + more, known + hits, hits - known, hop + 1, hops, found)
  {
    hide Arranged;
    var hits := if seeds == {} then {} else found(hop, seeds);
    forall tail | Arranged(tail, known + hits, hits - known, hop + 1, hops, found)
      ensures Arranged(order + more + tail, start, start, 0, hops, found)
    {
      ArrangedNext(more, tail, known, seeds, hop, hops, found);
      assert order + more + tail == order + (more + tail);
    }
    assert Members(order + more) == Members(order) + Members(more);
    DistinctAppend(order, more);
  }

  lemma ContinuesToEnd(start: set<string>, order: seq<string>, known: set<string>, seeds: set<string>, hop: nat,
                       hops: nat, found: (nat, set<string>) -> set<string>)
    requires Continues(start, order, known, seeds, hop, hops, found)
    requires hop >= hops || (if seeds == {} then {} else found(hop, seeds)) - known == {}
    ensures Arranged(order, start, start, 0, hops, found) && Distinct(order) && Members(order) !! start
  {
    hide Arranged;
    var hits := if hop >= hops || seeds == {} then {} else found(hop, seeds);
    assert forall m | m in hits :: m !in hits - known ==> m in known;
    ArrangedEnds(known, seeds, hop, hops, found);
    assert order + [] == order;
  }

  /** The multi-hop keyword path. `found` is what the keyword search returns for the related keywords
      of the seeds at each hop. `order` collects the ids in the order in which they are scored: each
      once, and none that the vector path had found. */
  method AddHops(path: map<string, real>, hops: nat, found: (nat, set<string>) -> set<string>)
    returns (after: map<string, real>, order: seq<string>)
    ensures Plus(path, order, after) && Distinct(order) && Members(order) !! path.Keys
    ensures Arranged(order, path.Keys, path.Keys, 0, hops, found)
  {
    hide Plus, Arranged, Continues, Distinct;
    after, order := path, [];
    var seeds, known, hop := path.Keys, path.Keys, 0;
    NothingAdded(path);
    ContinuesFrom(path.Keys, hops, found);
    while hop < hops
      invariant hop <= hops && Plus(path, order, after) && Continues(path.Keys, order, known, seeds, hop, hops, found)
      decreases hops - hop
    {
      var hits := if seeds == {} then {} else found(hop, seeds);
      var added := hits - known;
      if added == {} { break; }
      var more;
      after, more := AddHop(after, path, order, added, |order|);
      ContinuesNext(path.Keys, order, known, seeds, hop, hops, found, more);
      order := order + more;
      known := known + hits;
      seeds := added;
      hop := hop + 1;
    }
    ContinuesToEnd(path.Keys, order, known, seeds, hop, hops, found);
  }

  lemma DistinctAppend(a: seq<string>, b: seq<string>)
    requires Distinct(a) && Distinct(b) && Members(a) !! Members(b)
    ensures Distinct(a + b)
  {
    forall i, j | 0 <= i < |a| && 0 <= j < |b| ensures a[i] != b[j] {
      assert a[i] in Members(a) && b[j] in Members(b);
    }
  }

  /** The fused score of `m`. */
  function Fused(vec: seq<string>, keyword: seq<string>, fts: seq<string>, query: seq<string>, m: string): real {
    RankSum(vec, m) + RankSum(keyword, m) + RankSum(fts, m) + RankSum(query, m)
  }

  method Fuse(vec: seq<string>, hops: nat, found: (nat, set<string>) -> set<string>, fts: seq<string>,
              query: seq<string>)
    returns (path: map<string, real>, keyword: seq<string>)
    ensures Distinct(keyword) && Members(keyword) !! Members(vec)
    ensures Arranged(keyword, Members(vec), Members(vec), 0, hops, found)
    ensures path.Keys == Members(vec) + Members(keyword) + Members(fts) + Members(query)
    ensures forall m | m in path :: path[m] == Fused(vec, keyword, fts, query, m)
  {
    hide Plus, Arranged, Fused;
    var v := AddPath(map[], vec);
    var k;
    k, keyword := AddHops(v, hops, found);
    var f := AddPath(k, fts);
    path := AddPath(f, query);
    PlusKeys(map[], vec, v);
    PlusKeys(v, keyword, k);
    PlusKeys(k, fts, f);
    PlusKeys(f, query, path);
    assert v.Keys == Members(vec);
    forall m | m in path ensures path[m] == Fused(vec, keyword, fts, query, m) {
      FourPaths(vec, keyword, fts, query, v, k, f, path, m);
    }
  }

  lemma PlusKeys(path: map<string, real>, ids: seq<string>, after: map<string, real>)
    requires Plus(path, ids, after)
    ensures after.Keys == path.Keys + Members(ids)
  {
  }

  lemma FourPaths(vec: seq<string>, keyword: seq<string>, fts: seq<string>, query: seq<string>, v: map<string, real>,
                  k: map<string, real>, f: map<string, real>, path: map<string, real>, m: string)
    requires Plus(map[], vec, v) && Plus(v, keyword, k) && Plus(k, fts, f) && Plus(f, query, path)
    ensures Get(path, m) == Fused(vec, keyword, fts, query, m)
  {
    hide Plus, RankSum;
    NotYetScored(map[], vec, v, m);
    NotYetScored(v, keyword, k, m);
    NotYetScored(k, fts, f, m);
    NotYetScored(f, query, path, m);
  }

  lemma NotYetScored(path: map<string, real>, ids: seq<string>, after: map<string, real>, m: string)
    requires Plus(path, ids, after)
    ensures Get(after, m) == Get(path, m) + RankSum(ids, m)
  {
    if m !in after { RankSumElsewhere(ids, m); }
  }

  lemma {:induction false} RankSumPositive(ids: seq<string>, m: string)
    ensures if m in ids then RankSum(ids, m) > 0.0 else RankSum(ids, m) == 0.0
    decreases |ids|
  {
    if ids != [] {
      assert ids == ids[..|ids| - 1] + [ids[|ids| - 1]];
      RankSumPositive(ids[..|ids| - 1], m);
    }
  }

  lemma PathBound(ids: seq<string>, m: string)
    requires Distinct(ids)
    ensures if m in ids then 0.0 < RankSum(ids, m) <= 1.0 / 60.0 else RankSum(ids, m) == 0.0
  {
    if m in ids { RankSumOnce(ids, m); } else { RankSumElsewhere(ids, m); }
  }

  /** The paths other than the full-text one name an id once, and two of them exclude each other. */
  predicate PathsFit(vec: seq<string>, keyword: seq<string>, query: seq<string>) {
    Distinct(vec) && Distinct(keyword) && Distinct(query) && Members(keyword) !! Members(vec)
  }

  /** A fused score is positive, and with at most the weight of one full-text row it is at most 1/20. */
  lemma FusedBound(vec: seq<string>, keyword: seq<string>, fts: seq<string>, query: seq<string>, m: string)
    requires PathsFit(vec, keyword, query)
    ensures m in Members(vec) + Members(keyword) + Members(fts) + Members(query) ==>
      Fused(vec, keyword, fts, query, m) > 0.0
    ensures RankSum(fts, m) <= 1.0 / 60.0 ==> Fused(vec, keyword, fts, query, m) <= 1.0 / 20.0
  {
    PathBound(vec, m); PathBound(keyword, m); PathBound(query, m); RankSumPositive(fts, m);
    assert !(m in vec && m in keyword) by {
      assert m in vec ==> m in Members(vec);
      assert m in keyword ==> m in Members(keyword);
    }
  }

  /** The fused score of an id keeps within 1/20, whatever the other paths find, exactly if its full-text
      rows weigh no more than one in first place. Without a key on the full-text table they may. */
  lemma FusedBoundIff(fts: seq<string>, m: string)
    ensures (forall vec, keyword, query | PathsFit(vec, keyword, query) ::
               Fused(vec, keyword, fts, query, m) <= 1.0 / 20.0)
            <==> RankSum(fts, m) <= 1.0 / 60.0
  {
    if RankSum(fts, m) <= 1.0 / 60.0 {
      forall vec, keyword, query | PathsFit(vec, keyword, query)
        ensures Fused(vec, keyword, fts, query, m) <= 1.0 / 20.0
      {
        FusedBound(vec, keyword, fts, query, m);
      }
    } else {
      assert PathsFit([m], [], [m]);
      assert [m][..0] == [];
      assert RankSum([m], m) == 1.0 / 60.0;
      assert Fused([m], [], fts, [m], m) > 1.0 / 20.0;
    }
  }

  /** An id with its two full-text rows in front breaks the bound. */
  lemma TwoRowsBreakTheBound()
    ensures RankSum(["m", "m"], "m") > 1.0 / 60.0 && Fused(["m"], [], ["m", "m"], ["m"], "m") > 1.0 / 20.0
  {
    assert ["m"][..0] == [] && ["m", "m"][..1] == ["m"];
    assert RankSum(["m"], "m") == 1.0 / 60.0;
    assert RankSum(["m", "m"], "m") == 1.0 / 60.0 + 1.0 / 61.0;
  }

  // ----------------------------------------------------------------- blending

  function Dot(a: Vector, b: Vector): real
    requires |a| == |b|
    decreases |a|
  {
    if a == [] then 0.0 else a[0] * b[0] + Dot(a[1..], b[1..])
  }

  lemma {:induction false} DotSelf(a: Vector)
    ensures Dot(a, a) >= 0.0
    decreases |a|
  {
    if a != [] {
      DotSelf(a[1..]);
      assert a[0] * a[0] >= 0.0;
    }
  }

  lemma SquareOrder(t: real, s: real)
    requires s >= 0.0 && t * t <= s * s
    ensures t <= s
  {
    assert t * t == (t - s) * (t + s) + s * s;
    assert t - s > 0.0 && t + s > 0.0 ==> (t - s) * (t + s) > 0.0;
  }

  lemma SquareIsPositive(z: real)
    ensures z * z >= 0.0
  {
  }

  lemma Scale(c: real, a: real, b: real)
    requires c >= 0.0 && a <= b
    ensures c * a <= c * b
  {
  }

  predicate SquareAtMost(t: real, p: real, q: real) { t * t <= p * q }

  /** The step of the induction below: x, y are the first coordinates, `s` the product of the rest. */
  lemma CauchyStep(x: real, y: real, s: real, p: real, q: real, ab: real, aa: real, bb: real)
    requires p >= 0.0 && q >= 0.0 && SquareAtMost(s, p, q)
    requires ab == x * y + s && aa == x * x + p && bb == y * y + q
    ensures SquareAtMost(ab, aa, bb)
  {
    var u, w := x * x * q, y * y * p;
    assert u >= 0.0 && w >= 0.0;
    var t := 2.0 * (x * y) * s;
    assert t * t == 4.0 * ((x * y) * (x * y)) * (s * s);
    SquareIsPositive(x * y);
    Scale(4.0 * ((x * y) * (x * y)), s * s, p * q);
    assert 4.0 * ((x * y) * (x * y)) * (p * q) == 4.0 * (u * w);
    assert (u + w) * (u + w) - 4.0 * (u * w) == (u - w) * (u - w);
    SquareOrder(t, u + w);
    assert (x * x + p) * (y * y + q) == (x * y) * (x * y) + u + w + p * q;
    assert (x * y + s) * (x * y + s) == (x * y) * (x * y) + t + s * s;
  }

  lemma {:induction false} CauchySchwarz(a: Vector, b: Vector)
    requires |a| == |b|
    ensures SquareAtMost(Dot(a, b), Dot(a, a), Dot(b, b))
    decreases |a|
  {
    hide SquareAtMost;
    if a == [] {
      SquareOfZero();
    } else {
      CauchySchwarz(a[1..], b[1..]);
      DotSelf(a[1..]);
      DotSelf(b[1..]);
      var s, p, q := Dot(a[1..], b[1..]), Dot(a[1..], a[1..]), Dot(b[1..], b[1..]);
      CauchyStep(a[0], b[0], s, p, q, Dot(a, b), Dot(a, a), Dot(b, b));
    }
  }

  lemma SquareOfZero()
    ensures SquareAtMost(0.0, 0.0, 0.0)
  {
  }

  const EPSILON: real := 0.0000000001

  /** `norm` is the length of a vector. */
  ghost predicate IsNorm(norm: Vector -> real) {
    forall v :: norm(v) >= 0.0 && norm(v) * norm(v) == Dot(v, v)
  }

  function Similarity(norm: Vector -> real, a: Vector, b: Vector): real
    requires |a| == |b|
  {
    var bottom := norm(a) * norm(b) + EPSILON;
    if bottom == 0.0 then 0.0 else Dot(a, b) / bottom
  }

  lemma SimilarityBound(norm: Vector -> real, a: Vector, b: Vector)
    requires IsNorm(norm) && |a| == |b|
    ensures Similarity(norm, a, b) <= 1.0
  {
    var p := norm(a) * norm(b);
    CauchySchwarz(a, b);
    assert norm(a) * norm(a) == Dot(a, a) && norm(b) * norm(b) == Dot(b, b);
    assert p * p == Dot(a, a) * Dot(b, b) by {
      assert p * p == (norm(a) * norm(a)) * (norm(b) * norm(b));
    }
    assert p >= 0.0;
    SquareOrder(Dot(a, b), p);
    DivideAtMostOne(Dot(a, b), p + EPSILON);
  }

  lemma DivideAtMostOne(x: real, y: real)
    requires y > 0.0 && x <= y
    ensures x / y <= 1.0
  {
  }

  /** NumPy refuses to multiply vectors of different lengths. */
  predicate SameLength(row: Row, query: Option<Vector>) {
    query.Some? && row.embedding != [] ==> |query.value| == |row.embedding|
  }

  /** The score under which a memory is ranked: blended with the similarity if both vectors exist. */
  function Blend(norm: Vector -> real, fused: real, row: Row, query: Option<Vector>): real
    requires SameLength(row, query)
  {
    if query.Some? && row.embedding != [] then fused * 0.7 + Similarity(norm, query.value, row.embedding) * 0.3
      else fused
  }

  /** The dot product, coordinate by coordinate. */
  lemma {:induction false} DotLast(a: Vector, b: Vector, x: real, y: real)
    requires |a| == |b|
    ensures Dot(a + [x], b + [y]) == Dot(a, b) + x * y && Dot([], []) == 0.0
    decreases |a|
  {
    if a == [] {
      assert [x][1..] == [] && a + [x] == [x] && b + [y] == [y];
    } else {
      assert (a + [x])[1..] == a[1..] + [x] && (b + [y])[1..] == b[1..] + [y];
      DotLast(a[1..], b[1..], x, y);
    }
  }

  /** The similarity is the dot product in the measure of both lengths, which a small term keeps from zero. */
  lemma SimilarityTimesLengths(norm: Vector -> real, a: Vector, b: Vector)
    requires IsNorm(norm) && |a| == |b|
    ensures Similarity(norm, a, b) * (norm(a) * norm(b) + EPSILON) == Dot(a, b)
  {
    assert norm(a) >= 0.0 && norm(b) >= 0.0;
    assert norm(a) * norm(b) >= 0.0;
  }

  /** Seven parts of the fused score and three of the similarity: each ranks higher with more of the one and
      the same of the other, and a memory without a vector stands by its fused score alone. */
  lemma BlendWeighs(norm: Vector -> real, fused: real, other: real, row: Row, rival: Row, query: Vector)
    requires row.embedding != [] && rival.embedding != []
    requires |query| == |row.embedding| && |query| == |rival.embedding|
    ensures 10.0 * Blend(norm, fused, row, Some(query)) == 7.0 * fused + 3.0 * Similarity(norm, query, row.embedding)
    ensures Similarity(norm, query, row.embedding) > Similarity(norm, query, rival.embedding) ==>
      Blend(norm, fused, row, Some(query)) > Blend(norm, fused, rival, Some(query))
    ensures fused > other && row.embedding == rival.embedding ==>
      Blend(norm, fused, row, Some(query)) > Blend(norm, other, rival, Some(query))
    ensures Blend(norm, fused, row.(embedding := []), Some(query)) == fused && Blend(norm, fused, row, None) == fused
  {
  }

  lemma BlendBound(norm: Vector -> real, fused: real, row: Row, query: Option<Vector>)
    requires IsNorm(norm) && SameLength(row, query)
    ensures fused <= 1.0 / 20.0 ==> Blend(norm, fused, row, query) <= 0.335
  {
    if query.Some? && row.embedding != [] { SimilarityBound(norm, query.value, row.embedding); }
  }
}
