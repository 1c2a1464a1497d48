/** Retrieval from one tier, and the router over the tiers. */
module Retrieval {
  import opened Sets
  import opened Schema
  import opened TierStore
  import opened Fusion

  /** What the embedder and the engine return to one retrieval. */
  datatype Found = Found(
    vector: Option<Vector>,                         // the embedded query
    vec: seq<string>,                               // vector neighbours by distance
    related: (nat, set<string>) -> set<string>,     // keyword search per hop
    fts: seq<string>, query: seq<string>,           // full-text rows, keyword matches of the query
    recent: seq<string>)                            // the latest rows, for the fallback

  predicate Kept(row: Row, tag: Option<string>, session: Option<string>) {
    (tag.Some? ==> row.tag == tag.value) && (session.Some? ==> row.session == session.value || row.session == "")
  }

  // ------------------------------------------------------------------ ranking

  /** The `k` best of `scores`, best first. */
  predicate IsTop(scores: map<string, real>, k: nat, ids: seq<string>) {
    |ids| == Min(k, |scores|) && Distinct(ids) && (forall i | 0 <= i < |ids| :: ids[i] in scores)
    && (forall i, j | 0 <= i < j < |ids| :: scores[ids[i]] >= scores[ids[j]])
    && (forall i, m | 0 <= i < |ids| && m in scores && m !in ids :: scores[ids[i]] >= scores[m])
  }

  lemma {:induction false} BestExists(scores: map<string, real>, from: set<string>) returns (x: string)
    requires from <= scores.Keys && from != {}
    ensures x in from && forall y | y in from :: scores[x] >= scores[y]
    decreases |from|
  {
    x :| x in from;
    if from != {x} {
      var y := BestExists(scores, from - {x});
      if scores[y] > scores[x] { x := y; }
    }
  }

  method Top(scores: map<string, real>, k: nat) returns (ids: seq<string>)
    ensures IsTop(scores, k, ids)
  {
    ids := [];
    var left := scores.Keys;
    while |ids| < k && left != {}
      invariant left <= scores.Keys && |left| == |scores| - |ids| && |ids| <= k
      invariant forall m | m in scores :: m in left <==> m !in ids
      invariant Distinct(ids) && forall i | 0 <= i < |ids| :: ids[i] in scores
      invariant forall i, j | 0 <= i < j < |ids| :: scores[ids[i]] >= scores[ids[j]]
      invariant forall i, m | 0 <= i < |ids| && m in left :: scores[ids[i]] >= scores[m]
      decreases left
    {
      ghost var witnessed := BestExists(scores, left);
      var x :| x in left && forall y | y in left :: scores[x] >= scores[y];
      ids := ids + [x];
      left := left - {x};
    }
  }

  /** The vectors of `ids` have the length of the query's. */
  predicate Comparable(rows: map<string, Row>, ids: set<string>, vector: Option<Vector>) {
    forall id | id in ids && id in rows :: SameLength(rows[id], vector)
  }

  /** Results that a caller can rely on whichever way they were ranked. */
  predicate Sane(rows: map<string, Row>, k: nat, ids: seq<string>) {
    |ids| <= k && Distinct(ids) && forall i | 0 <= i < |ids| :: ids[i] in rows
  }

  /** The fused score is positive; it and the score under which a memory is ranked lie within their bounds
      if the full-text rows of the memory weigh no more than one in first place. */
  predicate Scored(norm: Vector -> real, rows: map<string, Row>, found: Found, path: map<string, real>, m: string,
                   score: real)
  {
    m in rows && m in path && SameLength(rows[m], found.vector) && score == Blend(norm, path[m], rows[m], found.vector)
    && InBound(found.fts, path[m], m)
    && (RankSum(found.fts, m) <= 1.0 / 60.0 ==> score <= 0.335)
  }

  predicate InBound(fts: seq<string>, fused: real, m: string) {
    fused > 0.0 && (RankSum(fts, m) <= 1.0 / 60.0 ==> fused <= 1.0 / 20.0)
  }

  lemma Contents(scores: map<string, real>, k: nat, ids: seq<string>, rows: map<string, Row>)
    requires IsTop(scores, k, ids) && scores.Keys <= rows.Keys
    ensures Sane(rows, k, ids)
  {
  }

  method BlendAll(norm: Vector -> real, rows: map<string, Row>, vector: Option<Vector>, path: map<string, real>)
    returns (scores: map<string, real>)
    requires Comparable(rows, path.Keys, vector)
    ensures scores.Keys == path.Keys * rows.Keys
    ensures forall m | m in scores :: scores[m] == Blend(norm, path[m], rows[m], vector)
  {
    scores := map[];
    var todo := path.Keys;
    while todo != {}
      invariant todo <= path.Keys && scores.Keys == (path.Keys - todo) * rows.Keys
      invariant forall m | m in scores :: scores[m] == Blend(norm, path[m], rows[m], vector)
      decreases todo
    {
      var m :| m in todo;
      if m in rows { scores := scores[m := Blend(norm, path[m], rows[m], vector)]; }
      todo := todo - {m};
    }
  }

  function Similarities(norm: Vector -> real, rows: map<string, Row>, ids: seq<string>,
                        vector: Vector): map<string, real>
    requires Comparable(rows, Members(ids), Some(vector))
  {
    assert forall m | m in ids :: m in Members(ids);
    map m | m in ids && m in rows && rows[m].embedding != [] :: Similarity(norm, vector, rows[m].embedding)
  }

  /** `_rank_by_embedding`: by similarity if anything can be compared, else in the order given. */
  method RankByEmbedding(norm: Vector -> real, rows: map<string, Row>, ids: seq<string>, vector: Option<Vector>, k: nat)
    returns (best: seq<string>)
    requires Distinct(ids) && (forall i | 0 <= i < |ids| :: ids[i] in rows)
    requires Comparable(rows, Members(ids), vector)
    ensures Sane(rows, k, best)
    ensures IsFallback(norm, rows, ids, vector, k, best)
  {
    if vector.None? { return ids[..Min(k, |ids|)]; }
    var scores := Similarities(norm, rows, ids, vector.value);
    if scores == map[] { return ids[..Min(k, |ids|)]; }
    best := Top(scores, k);
    Contents(scores, k, best, rows);
  }

  /** The engine returns only rows that exist as latest rows, and each id once, but for the full-text
      table, which has no key. */
  predicate FromEngine(rows: map<string, Row>, found: Found) {
    Distinct(found.vec) && Distinct(found.query) && Distinct(found.recent)
    && forall i | 0 <= i < |found.recent| :: found.recent[i] in rows
  }

  function Filtered(rows: map<string, Row>, path: map<string, real>, tag: Option<string>,
                    session: Option<string>): map<string, real> {
    if tag.None? && session.None? then path
    else map m | m in path && m in rows && Kept(rows[m], tag, session) :: path[m]
  }

  function Latest(rows: map<string, Row>, ids: seq<string>, tag: Option<string>, session: Option<string>): seq<string>
    decreases |ids|
  {
    if ids == [] then []
    else
      var n := |ids| - 1;
      Latest(rows, ids[..n], tag, session) + if ids[n] in rows && Kept(rows[ids[n]], tag, session) then [ids[n]] else []
  }

  lemma {:induction false} LatestIsSane(rows: map<string, Row>, ids: seq<string>, tag: Option<string>,
                                        session: Option<string>)
    requires Distinct(ids)
    ensures var kept := Latest(rows, ids, tag, session);
      Distinct(kept) && (forall i | 0 <= i < |kept| ::
                           kept[i] in rows && Kept(rows[kept[i]], tag, session) && kept[i] in ids)
    decreases |ids|
  {
    if ids != [] {
      LatestIsSane(rows, ids[..|ids| - 1], tag, session);
    }
  }

  /** The vector path runs on the hot tier only, and only with an embedded query. */
  function Neighbours(found: Found, tier: Option<Tier>): seq<string> {
    if found.vector.Some? && (tier.None? || tier.value == Hot) then found.vec else []
  }

  /** `path` is the fusion of the four paths, `keyword` the order in which the hops were scored. */
  predicate IsFusion(found: Found, tier: Option<Tier>, hops: nat, keyword: seq<string>, path: map<string, real>) {
    var vec := Neighbours(found, tier);
    Distinct(keyword) && Arranged(keyword, Members(vec), Members(vec), 0, hops, found.related)
    && path.Keys == Members(vec) + Members(keyword) + Members(found.fts) + Members(found.query)
    && forall m | m in path :: path[m] == Fused(vec, keyword, found.fts, found.query, m)
  }

  // ------------------------------------------------------- filters, told apart

  /** The memory has the tag that is asked for, if one is; and it belongs to the session that is asked for,
      if one is, or to none. */
  predicate Passes(row: Row, tag: Option<string>, session: Option<string>) {
    (tag == None || row.tag == tag.value) && (session == None || row.session == session.value || |row.session| == 0)
  }

  /** The filters keep the fused scores of the rows that pass; without filters ids without a row stay too. */
  lemma FilteredIff(rows: map<string, Row>, path: map<string, real>, tag: Option<string>, session: Option<string>,
                    m: string)
    ensures m in Filtered(rows, path, tag, session)
      <==> m in path && ((tag == None && session == None) || (m in rows && Passes(rows[m], tag, session)))
    ensures m in Filtered(rows, path, tag, session) ==> Filtered(rows, path, tag, session)[m] == path[m]
  {
  }

  /** The latest rows that pass, in the order given. */
  lemma {:induction false} LatestAppends(rows: map<string, Row>, ids: seq<string>, more: seq<string>,
                                         tag: Option<string>, session: Option<string>)
    ensures Latest(rows, ids + more, tag, session) == Latest(rows, ids, tag, session) + Latest(rows, more, tag, session)
    decreases |more|
  {
    hide Kept;
    if more == [] {
      assert ids + more == ids;
    } else {
      var n := |more| - 1;
      assert (ids + more)[..|ids| + n] == ids + more[..n] && (ids + more)[|ids| + n] == more[n];
      LatestAppends(rows, ids, more[..n], tag, session);
    }
  }

  lemma LatestOne(rows: map<string, Row>, id: string, tag: Option<string>, session: Option<string>)
    ensures Latest(rows, [id], tag, session) == if id in rows && Passes(rows[id], tag, session) then [id] else []
    ensures Latest(rows, [], tag, session) == []
  {
    assert [id][..0] == [];
  }

  /** The vector neighbours count with an embedded query, for the hot tier or for all of them. */
  lemma NeighboursIff(found: Found, tier: Option<Tier>, id: string)
    ensures id in Neighbours(found, tier)
      <==> id in found.vec && found.vector != None && (tier == None || tier == Some(Hot))
    ensures Neighbours(found, tier) != [] ==> Neighbours(found, tier) == found.vec
  {
  }

  /** Compared are the rows with a vector, each by its similarity to the query. */
  lemma SimilaritiesAre(norm: Vector -> real, rows: map<string, Row>, ids: seq<string>, vector: Vector, m: string)
    requires Comparable(rows, Members(ids), Some(vector))
    ensures m in Similarities(norm, rows, ids, vector) <==> m in ids && m in rows && |rows[m].embedding| > 0
    ensures m in Similarities(norm, rows, ids, vector) ==>
      |vector| == |rows[m].embedding|
        && Similarities(norm, rows, ids, vector)[m] == Similarity(norm, vector, rows[m].embedding)
  {
    assert m in ids ==> m in Members(ids);
  }

  /** Ranked are the fused rows that pass, and if there is none the latest rows that do. */
  lemma ComparedAre(rows: map<string, Row>, found: Found, path: map<string, real>, tag: Option<string>,
                    session: Option<string>, m: string)
    requires m in rows
    ensures (exists x :: x in path && x in rows && Passes(rows[x], tag, session)) ==>
      (m in Compared(rows, found, path, tag, session) <==> m in path && Passes(rows[m], tag, session))
    ensures path == map[] ==>
      (m in Compared(rows, found, path, tag, session) <==> m in found.recent && Passes(rows[m], tag, session))
  {
    FilteredIff(rows, path, tag, session, m);
    if x :| x in path && x in rows && Passes(rows[x], tag, session) { FilteredIff(rows, path, tag, session, x); }
    LatestMembers(rows, found.recent, tag, session, m);
  }

  lemma {:induction false} LatestMembers(rows: map<string, Row>, ids: seq<string>, tag: Option<string>,
                                         session: Option<string>, m: string)
    ensures m in Latest(rows, ids, tag, session) <==> m in ids && m in rows && Passes(rows[m], tag, session)
    decreases |ids|
  {
    if ids != [] {
      LatestMembers(rows, ids[..|ids| - 1], tag, session, m);
      assert ids == ids[..|ids| - 1] + [ids[|ids| - 1]];
    }
  }

  /** What an answer tells: its rows pass the filters; with a fused row that passes they are the best of
      those by score, and whatever passes and is left out scores no higher. */
  lemma AnswerTells(norm: Vector -> real, rows: map<string, Row>, found: Found, k: nat, tier: Option<Tier>, hops: nat,
                    tag: Option<string>, session: Option<string>, path: map<string, real>, keyword: seq<string>,
                    ids: seq<string>, scores: map<string, real>)
    requires Comparable(rows, Compared(rows, found, path, tag, session), found.vector)
    requires IsFusion(found, tier, hops, keyword, path)
      && IsAnswer(norm, rows, found, k, tag, session, path, ids, scores)
    ensures |ids| <= k && Distinct(ids)
    ensures forall i | 0 <= i < |ids| :: ids[i] in rows && Passes(rows[ids[i]], tag, session)
    ensures (exists m :: m in path && m in rows && Passes(rows[m], tag, session)) ==>
      (forall i | 0 <= i < |ids| :: ids[i] in path && ids[i] in scores)
      && (forall i, j | 0 <= i < j < |ids| :: scores[ids[i]] >= scores[ids[j]])
      && (forall m | m in path && m in rows && Passes(rows[m], tag, session) && m !in ids ::
            |ids| == k && m in scores && forall i | 0 <= i < |ids| :: scores[ids[i]] >= scores[m])
  {
    hide IsFallback, Scored, IsFusion;
    var kept := Filtered(rows, path, tag, session);
    forall m ensures m in kept
      <==> m in path && ((tag == None && session == None) || (m in rows && Passes(rows[m], tag, session)))
    {
      FilteredIff(rows, path, tag, session, m);
    }
    if m :| m in path && m in rows && Passes(rows[m], tag, session) {
      assert m in kept;
      if x :| x in scores && x !in ids { TopIsFull(scores, k, ids, x); }
    }
  }

  lemma TopIsFull(scores: map<string, real>, k: nat, ids: seq<string>, x: string)
    requires IsTop(scores, k, ids) && x in scores && x !in ids
    ensures |ids| == k
  {
    DistinctMembers(ids);
    SubsetSize(Members(ids), scores.Keys - {x});
    assert |scores.Keys - {x}| == |scores| - 1;
  }

  /** The answer of `_rank_by_embedding`. */
  predicate IsFallback(norm: Vector -> real, rows: map<string, Row>, ids: seq<string>, vector: Option<Vector>, k: nat,
                       best: seq<string>)
    requires Comparable(rows, Members(ids), vector)
  {
    if vector.Some? && Similarities(norm, rows, ids, vector.value) != map[]
    then IsTop(Similarities(norm, rows, ids, vector.value), k, best) else best == ids[..Min(k, |ids|)]
  }

  /** The rows whose vectors the ranking touches: the fused ones that pass the filters, or else the latest. */
  function Compared(rows: map<string, Row>, found: Found, path: map<string, real>, tag: Option<string>,
                    session: Option<string>): set<string> {
    var kept := Filtered(rows, path, tag, session);
    if kept != map[] then kept.Keys else Members(Latest(rows, found.recent, tag, session))
  }

  /** What a retrieval that does not fail answers. */
  predicate IsAnswer(norm: Vector -> real, rows: map<string, Row>, found: Found, k: nat, tag: Option<string>,
                     session: Option<string>, path: map<string, real>, ids: seq<string>, scores: map<string, real>)
    requires Comparable(rows, Compared(rows, found, path, tag, session), found.vector)
  {
    var kept := Filtered(rows, path, tag, session);
    Sane(rows, k, ids) && (forall i | 0 <= i < |ids| :: Kept(rows[ids[i]], tag, session))
    && scores.Keys == kept.Keys * rows.Keys && (forall m | m in scores :: Scored(norm, rows, found, path, m, scores[m]))
    && if kept != map[] then IsTop(scores, k, ids)
       else IsFallback(norm, rows, Latest(rows, found.recent, tag, session), found.vector, k, ids)
  }

  /** `retrieve_relevant`. It fails exactly if a row that it ranks has a vector of another length than the
      query. If any fused row passes the filters it returns the `k` best of the fused and blended scores,
      best first, each within its bound unless its memory has several full-text rows. Else it ranks the
      latest rows that pass the filters. */
  method RetrieveRelevant(norm: Vector -> real, rows: map<string, Row>, found: Found, k: nat, hops: nat,
                          tier: Option<Tier>, tag: Option<string>, session: Option<string>)
    returns (ok: bool, ids: seq<string>, scores: map<string, real>, path: map<string, real>, keyword: seq<string>)
    requires IsNorm(norm) && FromEngine(rows, found)
    ensures IsFusion(found, tier, hops, keyword, path)
    ensures ok <==> Comparable(rows, Compared(rows, found, path, tag, session), found.vector)
    ensures ok ==> IsAnswer(norm, rows, found, k, tag, session, path, ids, scores)
  {
    hide IsNorm, Fused, Arranged, IsAnswer, Compared, Comparable;
    var vec := Neighbours(found, tier);
    path, keyword := Fuse(vec, hops, found.related, found.fts, found.query);
    forall m | m in path ensures InBound(found.fts, path[m], m) {
      FusedBound(vec, keyword, found.fts, found.query, m);
    }
    ok := Comparable(rows, Compared(rows, found, path, tag, session), found.vector);
    ids, scores := [], map[];
    if ok { ids, scores := RankKept(norm, rows, found, k, tag, session, path); }
  }

  /** The second half of `retrieve_relevant`: filtering, blending and ranking. */
  method RankKept(norm: Vector -> real, rows: map<string, Row>, found: Found, k: nat, tag: Option<string>,
                  session: Option<string>, path: map<string, real>)
    returns (ids: seq<string>, scores: map<string, real>)
    requires IsNorm(norm) && FromEngine(rows, found)
      && Comparable(rows, Compared(rows, found, path, tag, session), found.vector)
    requires forall m | m in path :: InBound(found.fts, path[m], m)
    ensures IsAnswer(norm, rows, found, k, tag, session, path, ids, scores)
  {
    hide IsNorm, Similarity, IsFallback;
    var kept := Filtered(rows, path, tag, session);
    if kept == map[] {
      scores := map[];
      var latest := Latest(rows, found.recent, tag, session);
      LatestIsSane(rows, found.recent, tag, session);
      ids := RankByEmbedding(norm, rows, latest, found.vector, k);
      FallbackKept(norm, rows, latest, found.vector, k, ids);
      return;
    }
    scores := BlendAll(norm, rows, found.vector, kept);
    forall m | m in scores ensures Scored(norm, rows, found, path, m, scores[m]) && Kept(rows[m], tag, session) {
      BlendBound(norm, path[m], rows[m], found.vector);
    }
    ids := Top(scores, k);
    Contents(scores, k, ids, rows);
  }

  lemma FallbackKept(norm: Vector -> real, rows: map<string, Row>, ids: seq<string>, vector: Option<Vector>, k: nat,
                     best: seq<string>)
    requires Comparable(rows, Members(ids), vector) && IsFallback(norm, rows, ids, vector, k, best)
    ensures forall i | 0 <= i < |best| :: best[i] in ids
  {
  }
}
