/** The hot, warm and cold tiers of the personal store and its vector index. */
module TierStore {
  import opened Sets
  import opened Order
  import opened Schema

  type Vector = seq<real>

  datatype Tier = Hot | Warm | Cold | Other(name: string)

  /** Times are microseconds; an empty embedding stands for a missing one too. */
  datatype Row = Row(content: string, timestamp: int, embedding: Vector, access: nat, session: string, tag: string,
                     tier: Tier, lastAccessed: Option<int>, lastDemoted: Option<int>)

  const HOT_CAPACITY: nat := 500
  const WARM_CAPACITY: nat := 5000
  const PROMOTION_THRESHOLD: nat := 3
  const DAY: int := 24 * 3600 * 1_000_000

  function InTier(rows: map<string, Row>, tier: Tier): set<string> {
    set id | id in rows && rows[id].tier == tier
  }

  /** The vector index holds the embedding of every hot row that has one, and nothing else. */
  predicate Exact(rows: map<string, Row>, vec: map<string, Vector>) {
    (forall id | id in vec ::
       id in rows && rows[id].tier == Hot && rows[id].embedding != [] && vec[id] == rows[id].embedding)
    && (forall id | id in rows && rows[id].tier == Hot && rows[id].embedding != [] :: id in vec)
  }

  /** The keyword rows, and the full-text rows by id: that table has no key. */
  datatype Texts = Texts(words: set<Keyword>, fts: map<string, multiset<string>>)

  /** Every row has exactly the keywords that `index` finds in its content. */
  predicate WordsExact(index: string -> set<string>, rows: map<string, Row>, words: set<Keyword>) {
    (forall w | w in words :: w.memory in rows && w.keyword in index(rows[w.memory].content))
    && forall id, w | id in rows && w in index(rows[id].content) :: Keyword(w, id) in words
  }

  /** Every row has one full-text row, with its content. */
  predicate FtsExact(rows: map<string, Row>, fts: map<string, multiset<string>>) {
    fts.Keys == rows.Keys && forall id | id in rows :: fts[id] == multiset{rows[id].content}
  }

  predicate TextExact(index: string -> set<string>, rows: map<string, Row>, texts: Texts) {
    WordsExact(index, rows, texts.words) && FtsExact(rows, texts.fts)
  }

  /** INSERT OR REPLACE: keyword rows have a key to be replaced by, full-text rows have none. */
  function WithText(index: string -> set<string>, texts: Texts, id: string, content: string): Texts {
    Texts(MoreWords(index, texts.words, id, content), MoreFts(texts.fts, id, content))
  }

  function WithoutTexts(texts: Texts, gone: set<string>): Texts {
    Texts(FewerWords(texts.words, gone), texts.fts - gone)
  }

  /** Adding a row keeps the texts exact, and deleting `gone` afterwards, unless the id was there before and
      is there still: then it has two full-text rows. */
  lemma InsertKeepsTextIff(index: string -> set<string>, before: map<string, Row>, texts: Texts, id: string, row: Row,
                           after: map<string, Row>)
    requires TextExact(index, before, texts) && SameContents(before[id := row], after)
    ensures TextExact(index, after,
                      WithoutTexts(WithText(index, texts, id, row.content), before[id := row].Keys - after.Keys))
      <==> (id !in before || id !in after)
  {
    hide WordsExact, FtsExact, SameContents;
    KeptContents(before[id := row], after);
    if id in before && id in after {
      TwoRowsStay(before, texts.fts, id, row, after);
    } else {
      KeptWords(index, before, texts.words, id, row, after);
      KeptFts(before, texts.fts, id, row, after);
    }
  }

  function MoreFts(fts: map<string, multiset<string>>, id: string, content: string): map<string, multiset<string>> {
    fts[id := (if id in fts then fts[id] else multiset{}) + multiset{content}]
  }

  function MoreWords(index: string -> set<string>, words: set<Keyword>, id: string, content: string): set<Keyword> {
    words + set w | w in index(content) :: Keyword(w, id)
  }

  function FewerWords(words: set<Keyword>, gone: set<string>): set<Keyword> {
    set w | w in words && w.memory !in gone
  }

  lemma KeptContents(before: map<string, Row>, after: map<string, Row>)
    requires SameContents(before, after)
    ensures after.Keys <= before.Keys && forall id | id in after :: after[id].content == before[id].content
  {
  }

  lemma TwoRowsStay(before: map<string, Row>, fts: map<string, multiset<string>>, id: string, row: Row,
                    after: map<string, Row>)
    requires FtsExact(before, fts) && id in before && id in after
    ensures !FtsExact(after, MoreFts(fts, id, row.content) - (before[id := row].Keys - after.Keys))
  {
    var left := MoreFts(fts, id, row.content) - (before[id := row].Keys - after.Keys);
    assert left[id] == multiset{before[id].content} + multiset{row.content};
    assert |left[id]| == 2;
  }

  lemma KeptFts(before: map<string, Row>, fts: map<string, multiset<string>>, id: string, row: Row,
                after: map<string, Row>)
    requires FtsExact(before, fts) && (id !in before || id !in after) && after.Keys <= before[id := row].Keys
    requires forall x | x in after :: after[x].content == before[id := row][x].content
    ensures FtsExact(after, MoreFts(fts, id, row.content) - (before[id := row].Keys - after.Keys))
  {
    var more, gone := MoreFts(fts, id, row.content), before[id := row].Keys - after.Keys;
    assert more.Keys == before[id := row].Keys;
    assert (more - gone).Keys == after.Keys;
    forall x | x in after ensures (more - gone)[x] == multiset{after[x].content} {
      assert x != id ==> x in before;
    }
  }

  lemma KeptWords(index: string -> set<string>, before: map<string, Row>, words: set<Keyword>, id: string, row: Row,
                  after: map<string, Row>)
    requires WordsExact(index, before, words) && (id !in before || id !in after) && after.Keys <= before[id := row].Keys
    requires forall x | x in after :: after[x].content == before[id := row][x].content
    ensures WordsExact(index, after,
                       FewerWords(MoreWords(index, words, id, row.content), before[id := row].Keys - after.Keys))
  {
    var left := FewerWords(MoreWords(index, words, id, row.content), before[id := row].Keys - after.Keys);
    forall w | w in left ensures w.memory in after && w.keyword in index(after[w.memory].content) {
      assert w.memory != id ==> w in words;
    }
    forall x, w | x in after && w in index(after[x].content) ensures Keyword(w, x) in left {
      assert x != id ==> x in before && Keyword(w, x) in words;
    }
  }

  lemma GoneOneMore(texts: Texts, gone: set<string>, id: string)
    ensures WithoutTexts(WithoutTexts(texts, gone), {id}) == WithoutTexts(texts, gone + {id})
    ensures WithoutTexts(texts, {}) == texts
  {
  }

  lemma DeleteKeepsText(index: string -> set<string>, rows: map<string, Row>, texts: Texts, id: string)
    requires TextExact(index, rows, texts)
    ensures TextExact(index, rows - {id}, WithoutTexts(texts, {id}))
  {
  }

  /** A row not demoted within the last 24 hours. */
  predicate Cooled(row: Row, now: int) {
    row.lastDemoted.Some? ==> now - row.lastDemoted.value >= DAY
  }

  // ---------------------------------------------------------------- selection

  predicate Lower(a: Row, b: Row) {
    a.access < b.access || (a.access == b.access && a.timestamp < b.timestamp)
  }

  /** ORDER BY access_count, timestamp, both ASC if `up` and both DESC if not. */
  predicate Precedes(a: Row, b: Row, up: bool) {
    if up then Lower(a, b) else Lower(b, a)
  }

  function Min(a: nat, b: nat): nat { if a <= b then a else b }

  /** A possible answer of SELECT id FROM `from` ORDER BY ... LIMIT `n`; ties are up to the engine. */
  ghost predicate IsPage(rows: map<string, Row>, from: set<string>, n: nat, up: bool, ids: seq<string>)
    requires from <= rows.Keys
  {
    |ids| == Min(n, |from|) && (forall i | 0 <= i < |ids| :: ids[i] in from)
    && (forall i, j | 0 <= i < j < |ids| :: ids[i] != ids[j] && !Precedes(rows[ids[j]], rows[ids[i]], up))
    && (forall i, y | 0 <= i < |ids| && y in from && y !in ids :: !Precedes(rows[y], rows[ids[i]], up))
  }

  lemma {:induction false} FirstExists(rows: map<string, Row>, from: set<string>, up: bool) returns (x: string)
    requires from <= rows.Keys && from != {}
    ensures x in from && forall y | y in from :: !Precedes(rows[y], rows[x], up)
    decreases |from|
  {
    x :| x in from;
    if from != {x} {
      var y := FirstExists(rows, from - {x}, up);
      if Precedes(rows[y], rows[x], up) { x := y; }
    }
  }

  method Select(rows: map<string, Row>, from: set<string>, n: nat, up: bool) returns (ids: seq<string>)
    requires from <= rows.Keys
    ensures IsPage(rows, from, n, up, ids)
  {
    ids := [];
    var left := from;
    while |ids| < n && left != {}
      invariant left <= from && |left| == |from| - |ids| && |ids| <= n
      invariant forall y | y in from :: y in left <==> y !in ids
      invariant forall i | 0 <= i < |ids| :: ids[i] in from
      invariant forall i, j | 0 <= i < j < |ids| :: ids[i] != ids[j] && !Precedes(rows[ids[j]], rows[ids[i]], up)
      invariant forall i, y | 0 <= i < |ids| && y in left :: !Precedes(rows[y], rows[ids[i]], up)
      decreases left
    {
      ghost var witnessed := FirstExists(rows, left, up);
      var x :| x in left && forall y | y in left :: !Precedes(rows[y], rows[x], up);
      ids := ids + [x];
      left := left - {x};
    }
  }

  // -------------------------------------------------------------- single moves

  /** What promotion makes of a row, or None if the embedder has no vector for it. */
  function Lifted(embed: string -> Option<Vector>, row: Row, target: Tier): Option<Row> {
    if row.tier == target then Some(row)
    else if target == Hot && row.embedding == [] then
      match embed(row.content) case None => None case Some(v) => Some(row.(embedding := v, tier := Hot))
    else Some(row.(tier := target))
  }

  function Lowered(row: Row, target: Tier, now: int): Row {
    row.(tier := target, lastDemoted := Some(now))
  }

  function LiftedVec(vec: map<string, Vector>, id: string, row: Row, lifted: Row): map<string, Vector> {
    if row.tier == lifted.tier then vec
    else if lifted.tier == Hot then (if lifted.embedding == [] then vec else vec[id := lifted.embedding])
    else if lifted.tier == Warm && row.tier == Hot then vec - {id}
    else vec
  }

  function LoweredVec(vec: map<string, Vector>, id: string, row: Row, target: Tier): map<string, Vector> {
    if (target == Cold || target == Warm) && row.tier == Hot then vec - {id} else vec
  }

  lemma MoveKeepsExactIff(rows: map<string, Row>, vec: map<string, Vector>, id: string, row: Row,
                          after: map<string, Vector>)
    requires Exact(rows, vec) && id in rows && after - {id} == vec - {id}
    ensures Exact(rows[id := row], after) <==>
      if row.tier == Hot && row.embedding != [] then id in after && after[id] == row.embedding else id !in after
  {
    forall x | x != id ensures x in after <==> x in vec
      ensures x in vec ==> after[x] == vec[x]
    {
      assert x in after <==> x in after - {id};
      assert x in vec <==> x in vec - {id};
      assert x in vec ==> after[x] == (after - {id})[x];
    }
  }

  /** Promotion keeps the index exact, but for a row that leaves the hot tier for an odd one. */
  lemma PromoteKeepsExactIff(embed: string -> Option<Vector>, rows: map<string, Row>, vec: map<string, Vector>,
                             id: string, target: Tier)
    requires Exact(rows, vec) && id in rows && Lifted(embed, rows[id], target).Some?
    ensures var lifted := Lifted(embed, rows[id], target).value;
      Exact(rows[id := lifted], LiftedVec(vec, id, rows[id], lifted)) <==>
        !(rows[id].tier == Hot && rows[id].embedding != [] && target != Hot && target != Warm)
  {
    var lifted := Lifted(embed, rows[id], target).value;
    MoveKeepsExactIff(rows, vec, id, lifted, LiftedVec(vec, id, rows[id], lifted));
  }

  /** Demotion keeps the index exact, but for a row with an embedding that goes to an odd tier from
      the hot one, or to the hot tier from another. */
  lemma DemoteKeepsExactIff(rows: map<string, Row>, vec: map<string, Vector>, id: string, target: Tier, now: int)
    requires Exact(rows, vec) && id in rows
    ensures Exact(rows[id := Lowered(rows[id], target, now)], LoweredVec(vec, id, rows[id], target)) <==>
      (target == Cold || target == Warm || rows[id].embedding == [] || (rows[id].tier == Hot <==> target == Hot))
  {
    MoveKeepsExactIff(rows, vec, id, Lowered(rows[id], target, now), LoweredVec(vec, id, rows[id], target));
  }

  /** Adding a row keeps the index exact, but for an id that is indexed already and comes without a hot embedding. */
  lemma InsertKeepsExactIff(rows: map<string, Row>, vec: map<string, Vector>, id: string, row: Row)
    requires Exact(rows, vec)
    ensures Exact(rows[id := row], if row.tier == Hot && row.embedding != [] then vec[id := row.embedding] else vec)
      <==> (id in vec ==> row.tier == Hot && row.embedding != [])
  {
    var after := if row.tier == Hot && row.embedding != [] then vec[id := row.embedding] else vec;
    if id in rows {
      MoveKeepsExactIff(rows, vec, id, row, after);
    }
  }

  lemma DeleteKeepsExact(rows: map<string, Row>, vec: map<string, Vector>, id: string)
    requires Exact(rows, vec)
    ensures Exact(rows - {id}, vec - {id})
  {
  }

  // --------------------------------------------------------------- whole sets

  function LowerAll(rows: map<string, Row>, ids: set<string>, target: Tier, at: string -> int): map<string, Row> {
    map id | id in rows :: if id in ids then Lowered(rows[id], target, at(id)) else rows[id]
  }

  lemma LowerOneMore(rows: map<string, Row>, ids: set<string>, id: string, target: Tier, at: string -> int)
    requires id in rows && id !in ids
    ensures LowerAll(rows, ids + {id}, target, at)
      == LowerAll(rows, ids, target, at)[id := Lowered(rows[id], target, at(id))]
  {
  }

  lemma LoweredTier(rows: map<string, Row>, ids: set<string>, at: string -> int)
    requires ids <= InTier(rows, Hot)
    ensures InTier(LowerAll(rows, ids, Warm, at), Hot) == InTier(rows, Hot) - ids
  {
  }

  /** The victims are exactly the excess of the hot tier, none of them above any row that stays. */
  predicate Victims(rows: map<string, Row>, victims: set<string>) {
    victims <= InTier(rows, Hot)
    && |victims| == (if |InTier(rows, Hot)| <= HOT_CAPACITY then 0 else |InTier(rows, Hot)| - HOT_CAPACITY)
    && forall v, h | v in victims && h in InTier(rows, Hot) && h !in victims :: !Lower(rows[h], rows[v])
  }

  function LiftRow(embed: string -> Option<Vector>, row: Row, target: Tier): Row {
    match Lifted(embed, row, target) case None => row case Some(lifted) => lifted
  }

  function LiftAll(embed: string -> Option<Vector>, rows: map<string, Row>, ids: set<string>,
                   target: Tier): map<string, Row> {
    map id | id in rows :: if id in ids then LiftRow(embed, rows[id], target) else rows[id]
  }

  lemma LiftOneMore(embed: string -> Option<Vector>, rows: map<string, Row>, ids: set<string>, id: string, target: Tier)
    requires id in rows && id !in ids
    ensures LiftAll(embed, rows, ids + {id}, target)
      == LiftAll(embed, rows, ids, target)[id := LiftRow(embed, rows[id], target)]
  {
  }

  lemma LiftedTier(embed: string -> Option<Vector>, rows: map<string, Row>, ids: set<string>)
    requires ids <= rows.Keys && forall id | id in ids :: Lifted(embed, rows[id], Hot).Some?
    ensures InTier(LiftAll(embed, rows, ids, Hot), Hot) == InTier(rows, Hot) + ids
  {
  }

  /** What replenishing promotes of the rows that it picked. */
  function Promotable(embed: string -> Option<Vector>, rows: map<string, Row>, picked: seq<string>,
                      now: int): set<string> {
    set id | id in picked && Ready(embed, rows, id, now)
  }

  predicate Ready(embed: string -> Option<Vector>, rows: map<string, Row>, id: string, now: int) {
    id in rows && Cooled(rows[id], now) && Lifted(embed, rows[id], Hot).Some?
  }

  lemma PromotableOneMore(embed: string -> Option<Vector>, rows: map<string, Row>, ids: seq<string>, n: nat, now: int)
    requires n < |ids| && Distinct(ids)
    ensures var before := Promotable(embed, rows, ids[..n], now);
      ids[n] !in before
      && Promotable(embed, rows, ids[..n + 1], now)
        == if Ready(embed, rows, ids[n], now) then before + {ids[n]} else before
  {
    assert ids[..n + 1] == ids[..n] + [ids[n]];
  }

  /** One turn of the loop over the picked rows. */
  lemma PromoteTurn(embed: string -> Option<Vector>, rows: map<string, Row>, ids: seq<string>, n: nat, now: int)
    requires n < |ids| && Distinct(ids) && ids[n] in rows
    ensures var done := Promotable(embed, rows, ids[..n], now); var next := Promotable(embed, rows, ids[..n + 1], now);
      var current := LiftAll(embed, rows, done, Hot); var ready := Ready(embed, rows, ids[n], now);
      ids[n] in current && current[ids[n]] == rows[ids[n]] && (Ready(embed, current, ids[n], now) <==> ready)
      && LiftAll(embed, rows, next, Hot)
        == (if ready then current[ids[n] := LiftRow(embed, rows[ids[n]], Hot)] else current)
      && |next| == |done| + if ready then 1 else 0
  {
    PromotableOneMore(embed, rows, ids, n, now);
    LiftOneMore(embed, rows, Promotable(embed, rows, ids[..n], now), ids[n], Hot);
  }

  function Eager(rows: map<string, Row>): set<string> {
    set id | id in rows && rows[id].tier == Warm && rows[id].access >= PROMOTION_THRESHOLD
  }

  // ----------------------------------------------------------------- eviction

  function Days(row: Row, now: int): int { (now - row.timestamp) / DAY }

  /** `decay` is the power of 0.7 by which a score shrinks with the age in days. */
  function Score(decay: int -> real, row: Row, now: int): real {
    (row.access + 1) as real * decay(Days(row, now))
  }

  function Power(p: real, n: nat): real {
    if n == 0 then 1.0 else p * Power(p, n - 1)
  }

  /** `decay` is the power of 0.7 per 30 days: the power of a daily factor that makes 0.7 of 30 days. */
  ghost predicate IsDecay(decay: int -> real) {
    exists p :: 0.0 < p && Power(p, 30) == 0.7 && forall d: nat :: decay(d) == Power(p, d)
  }

  lemma {:induction false} PowerFalls(p: real, n: nat)
    requires 0.0 < p < 1.0
    ensures 0.0 < Power(p, n + 1) < Power(p, n) <= 1.0
  {
    if n > 0 { PowerFalls(p, n - 1); }
  }

  lemma {:induction false} PowerKeepsUp(p: real, n: nat)
    requires p >= 1.0
    ensures Power(p, n) >= 1.0
  {
    if n > 0 { PowerKeepsUp(p, n - 1); }
  }

  lemma {:induction false} PowerOrder(p: real, m: nat, n: nat)
    requires 0.0 < p < 1.0 && m <= n
    ensures Power(p, n) <= Power(p, m)
    decreases n
  {
    if m < n {
      PowerOrder(p, m, n - 1);
      PowerFalls(p, n - 1);
    }
  }

  lemma {:induction false} PowerAdds(p: real, m: nat, n: nat)
    ensures Power(p, m + n) == Power(p, m) * Power(p, n)
    decreases m
  {
    if m > 0 { PowerAdds(p, m - 1, n); }
  }

  /** Warm and cold rows may go, warm ones only after 30 days. */
  predicate Evictable(row: Row, now: int) {
    row.tier == Cold || (row.tier == Warm && Days(row, now) >= 30)
  }

  /** The lower score first, and equal scores by id. */
  predicate Cheaper(decay: int -> real, rows: map<string, Row>, now: int, a: string, b: string)
    requires a in rows && b in rows
  {
    Score(decay, rows[a], now) < Score(decay, rows[b], now)
    || (Score(decay, rows[a], now) == Score(decay, rows[b], now) && Less(a, b))
  }

  ghost predicate Ranked(decay: int -> real, rows: map<string, Row>, from: set<string>, now: int, ids: seq<string>)
    requires from <= rows.Keys
  {
    |ids| == |from| && (forall i | 0 <= i < |ids| :: ids[i] in from)
    && (forall i, j | 0 <= i < j < |ids| :: Cheaper(decay, rows, now, ids[i], ids[j]))
  }

  lemma CheaperIsOrder(decay: int -> real, rows: map<string, Row>, now: int, a: string, b: string)
    requires a in rows && b in rows
    ensures !(Cheaper(decay, rows, now, a, b) && Cheaper(decay, rows, now, b, a))
    ensures a != b ==> Cheaper(decay, rows, now, a, b) || Cheaper(decay, rows, now, b, a)
  {
    LessIsTotal(a, b);
  }

  lemma CheaperIsTransitive(decay: int -> real, rows: map<string, Row>, now: int, a: string, b: string, c: string)
    requires a in rows && b in rows && c in rows && Cheaper(decay, rows, now, a, b) && Cheaper(decay, rows, now, b, c)
    ensures Cheaper(decay, rows, now, a, c)
  {
    hide Score;
    if Less(a, b) && Less(b, c) { LessIsTransitive(a, b, c); }
  }

  lemma {:induction false} CheapestExists(decay: int -> real, rows: map<string, Row>, from: set<string>, now: int)
    returns (x: string)
    requires from <= rows.Keys && from != {}
    ensures x in from && forall y | y in from :: y == x || Cheaper(decay, rows, now, x, y)
    decreases |from|
  {
    hide Cheaper;
    x :| x in from;
    if from != {x} {
      var y := CheapestExists(decay, rows, from - {x}, now);
      CheaperIsOrder(decay, rows, now, x, y);
      if Cheaper(decay, rows, now, x, y) {
        forall z | z in from - {x} && z != y ensures Cheaper(decay, rows, now, x, z) {
          CheaperIsTransitive(decay, rows, now, x, y, z);
        }
      } else {
        x := y;
      }
    }
  }

  /** There is one ranking: which rows eviction takes depends on the rows and the clock alone. */
  lemma {:induction false} RankingIsUnique(decay: int -> real, rows: map<string, Row>, from: set<string>, now: int,
                                           a: seq<string>, b: seq<string>)
    requires from <= rows.Keys && Ranked(decay, rows, from, now, a) && Ranked(decay, rows, from, now, b)
    ensures a == b
    decreases |a|
  {
    hide Cheaper;
    if a != [] {
      RankedMembers(decay, rows, from, now, a);
      RankedMembers(decay, rows, from, now, b);
      assert b[0] in Members(a) && a[0] in Members(b);
      if a[0] != b[0] {
        CheaperIsOrder(decay, rows, now, a[0], b[0]);
        assert false;
      }
      RankedRest(decay, rows, from, now, a);
      RankedRest(decay, rows, from, now, b);
      RankingIsUnique(decay, rows, from - {a[0]}, now, a[1..], b[1..]);
    }
  }

  lemma RankedRest(decay: int -> real, rows: map<string, Row>, from: set<string>, now: int, ids: seq<string>)
    requires from <= rows.Keys && Ranked(decay, rows, from, now, ids) && ids != []
    ensures Ranked(decay, rows, from - {ids[0]}, now, ids[1..])
  {
    hide Cheaper;
    forall i | 0 < i < |ids| ensures ids[i] != ids[0] {
      CheaperIsOrder(decay, rows, now, ids[0], ids[i]);
    }
  }

  method Rank(decay: int -> real, rows: map<string, Row>, from: set<string>, now: int) returns (ids: seq<string>)
    requires from <= rows.Keys
    ensures Ranked(decay, rows, from, now, ids)
  {
    hide Cheaper;
    ids := [];
    var left := from;
    while left != {}
      invariant left <= from && |left| == |from| - |ids|
      invariant forall i | 0 <= i < |ids| :: ids[i] in from && ids[i] !in left
      invariant forall i, j | 0 <= i < j < |ids| :: Cheaper(decay, rows, now, ids[i], ids[j])
      invariant forall i, y | 0 <= i < |ids| && y in left :: Cheaper(decay, rows, now, ids[i], y)
      decreases left
    {
      ghost var witnessed := CheapestExists(decay, rows, left, now);
      var x :| x in left && forall y | y in left :: y == x || Cheaper(decay, rows, now, x, y);
      ids := ids + [x];
      left := left - {x};
    }
  }

  /** The first half of `rows` that the collector looks at: warm and cold, least accessed and oldest first. */
  function Outer(rows: map<string, Row>): set<string> { InTier(rows, Warm) + InTier(rows, Cold) }

  const SCAN: nat := 200
  const KEEP: nat := 3000

  function Candidates(rows: map<string, Row>, page: seq<string>, now: int): set<string> {
    set id | id in page && id in rows && Evictable(rows[id], now)
  }

  /** How many of the ranked candidates are up for eviction. The surplus over KEEP is subtracted from
      them rather than imposed, so the larger the store the fewer rows it loses. */
  function Share(candidates: nat, size: nat): (share: nat)
    ensures share <= candidates
  {
    var surplus := if size > KEEP then size - KEEP else 0;
    if candidates > surplus then candidates - surplus else 0
  }

  function Doomed(decay: int -> real, rows: map<string, Row>, ids: seq<string>, now: int): set<string> {
    set id | id in ids && id in rows && Score(decay, rows[id], now) < 0.5
  }

  lemma DoomedOneMore(decay: int -> real, rows: map<string, Row>, ids: seq<string>, n: nat, now: int)
    requires n < |ids| && Distinct(ids) && ids[n] in rows
    ensures var before := Doomed(decay, rows, ids[..n], now);
      ids[n] !in before
      && Doomed(decay, rows, ids[..n + 1], now)
         == if Score(decay, rows[ids[n]], now) < 0.5 then before + {ids[n]} else before
  {
    assert ids[..n + 1] == ids[..n] + [ids[n]];
  }

  lemma DropOneMore<V>(rows: map<string, V>, gone: set<string>, id: string)
    ensures rows - (gone + {id}) == (rows - gone) - {id}
  {
  }

  // --------------------------------------------------------------- the object

  /** The history of a store: what was inserted with which time of demotion, what was demoted when, and
      which promotions the store or the router decided on. */
  datatype Entry =
    | Inserted(id: string, lastDemoted: Option<int>)
    | Demoted(id: string, at: int)
    | Promoted(id: string, at: int)

  /** When the row was last demoted, told from the history alone. */
  function LastDemoted(history: seq<Entry>, id: string): Option<int> {
    if history == [] then None
    else
      var n := |history| - 1;
      if history[n].id == id && history[n].Demoted? then Some(history[n].at)
      else if history[n].id == id && history[n].Inserted? then history[n].lastDemoted
      else LastDemoted(history[..n], id)
  }

  function LastWith(history: seq<Entry>, entry: Entry, id: string): Option<int> {
    if entry.id == id && entry.Demoted? then Some(entry.at)
    else if entry.id == id && entry.Inserted? then entry.lastDemoted
    else LastDemoted(history, id)
  }

  predicate Waited(history: seq<Entry>, id: string, at: int) {
    LastDemoted(history, id).Some? ==> at - LastDemoted(history, id).value >= DAY
  }

  /** Every promotion came at least a day after what was then the last demotion of its row. */
  predicate AllCooled(history: seq<Entry>) {
    forall i | 0 <= i < |history| && history[i].Promoted? :: Waited(history[..i], history[i].id, history[i].at)
  }

  predicate Tracked(rows: map<string, Row>, history: seq<Entry>) {
    forall id | id in rows :: rows[id].lastDemoted == LastDemoted(history, id)
  }

  lemma LogOneMore(history: seq<Entry>, entry: Entry)
    requires AllCooled(history)
    ensures AllCooled(history + [entry]) <==> (entry.Promoted? ==> Waited(history, entry.id, entry.at))
    ensures forall id :: LastDemoted(history + [entry], id) == LastWith(history, entry, id)
  {
    hide Waited;
    var longer := history + [entry];
    assert longer[..|history|] == history;
    forall i | 0 <= i < |history| ensures longer[..i] == history[..i] {
    }
  }

  /** So a demotion and the next promotion of the row are a day apart. */
  lemma PromotionWaits(history: seq<Entry>, i: nat, j: nat, id: string)
    requires AllCooled(history) && i < j < |history| && history[i].Demoted? && history[i].id == id
      && history[j].Promoted? && history[j].id == id
    requires forall k | i < k < j :: history[k].id != id || history[k].Promoted?
    ensures history[j].at - history[i].at >= DAY
  {
    LastOf(history[..j], i, id);
  }

  lemma {:induction false} LastOf(history: seq<Entry>, i: nat, id: string)
    requires i < |history| && history[i].Demoted? && history[i].id == id
    requires forall k | i < k < |history| :: history[k].id != id || history[k].Promoted?
    ensures LastDemoted(history, id) == Some(history[i].at)
    decreases |history|
  {
    if i < |history| - 1 { LastOf(history[..|history| - 1], i, id); }
  }

  /** One reading of the clock for every row. */
  function Always(now: int): string -> int { (id: string) => now }

  function Height(t: Tier): nat { if t == Hot then 2 else if t == Warm then 1 else 0 }

  /** Every row that stands higher in `after` was promoted, at its time, in what `later` adds to `log`. */
  predicate RisesLogged(before: map<string, Row>, after: map<string, Row>, log: seq<Entry>, later: seq<Entry>,
                        at: string -> int) {
    log <= later
    && forall id | id in before && id in after && Height(after[id].tier) > Height(before[id].tier) ::
      Promoted(id, at(id)) in later[|log|..]
  }

  lemma RisesCompose(a: map<string, Row>, b: map<string, Row>, c: map<string, Row>, l: seq<Entry>, m: seq<Entry>,
                     n: seq<Entry>, at: string -> int)
    requires RisesLogged(a, b, l, m, at) && RisesLogged(b, c, m, n, at) && c.Keys <= b.Keys
    ensures RisesLogged(a, c, l, n, at)
  {
    assert n[|l|..] == m[|l|..] + n[|m|..];
  }

  lemma NothingRises(before: map<string, Row>, after: map<string, Row>, log: seq<Entry>, later: seq<Entry>,
                     at: string -> int)
    requires log <= later && NoneRises(before, after)
    ensures RisesLogged(before, after, log, later, at)
  {
  }

  lemma OneRises(before: map<string, Row>, id: string, row: Row, log: seq<Entry>, at: string -> int)
    ensures RisesLogged(before, before[id := row], log, log + [Promoted(id, at(id))], at)
  {
    assert (log + [Promoted(id, at(id))])[|log|..] == [Promoted(id, at(id))];
  }

  lemma NothingPromoted(embed: string -> Option<Vector>, rows: map<string, Row>, ids: seq<string>, now: int)
    ensures Promotable(embed, rows, ids[..0], now) == {} && LiftAll(embed, rows, {}, Hot) == rows
  {
  }

  /** The readings of the clock in one `add`: one for each row that is trimmed, one to fill up, one to collect. */
  datatype Times = Times(trim: string -> int, fill: int, collect: int)

  datatype Steps = Steps(victims: set<string>, picked: seq<string>, page: seq<string>, ranked: seq<string>)

  function Vacancy(rows: map<string, Row>): nat {
    var hot := |InTier(rows, Hot)|;
    if hot >= HOT_CAPACITY then 0 else HOT_CAPACITY - hot
  }

  /** Once the file has 80 megabytes, the lowest of the outer rows are deleted. */
  ghost predicate Collected(decay: int -> real, rows: map<string, Row>, after: map<string, Row>, page: seq<string>,
                            ranked: seq<string>, now: int, sizeMb: real)
  {
    if sizeMb < 80.0 then after == rows
    else
      var candidates := Candidates(rows, page, now);
      IsPage(rows, Outer(rows), SCAN, true, page) && candidates <= rows.Keys
      && Ranked(decay, rows, candidates, now, ranked)
      && after == rows - Doomed(decay, rows, ranked[..Share(|ranked|, |rows|)], now)
  }

  /** The excess of the hot tier is lowered, its vacancies are filled from the top of the warm rows, and
      then the lowest rows are collected. */
  ghost predicate Managed(embed: string -> Option<Vector>, decay: int -> real, rows: map<string, Row>,
                          after: map<string, Row>, steps: Steps, times: Times, sizeMb: real)
  {
    var second := LowerAll(rows, steps.victims, Warm, times.trim);
    var third := LiftAll(embed, second, Promotable(embed, second, steps.picked, times.fill), Hot);
    Victims(rows, steps.victims) && IsPage(second, Eager(second), Vacancy(second), false, steps.picked)
    && Collected(decay, third, after, steps.page, steps.ranked, times.collect, sizeMb)
  }

  lemma ContentsCompose(first: map<string, Row>, second: map<string, Row>, third: map<string, Row>,
                        last: map<string, Row>)
    requires SameContents(first, second) && SameContents(second, third)
    ensures SameContents(third, last) ==> SameContents(first, last)
    ensures SameContents(third, third)
  {
  }

  class SQLiteStore {
    const embed: string -> Option<Vector>
    const decay: int -> real
    const index: string -> set<string>
    var rows: map<string, Row>
    var vec: map<string, Vector>
    var texts: Texts
    ghost var history: seq<Entry>

    ghost predicate Valid()
      reads this
    {
      Tracked(rows, history) && AllCooled(history)
    }

    constructor (embed: string -> Option<Vector>, decay: int -> real, index: string -> set<string>)
      ensures Valid() && Exact(rows, vec) && TextExact(index, rows, texts)
      ensures rows == map[] && this.embed == embed && this.decay == decay && this.index == index && history == []
    {
      this.embed, this.decay, this.index := embed, decay, index;
      rows, vec, texts, history := map[], map[], Texts({}, map[]), [];
    }

    method Promote(id: string, target: Tier) returns (moved: bool)
      modifies this`rows, this`vec
      ensures moved <==> id in old(rows) && (target != Hot || old(rows)[id].tier == Hot
                                             || old(rows)[id].embedding != [] || embed(old(rows)[id].content).Some?)
      ensures moved ==>
        var row := old(rows)[id];
        var v := if row.tier != Hot && target == Hot && row.embedding == [] then embed(row.content).value
                 else row.embedding;
        rows == old(rows)[id := row.(tier := target, embedding := v)]
        && vec == if row.tier != Hot && target == Hot && v != [] then old(vec)[id := v]
                  else if row.tier == Hot && target == Warm then old(vec) - {id}
                  else old(vec)
      ensures !moved ==> rows == old(rows) && vec == old(vec)
      ensures old(Exact(rows, vec)) && (target == Hot || target == Warm) ==> Exact(rows, vec)
      ensures old(Valid()) ==> Valid()
    {
      hide Exact, AllCooled;
      ghost var before, vectors := rows, vec;
      if id !in rows { return false; }
      var row := rows[id];
      if Exact(before, vectors) && Lifted(embed, row, target).Some? {
        PromoteKeepsExactIff(embed, before, vectors, id, target);
      }
      if row.tier == target {
        assert rows == rows[id := row];
        return true;
      }
      if target == Hot {
        if row.embedding == [] {
          var v := embed(row.content);
          if v.None? { return false; }
          row := row.(embedding := v.value);
        }
        rows := rows[id := row.(tier := Hot)];
        if row.embedding != [] { vec := vec[id := row.embedding]; }
      } else {
        if target == Warm && row.tier == Hot { vec := vec - {id}; }
        rows := rows[id := row.(tier := target)];
      }
      moved := true;
    }

    method Demote(id: string, target: Tier, now: int) returns (moved: bool)
      modifies this`rows, this`vec, this`history
      ensures moved <==> id in old(rows)
      ensures moved ==>
        rows == old(rows)[id := old(rows)[id].(tier := target, lastDemoted := Some(now))]
        && vec == old(vec) - (if old(rows)[id].tier == Hot && (target == Cold || target == Warm) then {id} else {})
        && history == old(history) + [Demoted(id, now)]
      ensures !moved ==> rows == old(rows) && vec == old(vec) && history == old(history)
      ensures old(Exact(rows, vec)) && (target == Cold || target == Warm) ==> Exact(rows, vec)
      ensures old(Valid()) ==> Valid()
    {
      hide AllCooled;
      ghost var before, vectors := rows, vec;
      if id !in rows { return false; }
      if Exact(before, vectors) { DemoteKeepsExactIff(before, vectors, id, target, now); }
      if (target == Cold || target == Warm) && rows[id].tier == Hot { vec := vec - {id}; }
      rows := rows[id := Lowered(rows[id], target, now)];
      if AllCooled(history) { LogOneMore(history, Demoted(id, now)); }
      history := history + [Demoted(id, now)];
      moved := true;
    }

    method Delete(id: string) returns (found: bool)
      modifies this`rows, this`vec, this`texts
      ensures found <==> id in old(rows)
      ensures rows == old(rows) - {id} && vec == old(vec) - {id} && texts == WithoutTexts(old(texts), {id})
      ensures old(Exact(rows, vec)) ==> Exact(rows, vec)
      ensures old(TextExact(index, rows, texts)) ==> TextExact(index, rows, texts)
      ensures old(Valid()) ==> Valid()
    {
      hide Exact, TextExact, WithoutTexts, AllCooled;
      if Exact(rows, vec) { DeleteKeepsExact(rows, vec, id); }
      if TextExact(index, rows, texts) { DeleteKeepsText(index, rows, texts, id); }
      texts := WithoutTexts(texts, {id});
      vec := vec - {id};
      found := id in rows;
      rows := rows - {id};
    }

    method IncrementAccess(id: string, now: int)
      modifies this`rows
      ensures rows == if id in old(rows)
        then old(rows)[id := old(rows)[id].(access := old(rows)[id].access + 1, lastAccessed := Some(now))]
                      else old(rows)
      ensures old(Exact(rows, vec)) ==> Exact(rows, vec)
      ensures old(Valid()) ==> Valid()
    {
      if id in rows {
        rows := rows[id := rows[id].(access := rows[id].access + 1, lastAccessed := Some(now))];
      }
    }

    method DemoteEach(ids: seq<string>, at: string -> int) returns (demoted: nat)
      requires Valid() && Distinct(ids) && Members(ids) <= InTier(rows, Hot)
      modifies this`rows, this`vec, this`history
      ensures Valid() && demoted == |ids| && old(history) <= history
      ensures rows == LowerAll(old(rows), Members(ids), Warm, at) && vec == old(vec) - Members(ids)
      ensures old(Exact(rows, vec)) ==> Exact(rows, vec)
    {
      hide Exact, AllCooled, Tracked;
      ghost var before, vectors := rows, vec;
      demoted := 0;
      assert LowerAll(rows, Members(ids[..0]), Warm, at) == rows && vec - Members(ids[..0]) == vec;
      while demoted < |ids|
        invariant 0 <= demoted <= |ids| && Valid() && old(history) <= history
        invariant rows == LowerAll(before, Members(ids[..demoted]), Warm, at)
          && vec == vectors - Members(ids[..demoted])
        invariant old(Exact(rows, vec)) ==> Exact(rows, vec)
      {
        OneMoreMember(ids, demoted);
        assert ids[demoted] in Members(ids);
        LowerOneMore(before, Members(ids[..demoted]), ids[demoted], Warm, at);
        var moved := Demote(ids[demoted], Warm, at(ids[demoted]));
        demoted := demoted + 1;
      }
      assert ids[..|ids|] == ids;
    }

    /** Demotes to warm exactly the excess of the hot tier, least accessed and oldest first. */
    method TrimHot(at: string -> int) returns (demoted: nat, ghost victims: set<string>)
      requires Valid()
      modifies this`rows, this`vec, this`history
      ensures Valid() && Victims(old(rows), victims) && demoted == |victims|
      ensures rows == LowerAll(old(rows), victims, Warm, at) && vec == old(vec) - victims
      ensures InTier(rows, Hot) == InTier(old(rows), Hot) - victims
        && |InTier(rows, Hot)| == Min(|InTier(old(rows), Hot)|, HOT_CAPACITY)
      ensures SameContents(old(rows), rows) && rows.Keys == old(rows.Keys)
      ensures old(history) <= history && NoneRises(old(rows), rows)
      ensures old(Exact(rows, vec)) ==> Exact(rows, vec)
    {
      hide Exact, AllCooled, Tracked, SameContents, NoneRises, IsPage, InTier, LowerAll, Distinct, Members;
      var hot := InTier(rows, Hot);
      victims, demoted := {}, 0;
      LowerKeepsContents(rows, {}, at);
      NothingLowered(rows, at);
      LoweringRaisesNothing(rows, {}, at);
      if |hot| <= HOT_CAPACITY {
        LoweredTier(rows, {}, at);
        return;
      }
      var ids := Select(rows, hot, |hot| - HOT_CAPACITY, true);
      victims := Members(ids);
      PageIsVictims(rows, ids);
      LoweredTier(rows, victims, at);
      LowerKeepsContents(rows, victims, at);
      demoted := DemoteEach(ids, at);
      LoweringRaisesNothing(old(rows), victims, at);
    }

    /** Promotes the row unless it is cooling down, and records it. */
    method TryPromote(id: string, now: int) returns (moved: bool)
      requires Valid() && id in rows && rows[id].tier == Warm
      modifies this`rows, this`vec, this`history
      ensures Valid() && (moved <==> Ready(embed, old(rows), id, now))
      ensures rows == if moved then old(rows)[id := LiftRow(embed, old(rows)[id], Hot)] else old(rows)
      ensures history == if moved then old(history) + [Promoted(id, now)] else old(history)
      ensures old(Exact(rows, vec)) ==> Exact(rows, vec)
    {
      hide AllCooled, Exact;
      if !Cooled(rows[id], now) { return false; }
      LogOneMore(history, Promoted(id, now));
      moved := Promote(id, Hot);
      if moved { history := history + [Promoted(id, now)]; }
    }

    /** Promotes those of `ids` that are cooled and can be embedded. */
    method PromoteEach(ids: seq<string>, now: int) returns (promoted: nat)
      requires Valid() && Distinct(ids) && Members(ids) <= InTier(rows, Warm)
      modifies this`rows, this`vec, this`history
      ensures Valid() && promoted == |Promotable(embed, old(rows), ids, now)|
      ensures rows == LiftAll(embed, old(rows), Promotable(embed, old(rows), ids, now), Hot)
      ensures RisesLogged(old(rows), rows, old(history), history, Always(now))
      ensures old(Exact(rows, vec)) ==> Exact(rows, vec)
    {
      hide Exact, AllCooled, Tracked, RisesLogged, Cooled, Lifted, LiftRow, LiftAll, Promotable, Ready;
      ghost var before, log := rows, history;
      promoted := 0;
      var n := 0;
      NothingPromoted(embed, rows, ids, now);
      NothingRises(rows, rows, history, history, Always(now));
      LiftKeepsContents(embed, rows, {}, Hot);
      while n < |ids|
        invariant 0 <= n <= |ids| && Valid() && promoted == |Promotable(embed, before, ids[..n], now)|
        invariant rows == LiftAll(embed, before, Promotable(embed, before, ids[..n], now), Hot)
        invariant RisesLogged(before, rows, log, history, Always(now))
        invariant old(Exact(rows, vec)) ==> Exact(rows, vec)
      {
        assert ids[n] in Members(ids);
        PromoteTurn(embed, before, ids, n, now);
        ghost var current, sofar := rows, history;
        var moved := TryPromote(ids[n], now);
        if moved {
          promoted := promoted + 1;
          OneRises(current, ids[n], rows[ids[n]], sofar, Always(now));
          RisesCompose(before, current, rows, log, sofar, history, Always(now));
        }
        n := n + 1;
      }
      assert ids[..n] == ids;
    }

    /** Fills the vacancies of the hot tier from the warm rows accessed most often and most recently made. */
    method ReplenishHot(now: int) returns (promoted: nat, ghost picked: seq<string>)
      requires Valid()
      modifies this`rows, this`vec, this`history
      ensures Valid()
      ensures IsPage(old(rows), Eager(old(rows)), Vacancy(old(rows)), false, picked)
      ensures rows == LiftAll(embed, old(rows), Promotable(embed, old(rows), picked, now), Hot)
      ensures promoted == |Promotable(embed, old(rows), picked, now)|
      ensures InTier(rows, Hot) == InTier(old(rows), Hot) + Promotable(embed, old(rows), picked, now)
      ensures |InTier(rows, Hot)| <= HOT_CAPACITY || InTier(rows, Hot) == InTier(old(rows), Hot)
      ensures RisesLogged(old(rows), rows, old(history), history, Always(now))
      ensures SameContents(old(rows), rows) && rows.Keys == old(rows.Keys)
      ensures old(Exact(rows, vec)) ==> Exact(rows, vec)
    {
      hide Exact, AllCooled, Tracked, RisesLogged, LiftAll, Promotable, IsPage, InTier, Distinct, Members, SameContents,
           Eager, NoneRises, Always;
      var hot := |InTier(rows, Hot)|;
      NothingToReplenish(embed, rows, now);
      NothingRises(rows, rows, history, history, Always(now));
      picked := [];
      if hot >= HOT_CAPACITY { return 0, []; }
      var ids := Select(rows, Eager(rows), HOT_CAPACITY - hot, false);
      picked := ids;
      PageIsWarm(rows, HOT_CAPACITY - hot, ids);
      FewPromotable(embed, rows, ids, now);
      LiftKeepsContents(embed, rows, Promotable(embed, rows, ids, now), Hot);
      promoted := PromoteEach(ids, now);
    }

    /** Scores warm and cold rows and deletes the lowest of them. */
    method Evict(now: int, dryRun: bool) returns (evicted: nat, ghost page: seq<string>, ghost ranked: seq<string>)
      requires Valid()
      modifies this`rows, this`vec, this`texts
      ensures Valid() && IsPage(old(rows), Outer(old(rows)), SCAN, true, page)
      ensures Ranked(decay, old(rows), Candidates(old(rows), page, now), now, ranked)
      ensures var gone := if dryRun then {} else Doomed(decay, old(rows), ranked[..Share(|ranked|, |old(rows)|)], now);
        rows == old(rows) - gone && evicted == |gone| && texts == WithoutTexts(old(texts), gone)
      ensures InTier(rows, Hot) == InTier(old(rows), Hot) && SameContents(old(rows), rows)
      ensures old(Exact(rows, vec)) ==> Exact(rows, vec)
    {
      hide Exact, AllCooled, Tracked, Score, Cheaper, Evictable, Precedes, Doomed, Candidates, WithoutTexts;
      var ids := Select(rows, Outer(rows), SCAN, true);
      page := ids;
      CandidatesAreRows(rows, ids, now);
      var order := Rank(decay, rows, Candidates(rows, ids, now), now);
      ranked := order;
      var n := Share(|order|, |rows|);
      evicted := 0;
      assert rows - {} == rows;
      GoneOneMore(texts, {}, "");
      HotSurvives(decay, rows, page, ranked, now, n);
      SameRows(rows);
      if dryRun { return; }
      RankedMembers(decay, rows, Candidates(rows, ids, now), now, order);
      evicted := DeleteLow(order[..n], now);
    }

    /** Deletes those of `todo` that score below one half. */
    method DeleteLow(todo: seq<string>, now: int) returns (evicted: nat)
      requires Valid() && Distinct(todo) && Members(todo) <= rows.Keys
      modifies this`rows, this`vec, this`texts
      ensures Valid() && rows == old(rows) - Doomed(decay, old(rows), todo, now)
        && evicted == |Doomed(decay, old(rows), todo, now)|
      ensures texts == WithoutTexts(old(texts), Doomed(decay, old(rows), todo, now))
      ensures old(Exact(rows, vec)) ==> Exact(rows, vec)
    {
      hide Exact, TextExact, AllCooled, Tracked, Score, Doomed, WithoutTexts;
      ghost var before, texted := rows, texts;
      evicted := 0;
      var k := 0;
      NoneDoomed(decay, rows, todo, now);
      GoneOneMore(texts, {}, "");
      while k < |todo|
        invariant 0 <= k <= |todo| && Valid() && evicted == |Doomed(decay, before, todo[..k], now)|
        invariant rows == before - Doomed(decay, before, todo[..k], now)
        invariant texts == WithoutTexts(texted, Doomed(decay, before, todo[..k], now))
        invariant old(Exact(rows, vec)) ==> Exact(rows, vec)
      {
        assert todo[k] in Members(todo);
        DoomedOneMore(decay, before, todo, k, now);
        DropOneMore(before, Doomed(decay, before, todo[..k], now), todo[k]);
        GoneOneMore(texted, Doomed(decay, before, todo[..k], now), todo[k]);
        if Score(decay, rows[todo[k]], now) < 0.5 {
          var found := Delete(todo[k]);
          evicted := evicted + 1;
        }
        k := k + 1;
      }
      assert todo[..k] == todo;
    }

    /** The write of `add`, before the tiers are managed. */
    method Insert(id: string, row: Row)
      requires Valid()
      modifies this
      ensures Valid() && rows == old(rows)[id := row] && history == old(history) + [Inserted(id, row.lastDemoted)]
      ensures vec == if row.tier == Hot && row.embedding != [] then old(vec)[id := row.embedding] else old(vec)
      ensures texts == WithText(index, old(texts), id, row.content)
      ensures old(Exact(rows, vec)) ==>
        (Exact(rows, vec) <==> (id in old(vec) ==> row.tier == Hot && row.embedding != []))
    {
      hide AllCooled, WithText;
      if Exact(rows, vec) { InsertKeepsExactIff(rows, vec, id, row); }
      LogOneMore(history, Inserted(id, row.lastDemoted));
      history := history + [Inserted(id, row.lastDemoted)];
      rows := rows[id := row];
      if row.tier == Hot && row.embedding != [] { vec := vec[id := row.embedding]; }
      texts := WithText(index, texts, id, row.content);
    }

    /** `steps` tells which rows the management of the tiers chose; it did with them what `Managed` says. */
    method Add(id: string, row: Row, times: Times, sizeMb: real) returns (ghost steps: Steps)
      requires Valid()
      modifies this
      ensures Valid() && |InTier(rows, Hot)| <= HOT_CAPACITY
      ensures Managed(embed, decay, old(rows)[id := row], rows, steps, times, sizeMb)
      ensures SameContents(old(rows)[id := row], rows)
      ensures sizeMb < 80.0 ==> rows.Keys == old(rows.Keys) + {id}
      ensures RisesLogged(old(rows)[id := row], rows, old(history) + [Inserted(id, row.lastDemoted)], history,
                          Always(times.fill))
      ensures old(Exact(rows, vec)) && (id in old(vec) ==> row.tier == Hot && row.embedding != []) ==> Exact(rows, vec)
      ensures old(TextExact(index, rows, texts)) ==>
        (TextExact(index, rows, texts) <==> id !in old(rows) || id !in rows)
    {
      hide Exact, TextExact, AllCooled, Tracked, Managed, InTier, RisesLogged, WithText, WithoutTexts;
      ghost var before, texted := rows, texts;
      Insert(id, row);
      steps := ManageTiers(times, sizeMb);
      if TextExact(index, before, texted) { InsertKeepsTextIff(index, before, texted, id, row, rows); }
    }

    method ManageTiers(times: Times, sizeMb: real) returns (ghost steps: Steps)
      requires Valid()
      modifies this
      ensures Valid() && |InTier(rows, Hot)| <= HOT_CAPACITY
      ensures Managed(embed, decay, old(rows), rows, steps, times, sizeMb)
      ensures SameContents(old(rows), rows) && (sizeMb < 80.0 ==> rows.Keys == old(rows.Keys))
      ensures RisesLogged(old(rows), rows, old(history), history, Always(times.fill))
      ensures texts == WithoutTexts(old(texts), old(rows.Keys) - rows.Keys)
      ensures old(Exact(rows, vec)) ==> Exact(rows, vec)
    {
      hide Exact, AllCooled, Tracked, LiftAll, LowerAll, Promotable, IsPage, Victims, Eager, InTier, SameContents,
           RisesLogged, Always, Vacancy, Collected, WithoutTexts;
      ghost var first, start := rows, history;
      var demoted, victims := TrimHot(times.trim);
      ghost var second, trimmed := rows, history;
      var promoted, picked := ReplenishHot(times.fill);
      ghost var third := rows;
      NothingRises(first, second, start, trimmed, Always(times.fill));
      RisesCompose(first, second, third, start, trimmed, history, Always(times.fill));
      ghost var page, ranked := GcIfNeeded(times.collect, sizeMb);
      steps := Steps(victims, picked, page, ranked);
      ContentsCompose(first, second, third, rows);
      FallsAreSilent(first, third, rows, start, history, Always(times.fill));
    }

    method GcIfNeeded(now: int, sizeMb: real) returns (ghost page: seq<string>, ghost ranked: seq<string>)
      requires Valid()
      modifies this`rows, this`vec, this`texts
      ensures Valid() && Collected(decay, old(rows), rows, page, ranked, now, sizeMb)
      ensures InTier(rows, Hot) == InTier(old(rows), Hot) && SameContents(old(rows), rows)
        && (sizeMb < 80.0 ==> rows == old(rows))
      ensures rows.Keys <= old(rows.Keys) && forall id | id in rows :: rows[id] == old(rows)[id]
      ensures texts == WithoutTexts(old(texts), old(rows.Keys) - rows.Keys)
      ensures old(Exact(rows, vec)) ==> Exact(rows, vec)
    {
      hide Exact, AllCooled, Tracked, Doomed, Candidates, Ranked, IsPage, Outer, InTier, Share, SameContents,
           WithoutTexts;
      page, ranked := [], [];
      SameRows(rows);
      GoneOneMore(texts, {}, "");
      CandidatesAreRows(rows, [], now);
      assert rows.Keys - rows.Keys == {};
      if sizeMb < 80.0 { return; }
      var evicted;
      evicted, page, ranked := Evict(now, false);
      CandidatesAreRows(old(rows), page, now);
      DoomedAreRows(decay, old(rows), ranked[..Share(|ranked|, |old(rows)|)], now);
    }

    /** Promotes a row to warm unless it is cooling down, and records it. */
    method WarmUp(id: string, now: int) returns (moved: bool)
      requires Valid() && id in rows
      modifies this`rows, this`vec, this`history
      ensures Valid() && (moved <==> Cooled(old(rows)[id], now))
      ensures rows == if moved then old(rows)[id := old(rows)[id].(tier := Warm)] else old(rows)
      ensures history == if moved then old(history) + [Promoted(id, now)] else old(history)
      ensures old(Exact(rows, vec)) ==> Exact(rows, vec)
    {
      hide AllCooled, Exact;
      if !Cooled(rows[id], now) { return false; }
      LogOneMore(history, Promoted(id, now));
      moved := Promote(id, Warm);
      history := history + [Promoted(id, now)];
    }

    /** Looks at up to two random cold rows and warms up those that share enough keywords with the query. */
    method SampleCold(query: set<string>, picks: seq<string>, keywords: string -> set<string>, at: string -> int)
      returns (promoted: nat)
      requires Valid() && Distinct(picks) && Members(picks) <= InTier(rows, Cold)
      modifies this`rows, this`vec, this`history
      ensures Valid() && RisesLogged(old(rows), rows, old(history), history, at)
      ensures rows == Warmed(old(rows), Sampled(old(rows), query, picks, keywords, at))
      ensures promoted == |Sampled(old(rows), query, picks, keywords, at)|
      ensures old(Exact(rows, vec)) ==> Exact(rows, vec)
    {
      hide Exact, AllCooled, Tracked, Cooled, Overlaps, RisesLogged;
      ghost var before, log := rows, history;
      promoted := 0;
      var n := 0;
      NothingSampled(rows, query, picks, keywords, at);
      NothingRises(rows, rows, history, history, at);
      while n < |picks|
        invariant 0 <= n <= |picks| && Valid() && RisesLogged(before, rows, log, history, at)
        invariant rows == Warmed(before, Sampled(before, query, picks[..n], keywords, at))
        invariant promoted == |Sampled(before, query, picks[..n], keywords, at)|
        invariant old(Exact(rows, vec)) ==> Exact(rows, vec)
      {
        assert picks[n] in Members(picks);
        SampleTurn(before, query, picks, n, keywords, at);
        if Overlaps(keywords(rows[picks[n]].content), query) {
          ghost var current, sofar := rows, history;
          var moved := WarmUp(picks[n], at(picks[n]));
          if moved {
            promoted := promoted + 1;
            OneRises(current, picks[n], rows[picks[n]], sofar, at);
            RisesCompose(before, current, rows, log, sofar, history, at);
          }
        }
        n := n + 1;
      }
      assert picks[..n] == picks;
    }
  }

  lemma NothingLowered(rows: map<string, Row>, at: string -> int)
    ensures LowerAll(rows, {}, Warm, at) == rows && InTier(rows, Hot) <= rows.Keys
  {
  }

  lemma PageIsWarm(rows: map<string, Row>, n: nat, ids: seq<string>)
    requires IsPage(rows, Eager(rows), n, false, ids)
    ensures Distinct(ids) && Members(ids) <= InTier(rows, Warm) && |ids| <= n
  {
  }

  lemma NothingToReplenish(embed: string -> Option<Vector>, rows: map<string, Row>, now: int)
    ensures Eager(rows) <= rows.Keys && IsPage(rows, Eager(rows), 0, false, []) && NoneRises(rows, rows)
    ensures Promotable(embed, rows, [], now) == {} && LiftAll(embed, rows, {}, Hot) == rows && SameContents(rows, rows)
    ensures InTier(rows, Hot) + {} == InTier(rows, Hot)
  {
  }

  lemma PageIsVictims(rows: map<string, Row>, ids: seq<string>)
    requires |InTier(rows, Hot)| > HOT_CAPACITY
      && IsPage(rows, InTier(rows, Hot), |InTier(rows, Hot)| - HOT_CAPACITY, true, ids)
    ensures Distinct(ids) && Victims(rows, Members(ids)) && |ids| == |Members(ids)|
    ensures Members(ids) <= InTier(rows, Hot) && |InTier(rows, Hot) - Members(ids)| == HOT_CAPACITY
  {
    DistinctMembers(ids);
  }

  predicate NoneRises(before: map<string, Row>, after: map<string, Row>) {
    forall id | id in before && id in after :: Height(after[id].tier) <= Height(before[id].tier)
  }

  lemma LoweringRaisesNothing(rows: map<string, Row>, ids: set<string>, at: string -> int)
    requires ids <= InTier(rows, Hot)
    ensures NoneRises(rows, LowerAll(rows, ids, Warm, at))
  {
  }

  lemma FallsAreSilent(a: map<string, Row>, b: map<string, Row>, c: map<string, Row>, l: seq<Entry>, m: seq<Entry>,
                       at: string -> int)
    requires RisesLogged(a, b, l, m, at) && c.Keys <= b.Keys && forall id | id in c :: c[id] == b[id]
    ensures RisesLogged(a, c, l, m, at)
  {
  }

  lemma DoomedAreRows(decay: int -> real, rows: map<string, Row>, ids: seq<string>, now: int)
    ensures var gone := Doomed(decay, rows, ids, now); var after := rows - gone;
      gone <= rows.Keys && rows.Keys - after.Keys == gone && after.Keys <= rows.Keys
        && forall id | id in after :: after[id] == rows[id]
  {
  }

  /** A row that trimming demoted less than a day ago is not promoted again by the replenishing that follows. */
  lemma TrimmedStaysWarm(embed: string -> Option<Vector>, rows: map<string, Row>, victims: set<string>,
                         picked: seq<string>, times: Times)
    requires forall id | id in victims :: times.fill - times.trim(id) < DAY
    ensures Promotable(embed, LowerAll(rows, victims, Warm, times.trim), picked, times.fill) !! victims
  {
    forall id | id in victims && id in rows ensures !Cooled(LowerAll(rows, victims, Warm, times.trim)[id], times.fill) {
    }
  }

  /** At least a fifth of the query's keywords, and some on both sides. */
  predicate Overlaps(words: set<string>, query: set<string>) {
    words != {} && query != {} && 5 * |words * query| >= |query|
  }

  function Sampled(rows: map<string, Row>, query: set<string>, picks: seq<string>, keywords: string -> set<string>,
                   at: string -> int): set<string> {
    set id | id in picks && id in rows && Cooled(rows[id], at(id)) && Overlaps(keywords(rows[id].content), query)
  }

  function Warmed(rows: map<string, Row>, ids: set<string>): map<string, Row> {
    map id | id in rows :: if id in ids then rows[id].(tier := Warm) else rows[id]
  }

  lemma NothingSampled(rows: map<string, Row>, query: set<string>, picks: seq<string>, keywords: string -> set<string>,
                       at: string -> int)
    ensures Sampled(rows, query, picks[..0], keywords, at) == {} && Warmed(rows, {}) == rows
  {
  }

  lemma SampleTurn(rows: map<string, Row>, query: set<string>, picks: seq<string>, n: nat,
                   keywords: string -> set<string>, at: string -> int)
    requires n < |picks| && Distinct(picks) && picks[n] in rows
    ensures var done := Sampled(rows, query, picks[..n], keywords, at); var current := Warmed(rows, done);
      var id := picks[n];
      var next := Sampled(rows, query, picks[..n + 1], keywords, at);
      id in current && current[id] == rows[id]
      && (if Cooled(rows[id], at(id)) && Overlaps(keywords(rows[id].content), query)
          then |next| == |done| + 1 && Warmed(rows, next) == current[id := rows[id].(tier := Warm)]
          else next == done)
  {
    hide Cooled, Overlaps;
    var done := Sampled(rows, query, picks[..n], keywords, at);
    assert picks[..n + 1] == picks[..n] + [picks[n]];
    var hit := Cooled(rows[picks[n]], at(picks[n])) && Overlaps(keywords(rows[picks[n]].content), query);
    assert Sampled(rows, query, picks[..n + 1], keywords, at) == if hit then done + {picks[n]} else done;
  }

  /** Rows may go, but none appears and none changes its content or time. */
  predicate SameContents(before: map<string, Row>, after: map<string, Row>) {
    after.Keys <= before.Keys
    && forall id | id in after :: after[id].content == before[id].content && after[id].timestamp == before[id].timestamp
                                   && after[id].access == before[id].access
  }

  lemma LowerKeepsContents(rows: map<string, Row>, ids: set<string>, at: string -> int)
    ensures SameContents(rows, LowerAll(rows, ids, Warm, at)) && LowerAll(rows, ids, Warm, at).Keys == rows.Keys
  {
  }

  lemma SameRows(rows: map<string, Row>)
    ensures SameContents(rows, rows)
  {
  }

  lemma LiftKeepsContents(embed: string -> Option<Vector>, rows: map<string, Row>, ids: set<string>, target: Tier)
    ensures SameContents(rows, LiftAll(embed, rows, ids, target)) && LiftAll(embed, rows, ids, target).Keys == rows.Keys
  {
  }

  /** What eviction takes is warm or cold, scored below one half, and old if it was warm. */
  lemma DoomedAreOuter(decay: int -> real, rows: map<string, Row>, page: seq<string>, ranked: seq<string>, now: int,
                       n: nat, id: string)
    requires Candidates(rows, page, now) <= rows.Keys && Ranked(decay, rows, Candidates(rows, page, now), now, ranked)
    requires n <= |ranked| && id in Doomed(decay, rows, ranked[..n], now)
    ensures rows[id].tier != Hot && Evictable(rows[id], now) && Score(decay, rows[id], now) < 0.5
    ensures forall other | other in Candidates(rows, page, now) && other !in ranked[..n] ::
      Score(decay, rows[id], now) <= Score(decay, rows[other], now)
  {
    hide Score, IsPage;
    RankedMembers(decay, rows, Candidates(rows, page, now), now, ranked);
  }

  /** With the decay of the original, what scores below one half is more than 30 days old, cold rows too: the
      protection of young warm rows changes nothing. And a row that was never read is out after 60 days. */
  lemma DoomedAreOld(decay: int -> real, row: Row, now: int)
    requires IsDecay(decay) && Days(row, now) >= 0
    ensures Score(decay, row, now) < 0.5 ==> Days(row, now) > 30
    ensures row.access == 0 && Days(row, now) >= 60 ==> Score(decay, row, now) < 0.5
  {
    var p :| 0.0 < p && Power(p, 30) == 0.7 && forall d: nat :: decay(d) == Power(p, d);
    var d: nat := Days(row, now);
    if p >= 1.0 { PowerKeepsUp(p, 30); }
    if d <= 30 {
      PowerOrder(p, d, 30);
      Larger((row.access + 1) as real, decay(d));
    }
    if d >= 60 {
      PowerOrder(p, 60, d);
      PowerAdds(p, 30, 30);
    }
  }

  lemma Larger(factor: real, x: real)
    requires factor >= 1.0 && x >= 0.0
    ensures factor * x >= x
  {
  }

  lemma RankedMembers(decay: int -> real, rows: map<string, Row>, from: set<string>, now: int, ranked: seq<string>)
    requires from <= rows.Keys && Ranked(decay, rows, from, now, ranked)
    ensures Members(ranked) == from && Distinct(ranked)
  {
    hide Cheaper;
    forall i, j | 0 <= i < j < |ranked| ensures ranked[i] != ranked[j] {
      CheaperIsOrder(decay, rows, now, ranked[i], ranked[j]);
    }
    DistinctMembers(ranked);
    SameSizeSubset(Members(ranked), from);
  }

  lemma HotSurvives(decay: int -> real, rows: map<string, Row>, page: seq<string>, ranked: seq<string>, now: int,
                    n: nat)
    requires Candidates(rows, page, now) <= rows.Keys && Ranked(decay, rows, Candidates(rows, page, now), now, ranked)
    requires n <= |ranked|
    ensures var after := rows - Doomed(decay, rows, ranked[..n], now);
      InTier(after, Hot) == InTier(rows, Hot) && SameContents(rows, after)
  {
    forall id | id in Doomed(decay, rows, ranked[..n], now) ensures rows[id].tier != Hot {
      DoomedAreOuter(decay, rows, page, ranked, now, n, id);
    }
  }

  lemma FewPromotable(embed: string -> Option<Vector>, rows: map<string, Row>, ids: seq<string>, now: int)
    requires Distinct(ids) && Members(ids) <= InTier(rows, Warm)
    ensures Promotable(embed, rows, ids, now) <= InTier(rows, Warm) && |Promotable(embed, rows, ids, now)| <= |ids|
    ensures var lifted := Promotable(embed, rows, ids, now);
      InTier(LiftAll(embed, rows, lifted, Hot), Hot) == InTier(rows, Hot) + lifted
      && |InTier(rows, Hot) + lifted| == |InTier(rows, Hot)| + |lifted|
  {
    var lifted := Promotable(embed, rows, ids, now);
    assert lifted <= Members(ids);
    DistinctMembers(ids);
    SubsetSize(lifted, Members(ids));
    LiftedTier(embed, rows, lifted);
    assert InTier(rows, Hot) !! lifted;
  }

  lemma CandidatesAreRows(rows: map<string, Row>, page: seq<string>, now: int)
    ensures Candidates(rows, page, now) <= rows.Keys
  {
  }

  lemma NoneDoomed(decay: int -> real, rows: map<string, Row>, ids: seq<string>, now: int)
    ensures Doomed(decay, rows, ids[..0], now) == {} && rows - {} == rows
  {
  }
}
