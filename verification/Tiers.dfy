/** What the management of the tiers does to each row, told from the rows and the clock alone. */
module Tiers {
  import opened Sets
  import opened Order
  import opened Schema
  import opened TierStore

  /** Read less often, or as often and made no later. */
  predicate AtMost(a: Row, b: Row) {
    a.access < b.access || (a.access == b.access && a.timestamp <= b.timestamp)
  }

  /** A day has passed since the row was last demoted. */
  predicate Rested(row: Row, now: int) {
    row.lastDemoted == None || row.lastDemoted.value + 24 * 60 * 60 * 1_000_000 <= now
  }

  function Capped(n: int): nat { if n < 0 then 0 else n }

  lemma PrecedesIff(a: Row, b: Row)
    ensures !Precedes(b, a, true) <==> AtMost(a, b)
    ensures !Precedes(b, a, false) <==> AtMost(b, a)
  {
  }

  lemma RestedIff(row: Row, now: int)
    ensures Cooled(row, now) <==> Rested(row, now)
  {
  }

  // ----------------------------------------------------------------- trimming

  /** The hot rows beyond 500 become warm and are stamped, those read least and made first; no other row
      changes. */
  ghost predicate Trims(rows: map<string, Row>, victims: set<string>, at: string -> int, after: map<string, Row>) {
    var hot := set id | id in rows && rows[id].tier == Hot;
    victims <= hot && |victims| == Capped(|hot| - 500)
    && (forall v, h | v in victims && h in hot && h !in victims :: AtMost(rows[v], rows[h]))
    && after.Keys == rows.Keys
    && forall id | id in rows ::
         after[id] == if id in victims then rows[id].(tier := Warm, lastDemoted := Some(at(id))) else rows[id]
  }

  lemma VictimsTell(rows: map<string, Row>, victims: set<string>, at: string -> int)
    requires Victims(rows, victims)
    ensures Trims(rows, victims, at, LowerAll(rows, victims, Warm, at))
  {
    forall v, h | v in victims && h in InTier(rows, Hot) && h !in victims ensures AtMost(rows[v], rows[h]) {
      PrecedesIff(rows[v], rows[h]);
    }
    assert InTier(rows, Hot) == set id | id in rows && rows[id].tier == Hot;
  }

  // -------------------------------------------------------------- replenishing

  /** Warm rows read three times or more, those read most and made last, fill the hot tier up to 500: of
      those that are picked, the rested ones that have a vector or can be given one become hot. */
  ghost predicate Replenishes(embed: string -> Option<Vector>, rows: map<string, Row>, picked: seq<string>, now: int,
                              after: map<string, Row>) {
    var hot := set id | id in rows && rows[id].tier == Hot;
    var keen := set id | id in rows && rows[id].tier == Warm && rows[id].access >= 3;
    Distinct(picked) && Members(picked) <= keen && |picked| == Min(Capped(500 - |hot|), |keen|)
    && (forall p, q | p in Members(picked) && q in keen && q !in picked :: AtMost(rows[q], rows[p]))
    && after.Keys == rows.Keys
    && forall id | id in rows ::
         var row := rows[id];
         after[id] ==
           if id !in picked || !Rested(row, now) then row
           else if row.embedding != [] then row.(tier := Hot)
           else match embed(row.content) case None => row case Some(v) => row.(tier := Hot, embedding := v)
  }

  lemma PickedTell(embed: string -> Option<Vector>, rows: map<string, Row>, picked: seq<string>, now: int)
    requires Eager(rows) <= rows.Keys && IsPage(rows, Eager(rows), Vacancy(rows), false, picked)
    ensures Replenishes(embed, rows, picked, now, LiftAll(embed, rows, Promotable(embed, rows, picked, now), Hot))
  {
    assert InTier(rows, Hot) == set id | id in rows && rows[id].tier == Hot;
    assert Eager(rows) == set id | id in rows && rows[id].tier == Warm && rows[id].access >= 3;
    forall i, y | 0 <= i < |picked| && y in Eager(rows) && y !in picked ensures AtMost(rows[y], rows[picked[i]]) {
      PrecedesIff(rows[y], rows[picked[i]]);
    }
    forall id | id in rows ensures Cooled(rows[id], now) <==> Rested(rows[id], now) {
      RestedIff(rows[id], now);
    }
  }

  // ----------------------------------------------------------------- eviction

  function Age(row: Row, now: int): int { (now - row.timestamp) / (24 * 60 * 60 * 1_000_000) }

  /** The access count and one, shrunk by the age. */
  function Worth(decay: int -> real, row: Row, now: int): real {
    (row.access as real + 1.0) * decay(Age(row, now))
  }

  /** Of at most 200 warm and cold rows, those read least and made first, the cold ones and the warm ones of
      30 days are ranked by what they are worth, equal ones by id. Of the ranked rows, but for as many at
      the end as the store has rows beyond 3000, those worth less than one half go. */
  ghost predicate Evicts(decay: int -> real, rows: map<string, Row>, page: seq<string>, ranked: seq<string>, now: int,
                         after: map<string, Row>) {
    var outer := set id | id in rows && (rows[id].tier == Warm || rows[id].tier == Cold);
    var share := Capped(|ranked| - Capped(|rows| - 3000));
    Distinct(page) && Members(page) <= outer && |page| == Min(200, |outer|)
    && (forall p, q | p in Members(page) && q in outer && q !in page :: AtMost(rows[p], rows[q]))
    && (forall id :: id in ranked <==> id in page && id in rows && (rows[id].tier == Warm ==> Age(rows[id], now) >= 30))
    && (forall i, j | 0 <= i < j < |ranked| && ranked[i] in rows && ranked[j] in rows ::
          Worth(decay, rows[ranked[i]], now) < Worth(decay, rows[ranked[j]], now)
          || (Worth(decay, rows[ranked[i]], now) == Worth(decay, rows[ranked[j]], now) && Less(ranked[i], ranked[j])))
    && share <= |ranked|
    && (forall id | id in rows ::
          id !in after <==> id in ranked[..share] && Worth(decay, rows[id], now) < 0.5)
    && (forall id | id in after :: id in rows && after[id] == rows[id])
  }

  lemma WorthIs(decay: int -> real, row: Row, now: int)
    ensures Score(decay, row, now) == Worth(decay, row, now) && Days(row, now) == Age(row, now)
  {
  }

  lemma OuterPage(rows: map<string, Row>, page: seq<string>)
    requires IsPage(rows, Outer(rows), SCAN, true, page)
    ensures var outer := set id | id in rows && (rows[id].tier == Warm || rows[id].tier == Cold);
      Distinct(page) && Members(page) <= outer && |page| == Min(200, |outer|)
      && forall p, q | p in Members(page) && q in outer && q !in page :: AtMost(rows[p], rows[q])
    ensures forall id | id in page :: id in rows && (rows[id].tier == Warm || rows[id].tier == Cold)
  {
    assert Outer(rows) == set id | id in rows && (rows[id].tier == Warm || rows[id].tier == Cold);
    forall i, y | 0 <= i < |page| && y in Outer(rows) && y !in page ensures AtMost(rows[page[i]], rows[y]) {
      PrecedesIff(rows[page[i]], rows[y]);
    }
  }

  lemma DoomedTell(decay: int -> real, rows: map<string, Row>, page: seq<string>, ranked: seq<string>, now: int)
    requires IsPage(rows, Outer(rows), SCAN, true, page) && Candidates(rows, page, now) <= rows.Keys
      && Ranked(decay, rows, Candidates(rows, page, now), now, ranked)
    ensures Evicts(decay, rows, page, ranked, now, rows - Doomed(decay, rows, ranked[..Share(|ranked|, |rows|)], now))
  {
    hide Score, Worth, Age, Days, Less, AtMost, IsPage, Evictable, Candidates;
    OuterPage(rows, page);
    CandidatesAre(rows, page, now);
    forall id | id in rows ensures Score(decay, rows[id], now) == Worth(decay, rows[id], now) {
      WorthIs(decay, rows[id], now);
    }
    RankedMembers(decay, rows, Candidates(rows, page, now), now, ranked);
    forall id ensures id in ranked <==> id in Candidates(rows, page, now) {
      assert id in ranked <==> id in Members(ranked);
    }
    assert Share(|ranked|, |rows|) == Capped(|ranked| - Capped(|rows| - 3000));
  }

  lemma CandidatesAre(rows: map<string, Row>, page: seq<string>, now: int)
    requires forall id | id in page :: id in rows && (rows[id].tier == Warm || rows[id].tier == Cold)
    ensures forall id ::
      id in Candidates(rows, page, now) <==>
        id in page && id in rows && (rows[id].tier == Warm ==> Age(rows[id], now) >= 30)
  {
    hide Age, Days;
    forall id | id in rows ensures Days(rows[id], now) == Age(rows[id], now) {
      WorthIs((d: int) => 0.0, rows[id], now);
    }
  }

  // ------------------------------------------------------------------ together

  /** `add` and the management after it, step by step: the row is written, the excess trimmed, the hot tier
      replenished, and from 80 megabytes on the outer tiers are thinned out. */
  lemma ManagedTells(embed: string -> Option<Vector>, decay: int -> real, rows: map<string, Row>,
                     after: map<string, Row>, steps: Steps, times: Times, sizeMb: real)
    requires Managed(embed, decay, rows, after, steps, times, sizeMb)
    ensures exists second, third ::
      Trims(rows, steps.victims, times.trim, second) && Replenishes(embed, second, steps.picked, times.fill, third)
      && if sizeMb < 80.0 then after == third
         else Evicts(decay, third, steps.page, steps.ranked, times.collect, after)
  {
    hide Trims, Replenishes, Evicts, LowerAll, LiftAll, Promotable, IsPage, Ranked, Victims, Doomed, Candidates;
    var second := LowerAll(rows, steps.victims, Warm, times.trim);
    var third := LiftAll(embed, second, Promotable(embed, second, steps.picked, times.fill), Hot);
    VictimsTell(rows, steps.victims, times.trim);
    PickedTell(embed, second, steps.picked, times.fill);
    if sizeMb >= 80.0 { DoomedTell(decay, third, steps.page, steps.ranked, times.collect); }
  }

  // ----------------------------------------------------------------- sampling

  /** Of the sampled rows, the rested ones that share a fifth of the query's keywords or more become warm. */
  lemma SampledTell(rows: map<string, Row>, query: set<string>, picks: seq<string>, keywords: string -> set<string>,
                    at: string -> int)
    ensures var after := Warmed(rows, Sampled(rows, query, picks, keywords, at));
      after.Keys == rows.Keys
      && forall id | id in rows ::
           after[id] == if id in picks && Rested(rows[id], at(id)) && query != {} && keywords(rows[id].content) != {}
                           && |keywords(rows[id].content) * query| * 5 >= |query|
                        then rows[id].(tier := Warm) else rows[id]
  {
    forall id | id in rows ensures Cooled(rows[id], at(id)) <==> Rested(rows[id], at(id)) {
      RestedIff(rows[id], at(id));
    }
  }

  // -------------------------------------------------------------------- texts

  /** A written row gets one more full-text row and the keywords of its content, beside those that it had. */
  lemma WrittenTextsTell(index: string -> set<string>, texts: Texts, id: string, content: string)
    ensures var after := WithText(index, texts, id, content);
      (forall w :: w in after.words <==> w in texts.words || (w.memory == id && w.keyword in index(content)))
      && after.fts.Keys == texts.fts.Keys + {id}
      && (forall x | x in texts.fts && x != id :: after.fts[x] == texts.fts[x])
      && after.fts[id] == (if id in texts.fts then texts.fts[id] else multiset{}) + multiset{content}
  {
    forall w: Keyword | w.memory == id && w.keyword in index(content)
      ensures w in WithText(index, texts, id, content).words
    {
      assert w == Keyword(w.keyword, id);
    }
  }

  /** Of deleted rows no text stays, and of the others all of it. */
  lemma DeletedTextsTell(texts: Texts, gone: set<string>)
    ensures var after := WithoutTexts(texts, gone);
      (forall w :: w in after.words <==> w in texts.words && w.memory !in gone)
      && (forall x :: x in after.fts <==> x in texts.fts && x !in gone)
      && (forall x | x in after.fts :: after.fts[x] == texts.fts[x])
  {
  }
}
