/** The migration runner, and the one migration there is: quarantining the rows of a legacy store. */
module Migrations {
  import opened Sets
  import opened Schema

  datatype Bootstrap = Bootstrap(owner: string, grant: string, createdAt: string)

  predicate ValidBootstrap(b: Bootstrap) { !Blank(b.owner) && !Blank(b.grant) && !Blank(b.createdAt) }

  /** `apply` is None where the original raises; the caller then rolls everything back. */
  datatype Migration = Migration(version: int, name: string, apply: (Db, Bootstrap) -> Option<Db>)

  datatype Stamp = Stamp(name: string, at: string)

  /** The database with the rows of schema_migrations. */
  datatype Store = Store(db: Db, history: map<int, Stamp>)

  datatype Report = Migrated(store: Store, current: int, newly: seq<int>) | Refused

  // ----------------------------------------------------------------- registry

  function Insert(m: Migration, sorted: seq<Migration>): seq<Migration>
    decreases |sorted|
  {
    if sorted == [] || m.version < sorted[0].version then [m] + sorted
    else [sorted[0]] + Insert(m, sorted[1..])
  }

  /** `sorted(migrations, key=version)` */
  function Sort(ms: seq<Migration>): seq<Migration>
    decreases |ms|
  {
    if ms == [] then [] else Insert(ms[|ms| - 1], Sort(ms[..|ms| - 1]))
  }

  /** Versions 1, 2, ... in order, each with a name. */
  predicate Registry(ms: seq<Migration>) {
    ms != [] && forall i | 0 <= i < |ms| :: ms[i].version == i + 1 && !Blank(ms[i].name)
  }

  /** `_validate_registry` */
  function Validate(ms: seq<Migration>): Option<seq<Migration>> {
    if Registry(Sort(ms)) then Some(Sort(ms)) else None
  }

  predicate Ascending(ms: seq<Migration>) {
    forall i, j | 0 <= i < j < |ms| :: ms[i].version <= ms[j].version
  }

  lemma {:induction false} InsertKeeps(m: Migration, sorted: seq<Migration>)
    ensures multiset(Insert(m, sorted)) == multiset{m} + multiset(sorted)
    decreases |sorted|
  {
    if sorted != [] && m.version >= sorted[0].version {
      InsertKeeps(m, sorted[1..]);
      assert sorted == [sorted[0]] + sorted[1..];
    }
  }

  lemma {:induction false} InsertAscends(m: Migration, sorted: seq<Migration>)
    requires Ascending(sorted)
    ensures Ascending(Insert(m, sorted))
    decreases |sorted|
  {
    if sorted != [] && m.version >= sorted[0].version {
      InsertAscends(m, sorted[1..]);
      var rest := Insert(m, sorted[1..]);
      forall i | 0 <= i < |rest| ensures sorted[0].version <= rest[i].version {
        InsertKeeps(m, sorted[1..]);
        assert rest[i] in multiset(rest);
      }
    }
  }

  lemma {:induction false} SortKeeps(ms: seq<Migration>)
    ensures multiset(Sort(ms)) == multiset(ms)
    decreases |ms|
  {
    hide Insert;
    if ms != [] {
      var n := |ms| - 1;
      SortKeeps(ms[..n]);
      InsertKeeps(ms[n], Sort(ms[..n]));
      assert ms == ms[..n] + [ms[n]];
    }
  }

  lemma {:induction false} SortAscends(ms: seq<Migration>)
    ensures Ascending(Sort(ms))
    decreases |ms|
  {
    hide Insert, Ascending;
    if ms == [] {
      NothingAscends();
    } else {
      SortAscends(ms[..|ms| - 1]);
      InsertAscends(ms[|ms| - 1], Sort(ms[..|ms| - 1]));
    }
  }

  lemma NothingAscends()
    ensures Ascending([])
  {
  }

  function VersionsOf(ms: seq<Migration>): seq<int>
    decreases |ms|
  {
    if ms == [] then [] else VersionsOf(ms[..|ms| - 1]) + [ms[|ms| - 1].version]
  }

  lemma {:induction false} VersionAt(ms: seq<Migration>, i: nat)
    requires i < |ms|
    ensures |VersionsOf(ms)| == |ms| && VersionsOf(ms)[i] == ms[i].version
    decreases |ms|
  {
    var n := |ms| - 1;
    if n > 0 { VersionAt(ms[..n], if i < n then i else 0); }
  }

  lemma {:induction false} VersionsLength(ms: seq<Migration>)
    ensures |VersionsOf(ms)| == |ms|
    decreases |ms|
  {
    if ms != [] { VersionsLength(ms[..|ms| - 1]); }
  }

  predicate Rising(s: seq<int>) {
    forall i, j | 0 <= i < j < |s| :: s[i] <= s[j]
  }

  /** There is only one way to put numbers in order. */
  lemma {:induction false} RisingIsUnique(s: seq<int>, t: seq<int>)
    requires Rising(s) && Rising(t) && multiset(s) == multiset(t)
    ensures s == t
    decreases |s|
  {
    SameLength(s, t);
    if s != [] {
      var n := |s| - 1;
      LastIsLargest(s, t);
      LastIsLargest(t, s);
      WithoutLast(s, t);
      RisingIsUnique(s[..n], t[..n]);
      assert s == s[..n] + [s[n]] && t == t[..n] + [t[n]];
    }
  }

  lemma SameLength(s: seq<int>, t: seq<int>)
    requires multiset(s) == multiset(t)
    ensures |s| == |t|
  {
    assert |s| == |multiset(s)| && |t| == |multiset(t)|;
  }

  lemma WithoutLast(s: seq<int>, t: seq<int>)
    requires multiset(s) == multiset(t) && |s| == |t| > 0 && s[|s| - 1] == t[|t| - 1]
    ensures multiset(s[..|s| - 1]) == multiset(t[..|t| - 1])
  {
    LastOff(s);
    LastOff(t);
  }

  lemma LastOff(s: seq<int>)
    requires s != []
    ensures multiset(s[..|s| - 1]) == multiset(s) - multiset{s[|s| - 1]}
  {
    assert s == s[..|s| - 1] + [s[|s| - 1]];
  }

  lemma LastIsLargest(s: seq<int>, t: seq<int>)
    requires Rising(s) && s != [] && t != [] && multiset(s) == multiset(t)
    ensures t[|t| - 1] <= s[|s| - 1]
  {
    assert t[|t| - 1] in multiset(t);
    var i :| 0 <= i < |s| && s[i] == t[|t| - 1];
  }

  /** 1, 2, ..., n */
  function UpTo(n: nat): seq<int> { seq(n, i => i + 1) }

  lemma {:induction false} InsertVersions(m: Migration, sorted: seq<Migration>)
    ensures multiset(VersionsOf(Insert(m, sorted))) == multiset{m.version} + multiset(VersionsOf(sorted))
    decreases |sorted|
  {
    hide VersionsOf;
    if sorted == [] || m.version < sorted[0].version {
      VersionsCons(m, sorted);
    } else {
      InsertVersions(m, sorted[1..]);
      VersionsCons(sorted[0], Insert(m, sorted[1..]));
      VersionsCons(sorted[0], sorted[1..]);
      assert [sorted[0]] + sorted[1..] == sorted;
    }
  }

  lemma {:induction false} VersionsCons(m: Migration, ms: seq<Migration>)
    ensures VersionsOf([m] + ms) == [m.version] + VersionsOf(ms)
    decreases |ms|
  {
    if ms == [] {
      assert [m] + ms == [m] && [m][..0] == [];
    } else {
      var n := |ms| - 1;
      assert ([m] + ms)[..|ms|] == [m] + ms[..n] && ([m] + ms)[|ms|] == ms[n];
      VersionsCons(m, ms[..n]);
    }
  }

  lemma {:induction false} SortVersions(ms: seq<Migration>)
    ensures multiset(VersionsOf(Sort(ms))) == multiset(VersionsOf(ms))
    decreases |ms|
  {
    if ms != [] {
      var n := |ms| - 1;
      SortVersions(ms[..n]);
      InsertVersions(ms[n], Sort(ms[..n]));
    }
  }

  lemma RegistryIff(ms: seq<Migration>)
    ensures Registry(ms) <==> ms != [] && VersionsOf(ms) == UpTo(|ms|) && forall m | m in ms :: !Blank(m.name)
  {
    hide Blank, VersionsOf;
    VersionsLength(ms);
    forall i | 0 <= i < |ms| ensures VersionsOf(ms)[i] == ms[i].version {
      VersionAt(ms, i);
    }
    assert forall m :: m in ms <==> exists i :: 0 <= i < |ms| && ms[i] == m;
    assert UpTo(|ms|) == VersionsOf(ms) <==> forall i | 0 <= i < |ms| :: ms[i].version == i + 1;
  }

  /** A registry is accepted exactly if its versions are 1 to n, each once, and every name says something. */
  lemma ValidateIff(ms: seq<Migration>)
    ensures Validate(ms).Some? <==>
      ms != [] && multiset(VersionsOf(ms)) == multiset(UpTo(|ms|)) && forall m | m in ms :: !Blank(m.name)
  {
    hide Sort, Registry, VersionsOf, Blank;
    var sorted := Sort(ms);
    SortKeeps(ms);
    SortAscends(ms);
    SortVersions(ms);
    RegistryIff(sorted);
    assert |sorted| == |multiset(sorted)| == |multiset(ms)| == |ms|;
    assert forall m :: m in ms <==> m in multiset(ms);
    assert forall m :: m in sorted <==> m in multiset(sorted);
    if multiset(VersionsOf(ms)) == multiset(UpTo(|ms|)) {
      AscendingRises(sorted);
      RisingIsUnique(VersionsOf(sorted), UpTo(|ms|));
    }
  }

  lemma AscendingRises(ms: seq<Migration>)
    requires Ascending(ms)
    ensures Rising(VersionsOf(ms))
  {
    VersionsLength(ms);
    forall i, j | 0 <= i < j < |ms| ensures VersionsOf(ms)[i] <= VersionsOf(ms)[j] {
      VersionAt(ms, i);
      VersionAt(ms, j);
    }
  }

  // --------------------------------------------------------------- the runner

  /** Every recorded version is one of the registry, under its name. */
  predicate Recognised(history: map<int, Stamp>, ordered: seq<Migration>) {
    forall v | v in history :: 1 <= v <= |ordered| && ordered[v - 1].name == history[v].name
  }

  /** The history is exactly the first `k` versions. */
  predicate IsPrefix(history: map<int, Stamp>, ordered: seq<Migration>, k: nat) {
    k <= |ordered| && (forall v | v in history :: 1 <= v <= k)
    && forall v | 1 <= v <= k :: v in history && history[v].name == ordered[v - 1].name
  }

  /** The data after versions k + 1 to n. */
  function ApplyAll(ordered: seq<Migration>, b: Bootstrap, db: Db, k: nat, n: nat): Option<Db>
    requires k <= n <= |ordered|
    decreases n - k
  {
    if k == n then Some(db)
    else match ordered[k].apply(db, b) case None => None case Some(next) => ApplyAll(ordered, b, next, k + 1, n)
  }

  lemma {:induction false} ApplyTwice(ordered: seq<Migration>, b: Bootstrap, db: Db, k: nat, m: nat, n: nat)
    requires k <= m <= n <= |ordered|
    ensures ApplyAll(ordered, b, db, k, n) ==
      match ApplyAll(ordered, b, db, k, m) case None => None case Some(mid) => ApplyAll(ordered, b, mid, m, n)
    decreases m - k
  {
    if k < m {
      match ordered[k].apply(db, b)
      case None =>
      case Some(next) => ApplyTwice(ordered, b, next, k + 1, m, n);
    }
  }

  function Versions(from: int, to: int): seq<int>
    decreases to - from
  {
    if from >= to then [] else Versions(from, to - 1) + [to]
  }

  lemma {:induction false} MaxExists(vs: set<int>) returns (m: int)
    requires vs != {}
    ensures m in vs && forall v | v in vs :: v <= m
    decreases vs
  {
    SomeNumber(vs);
    var x :| x in vs;
    m := x;
    if vs != {x} {
      var r := MaxExists(vs - {x});
      if r > x { m := r; }
      assert forall v | v in vs :: v == x || v in vs - {x};
    }
  }

  /** The latest recorded version up to `n`, or 0. */
  function Latest(history: map<int, Stamp>, n: nat): (latest: nat)
    ensures latest <= n && (latest > 0 ==> latest in history) && forall v | v in history :: v <= latest || v > n
  {
    if n == 0 then (assert forall v | v in history :: v <= 0 || v > 0; 0) else if n in history then n
      else Latest(history, n - 1)
  }

  /** `max(applied, default=0)` */
  method Max(vs: set<int>) returns (m: int)
    ensures if vs == {} then m == 0 else m in vs && forall v | v in vs :: v <= m
  {
    if vs == {} { return 0; }
    ghost var witnessed := MaxExists(vs);
    m :| m in vs && forall v | v in vs :: v <= m;
  }

  /** The history with the versions `from` + 1 to `until` recorded. */
  function Recorded(history: map<int, Stamp>, ordered: seq<Migration>, clock: int -> string, from: int,
                    until: int): map<int, Stamp>
    requires 0 <= from <= until <= |ordered|
    decreases until - from
  {
    if from == until then history
    else Recorded(history, ordered, clock, from, until - 1)[until := Stamp(ordered[until - 1].name, clock(until))]
  }

  lemma {:induction false} RecordedAt(history: map<int, Stamp>, ordered: seq<Migration>, clock: int -> string,
                                      from: int, until: int, v: int)
    requires 0 <= from <= until <= |ordered|
    ensures v in Recorded(history, ordered, clock, from, until) <==> v in history || from < v <= until
    ensures v in Recorded(history, ordered, clock, from, until) ==>
      Recorded(history, ordered, clock, from, until)[v]
        == if from < v <= until then Stamp(ordered[v - 1].name, clock(v)) else history[v]
    decreases until - from
  {
    if from < until { RecordedAt(history, ordered, clock, from, until - 1, v); }
  }

  /** The versions after the latest recorded one are applied in order and recorded; a failure of one of
      them, or a history that is not of this build, is refused. */
  function Migrate(s: Store, b: Bootstrap, ms: seq<Migration>, clock: int -> string): Report {
    if !ValidBootstrap(b) || Validate(ms).None? || !Recognised(s.history, Validate(ms).value) then Refused
    else
      var ordered := Validate(ms).value;
      var k := Latest(s.history, |ordered|);
      match ApplyAll(ordered, b, s.db, k, |ordered|)
      case None => Refused
      case Some(db) => Migrated(Store(db, Recorded(s.history, ordered, clock, k, |ordered|)), |ordered|,
                                Versions(k, |ordered|))
  }

  /** `run_migrations` inside the caller's transaction. `clock` stamps each version. */
  method RunMigrations(s: Store, b: Bootstrap, ms: seq<Migration>, clock: int -> string) returns (r: Report)
    ensures r == Migrate(s, b, ms, clock)
  {
    hide Recognised, Validate, Registry;
    if !ValidBootstrap(b) { return Refused; }
    var valid := Validate(ms);
    if valid.None? { return Refused; }
    var ordered := valid.value;
    if !Recognised(s.history, ordered) { return Refused; }
    ValidatedVersions(ms);
    var applied := Max(s.history.Keys);
    MaxIsLatest(s.history, ordered, applied);
    var store, current, newly, n := s, applied, [], 0;
    while n < |ordered|
      invariant 0 <= n <= |ordered| && current == (if n <= applied then applied else n)
      invariant newly == Versions(applied, current) && ApplyAll(ordered, b, s.db, applied, current) == Some(store.db)
      invariant store.history == Recorded(s.history, ordered, clock, applied, current)
    {
      if ordered[n].version > current {
        assert ordered[n].version == current + 1;
        ApplyTwice(ordered, b, s.db, applied, n, n + 1);
        ApplyTwice(ordered, b, s.db, applied, n, |ordered|);
        var next := ordered[n].apply(store.db, b);
        if next.None? { return Refused; }
        store := Store(next.value, store.history[n + 1 := Stamp(ordered[n].name, clock(n + 1))]);
        current := n + 1;
        newly := newly + [n + 1];
      }
      n := n + 1;
    }
    r := Migrated(store, current, newly);
  }

  lemma MaxIsLatest(history: map<int, Stamp>, ordered: seq<Migration>, m: int)
    requires Recognised(history, ordered)
    requires if history.Keys == {} then m == 0 else m in history && forall v | v in history :: v <= m
    ensures m == Latest(history, |ordered|)
  {
  }

  lemma ValidatedVersions(ms: seq<Migration>)
    ensures Validate(ms).Some? ==>
      Registry(Validate(ms).value) && forall i | 0 <= i < |Validate(ms).value| :: Validate(ms).value[i].version == i + 1
  {
  }

  lemma RecordTwice(history: map<int, Stamp>, ordered: seq<Migration>, few: seq<Migration>, c: int -> string,
                    d: int -> string, k: int, j: int, n: int)
    requires 0 <= k <= j <= n <= |ordered| && few <= ordered && j == |few| && forall v | v in history :: v <= k
    ensures SameButTimes(Recorded(Recorded(history, few, c, k, j), ordered, d, j, n),
                         Recorded(history, ordered, d, k, n))
  {
    var first := Recorded(history, few, c, k, j);
    var second, once := Recorded(first, ordered, d, j, n), Recorded(history, ordered, d, k, n);
    forall v ensures (v in second <==> v in once) && (v in second ==> second[v].name == once[v].name) {
      RecordedAt(history, few, c, k, j, v);
      RecordedAt(first, ordered, d, j, n, v);
      RecordedAt(history, ordered, d, k, n, v);
    }
    assert second.Keys == once.Keys;
  }

  /** A run succeeds exactly if owner, grant and time of the bootstrap say something, the versions of the
      registry are 1 to n with names that say something, every recorded version is one of them under its
      name, and none of the versions after the latest recorded one fails. */
  lemma MigratesIff(s: Store, b: Bootstrap, ms: seq<Migration>, clock: int -> string)
    ensures Migrate(s, b, ms, clock).Migrated? <==>
      !Blank(b.owner) && !Blank(b.grant) && !Blank(b.createdAt)
      && ms != [] && multiset(VersionsOf(ms)) == multiset(UpTo(|ms|)) && (forall m | m in ms :: !Blank(m.name))
      && (forall v | v in s.history :: exists m | m in ms :: m.version == v && m.name == s.history[v].name)
      && var n := |Sort(ms)|; ApplyAll(Sort(ms), b, s.db, Latest(s.history, n), n).Some?
  {
    hide Sort, VersionsOf, Blank, Registry, Latest, ApplyAll, Recorded;
    ValidateIff(ms);
    SortKeeps(ms);
    if Validate(ms).Some? {
      ValidatedVersions(ms);
      assert forall m :: m in ms <==> m in multiset(ms);
      assert forall m :: m in Sort(ms) <==> m in multiset(Sort(ms));
      RecognisedIff(s.history, Sort(ms), ms);
    }
  }

  lemma RecognisedIff(history: map<int, Stamp>, ordered: seq<Migration>, ms: seq<Migration>)
    requires (forall i | 0 <= i < |ordered| :: ordered[i].version == i + 1) && forall m :: m in ordered <==> m in ms
    ensures Recognised(history, ordered)
      <==> forall v | v in history :: exists m | m in ms :: m.version == v && m.name == history[v].name
  {
    if Recognised(history, ordered) {
      forall v | v in history ensures exists m | m in ms :: m.version == v && m.name == history[v].name {
        assert ordered[v - 1] in ordered;
      }
    }
    if forall v | v in history :: exists m | m in ms :: m.version == v && m.name == history[v].name {
      forall v | v in history ensures 1 <= v <= |ordered| && ordered[v - 1].name == history[v].name {
        var m :| m in ms && m.version == v && m.name == history[v].name;
        assert m in ordered;
      }
    }
  }

  // ------------------------------------------------------------------ composition

  /** The first `j` migrations of a registry are a registry. */
  lemma PrefixValidates(ordered: seq<Migration>, j: nat)
    requires Registry(ordered) && 0 < j <= |ordered|
    ensures Validate(ordered) == Some(ordered) && Validate(ordered[..j]) == Some(ordered[..j])
  {
    SortOfSorted(ordered);
    SortOfSorted(ordered[..j]);
  }

  lemma {:induction false} InsertLast(m: Migration, sorted: seq<Migration>)
    requires forall i | 0 <= i < |sorted| :: sorted[i].version <= m.version
    ensures Insert(m, sorted) == sorted + [m]
    decreases |sorted|
  {
    if sorted != [] {
      InsertLast(m, sorted[1..]);
      assert sorted + [m] == [sorted[0]] + (sorted[1..] + [m]);
    }
  }

  lemma {:induction false} SortOfSorted(ms: seq<Migration>)
    requires Ascending(ms)
    ensures Sort(ms) == ms
    decreases |ms|
  {
    if ms != [] {
      var n := |ms| - 1;
      SortOfSorted(ms[..n]);
      InsertLast(ms[n], ms[..n]);
      assert ms == ms[..n] + [ms[n]];
    }
  }

  lemma {:induction false} SameApplications(ordered: seq<Migration>, few: seq<Migration>, b: Bootstrap, db: Db, k: nat,
                                            n: nat)
    requires k <= n <= |few| && few <= ordered
    ensures ApplyAll(few, b, db, k, n) == ApplyAll(ordered, b, db, k, n)
    decreases n - k
  {
    if k < n {
      match few[k].apply(db, b)
      case None =>
      case Some(next) => SameApplications(ordered, few, b, next, k + 1, n);
    }
  }

  predicate SameButTimes(h: map<int, Stamp>, g: map<int, Stamp>) {
    h.Keys == g.Keys && forall v | v in h :: h[v].name == g[v].name
  }

  /** Where the second run starts: the history of the first one is of this build, with its last version. */
  lemma RecordedIsRecognised(history: map<int, Stamp>, ordered: seq<Migration>, clock: int -> string)
    requires Recognised(history, ordered)
    ensures var after := Recorded(history, ordered, clock, Latest(history, |ordered|), |ordered|);
      Recognised(after, ordered) && Latest(after, |ordered|) == |ordered|
  {
    var k, n := Latest(history, |ordered|), |ordered|;
    var after := Recorded(history, ordered, clock, k, n);
    forall v ensures v in after <==> v in history || k < v <= n
      ensures v in after ==> 1 <= v <= n && ordered[v - 1].name == after[v].name
    {
      RecordedAt(history, ordered, clock, k, n, v);
    }
    if n > 0 { assert n in after; }
  }

  lemma RecognisedByMore(history: map<int, Stamp>, few: seq<Migration>, ordered: seq<Migration>)
    requires few <= ordered && Recognised(history, few)
    ensures Recognised(history, ordered) && Latest(history, |few|) == Latest(history, |ordered|)
    ensures forall v | v in history :: v <= Latest(history, |few|)
  {
  }

  /** Migrating by the first `j` versions of a registry and then by all of them ends as migrating by all
      at once: the same success, data and history, whatever the times of application. */
  lemma PrefixThenAll(s: Store, b: Bootstrap, ordered: seq<Migration>, j: nat, c: int -> string, d: int -> string)
    requires Registry(ordered) && 0 < j <= |ordered| && Recognised(s.history, ordered[..j])
    ensures var first := Migrate(s, b, ordered[..j], c);
      var second := if first.Migrated? then Migrate(first.store, b, ordered, d) else Refused;
      var once := Migrate(s, b, ordered, d);
      (once.Migrated? <==> second.Migrated?)
      && (once.Migrated? ==> second.store.db == once.store.db && SameButTimes(second.store.history, once.store.history)
                             && second.current == once.current && once.newly == first.newly + second.newly)
  {
    hide Recorded, Validate, Registry, Recognised, SameButTimes;
    var k, few := Latest(s.history, j), ordered[..j];
    PrefixValidates(ordered, j);
    RecognisedByMore(s.history, few, ordered);
    RecordedIsRecognised(s.history, few, c);
    RecognisedByMore(Recorded(s.history, few, c, k, j), few, ordered);
    SameApplications(ordered, few, b, s.db, k, j);
    ApplyTwice(ordered, b, s.db, k, j, |ordered|);
    VersionsAppend(k, j, |ordered|);
    RecordTwice(s.history, ordered, few, c, d, k, j, |ordered|);
  }

  lemma {:induction false} VersionsAppend(k: int, j: int, n: int)
    requires k <= j <= n
    ensures Versions(k, n) == Versions(k, j) + Versions(j, n)
    decreases n - j
  {
    if j < n { VersionsAppend(k, j, n - 1); }
  }

  /** A second run applies nothing and changes nothing. */
  lemma RerunIsIdle(s: Store, b: Bootstrap, ms: seq<Migration>, c: int -> string, d: int -> string)
    requires Migrate(s, b, ms, c).Migrated?
    ensures var first := Migrate(s, b, ms, c);
      Migrate(first.store, b, ms, d) == Migrated(first.store, first.current, [])
  {
    hide Validate, Recognised;
    var ordered := Validate(ms).value;
    RecordedIsRecognised(s.history, ordered, c);
  }

  /** A migrated database has every version recorded by name exactly if the versions it had before were
      the first ones: a version that is missing below the latest one is never applied. */
  lemma CompleteIff(s: Store, b: Bootstrap, ms: seq<Migration>, clock: int -> string)
    requires Migrate(s, b, ms, clock).Migrated?
    ensures var ordered := Validate(ms).value;
      IsPrefix(Migrate(s, b, ms, clock).store.history, ordered, |ordered|)
      <==> IsPrefix(s.history, ordered, Latest(s.history, |ordered|))
  {
    hide Validate, Versions, ApplyAll;
    var ordered := Validate(ms).value;
    var k := Latest(s.history, |ordered|);
    PrefixIffRecorded(s.history, ordered, clock, k);
  }

  lemma PrefixIffRecorded(history: map<int, Stamp>, ordered: seq<Migration>, clock: int -> string, k: nat)
    requires k <= |ordered| && Recognised(history, ordered) && forall v | v in history :: v <= k
    ensures IsPrefix(Recorded(history, ordered, clock, k, |ordered|), ordered, |ordered|)
      <==> IsPrefix(history, ordered, k)
  {
    var after := Recorded(history, ordered, clock, k, |ordered|);
    forall v ensures v in after <==> v in history || k < v <= |ordered|
      ensures v in after && v <= k ==> v in history && after[v] == history[v]
      ensures k < v <= |ordered| ==> after[v].name == ordered[v - 1].name
    {
      RecordedAt(history, ordered, clock, k, |ordered|, v);
    }
  }
}
