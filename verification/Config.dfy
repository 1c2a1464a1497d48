/** The configuration file: a printer of shallow documents and the minimal reader of what it prints. */
module Config {
  import opened Schema

  datatype Value = Flag(flag: bool) | Number(number: int) | Text(text: string)

  /** A document as it is read. */
  datatype Item = Scalar(value: Value) | Table(entries: map<string, Value>)
  type Document = map<string, Item>

  /** A document as it is written: with the order in which a Python dict keeps its keys. */
  datatype Pair = Pair(key: string, value: Value)
  datatype Node = One(value: Value) | Many(pairs: seq<Pair>)
  datatype Entry = Entry(key: string, node: Node)

  /** Decimal notation: `str` and `int`. */
  datatype Numerals = Numerals(show: int -> string, read: string -> Option<int>)

  predicate IsDigit(c: char) { '0' <= c <= '9' || c == '-' }

  ghost predicate Faithful(x: Numerals) {
    forall n ::
      x.read(x.show(n)) == Some(n) && x.show(n) != "" && forall i | 0 <= i < |x.show(n)| :: IsDigit(x.show(n)[i])
  }

  // -------------------------------------------------------------------- lines

  /** Where `str.splitlines` breaks a line. */
  predicate IsBreak(c: char) {
    '\n' <= c <= '\r' || '\U{1c}' <= c <= '\U{1e}' || c == '\U{85}' || c == '\U{2028}' || c == '\U{2029}'
  }

  predicate Unbroken(s: string) {
    forall i | 0 <= i < |s| :: !IsBreak(s[i])
  }

  /** `s.splitlines()` */
  function SplitLines(s: string): seq<string>
    decreases |s|
  {
    if s == [] then []
    else if IsBreak(s[0]) then [""] + SplitLines(if s[0] == '\r' && |s| > 1 && s[1] == '\n' then s[2..] else s[1..])
    else
      var rest := SplitLines(s[1..]);
      if rest == [] then [[s[0]]] else [[s[0]] + rest[0]] + rest[1..]
  }

  /** `"\\n".join(lines) + "\\n"` */
  function JoinLines(lines: seq<string>): string
    decreases |lines|
  {
    if lines == [] then "" else lines[0] + "\n" + JoinLines(lines[1..])
  }

  lemma {:induction false} LinesAreUnbroken(s: string)
    ensures forall i | 0 <= i < |SplitLines(s)| :: Unbroken(SplitLines(s)[i])
    decreases |s|
  {
    if s != [] {
      if IsBreak(s[0]) {
        LinesAreUnbroken(if s[0] == '\r' && |s| > 1 && s[1] == '\n' then s[2..] else s[1..]);
      } else {
        LinesAreUnbroken(s[1..]);
      }
    }
  }

  lemma {:induction false} SplitFirstLine(line: string, t: string)
    requires Unbroken(line)
    ensures SplitLines(line + "\n" + t) == [line] + SplitLines(t)
    decreases |line|
  {
    var s := line + "\n" + t;
    if line == [] {
      assert s[1..] == t;
    } else {
      assert s[0] == line[0] && s[1..] == line[1..] + "\n" + t;
      assert forall i | 0 <= i < |line[1..]| :: line[1..][i] == line[i + 1];
      SplitFirstLine(line[1..], t);
      assert [line[0]] + line[1..] == line;
    }
  }

  lemma {:induction false} SplitJoined(lines: seq<string>)
    requires forall i | 0 <= i < |lines| :: Unbroken(lines[i])
    ensures SplitLines(JoinLines(lines)) == lines
    decreases |lines|
  {
    if lines != [] {
      SplitJoined(lines[1..]);
      SplitFirstLine(lines[0], JoinLines(lines[1..]));
      assert [lines[0]] + lines[1..] == lines;
    }
  }

  // ---------------------------------------------------------------- stripping

  function StripLeft(s: string): string
    decreases |s|
  {
    if s != [] && IsSpace(s[0]) then StripLeft(s[1..]) else s
  }

  function StripRight(s: string): string
    decreases |s|
  {
    if s != [] && IsSpace(s[|s| - 1]) then StripRight(s[..|s| - 1]) else s
  }

  function Strip(s: string): string { StripRight(StripLeft(s)) }

  predicate Trimmed(s: string) {
    s != [] ==> !IsSpace(s[0]) && !IsSpace(s[|s| - 1])
  }

  lemma StripTrimmed(s: string)
    requires Trimmed(s)
    ensures Strip(s) == s && Strip(s + " ") == s && Strip(" " + s) == s
  {
    assert (s + " ")[..|s|] == s && (" " + s)[1..] == s;
    if s == [] {
      assert s + " " == " " && " " + s == " ";
      assert StripLeft(" ") == StripLeft("");
    }
  }

  lemma {:induction false} StripKeepsUnbroken(s: string)
    requires Unbroken(s)
    ensures Unbroken(StripLeft(s)) && Unbroken(StripRight(s))
    decreases |s|
  {
    if s != [] {
      StripKeepsUnbroken(s[1..]);
      StripKeepsUnbroken(s[..|s| - 1]);
    }
  }

  // ----------------------------------------------------------------- escaping

  /** `s.replace(c, w)` for a single character `c`. */
  function Expand(s: string, c: char, w: string): string
    decreases |s|
  {
    if s == [] then [] else (if s[0] == c then w else [s[0]]) + Expand(s[1..], c, w)
  }

  /** `s.replace(a + b, r)` for single characters. */
  function Squeeze(s: string, a: char, b: char, r: char): string
    decreases |s|
  {
    if |s| < 2 then s
    else if s[0] == a && s[1] == b then [r] + Squeeze(s[2..], a, b, r)
    else [s[0]] + Squeeze(s[1..], a, b, r)
  }

  function Escape(s: string): string { Expand(Expand(s, '\\', "\\\\"), '"', "\\\"") }

  function Unescape(s: string): string { Squeeze(Squeeze(s, '\\', '"', '"'), '\\', '\\', '\\') }

  lemma SqueezeHits(rest: string, a: char, b: char, r: char)
    ensures Squeeze([a, b] + rest, a, b, r) == [r] + Squeeze(rest, a, b, r)
  {
    assert ([a, b] + rest)[2..] == rest;
  }

  lemma SqueezePasses(c: char, rest: string, a: char, b: char, r: char)
    requires c == a && rest != [] ==> rest[0] != b
    ensures Squeeze([c] + rest, a, b, r) == [c] + Squeeze(rest, a, b, r)
  {
    assert ([c] + rest)[1..] == rest;
  }

  lemma {:induction false} BackslashesBack(s: string)
    ensures Squeeze(Expand(s, '\\', "\\\\"), '\\', '\\', '\\') == s
    decreases |s|
  {
    hide Squeeze;
    if s == [] {
      SqueezeNothing('\\', '\\', '\\');
    } else {
      BackslashesBack(s[1..]);
      var rest := Expand(s[1..], '\\', "\\\\");
      assert s == [s[0]] + s[1..];
      if s[0] == '\\' {
        SqueezeHits(rest, '\\', '\\', '\\');
      } else {
        SqueezePasses(s[0], rest, '\\', '\\', '\\');
      }
    }
  }

  lemma {:induction false} QuotesBack(s: string)
    ensures Squeeze(Expand(s, '"', "\\\""), '\\', '"', '"') == s
    decreases |s|
  {
    hide Squeeze;
    if s == [] {
      SqueezeNothing('\\', '"', '"');
    } else {
      QuotesBack(s[1..]);
      var rest := Expand(s[1..], '"', "\\\"");
      assert s == [s[0]] + s[1..];
      if s[0] == '"' {
        SqueezeHits(rest, '\\', '"', '"');
      } else {
        NoBareQuote(s[1..]);
        SqueezePasses(s[0], rest, '\\', '"', '"');
      }
    }
  }

  lemma SqueezeNothing(a: char, b: char, r: char)
    ensures Squeeze([], a, b, r) == []
  {
  }

  lemma NoBareQuote(s: string)
    ensures var e := Expand(s, '"', "\\\""); e != [] ==> e[0] != '"'
  {
  }

  /** The two passes of the reader take back the two passes of the printer. */
  lemma UnescapeEscape(s: string)
    ensures Unescape(Escape(s)) == s
  {
    QuotesBack(Expand(s, '\\', "\\\\"));
    BackslashesBack(s);
  }

  lemma {:induction false} ExpandUnbroken(s: string, c: char, w: string)
    requires Unbroken(w) && Unbroken(s)
    ensures Unbroken(Expand(s, c, w))
    decreases |s|
  {
    if s != [] { ExpandUnbroken(s[1..], c, w); }
  }

  lemma {:induction false} SqueezeUnbroken(s: string, a: char, b: char, r: char)
    requires Unbroken(s) && !IsBreak(r)
    ensures Unbroken(Squeeze(s, a, b, r))
    decreases |s|
  {
    if |s| >= 2 {
      SqueezeUnbroken(s[1..], a, b, r);
      SqueezeUnbroken(s[2..], a, b, r);
    }
  }

  // ------------------------------------------------------------------- values

  /** `_toml_value` */
  function ShowValue(x: Numerals, v: Value): string {
    match v
    case Flag(b) => if b then "true" else "false"
    case Number(n) => x.show(n)
    case Text(t) => "\"" + Escape(t) + "\""
  }

  function ReadValue(x: Numerals, s: string): Value {
    if s == "true" then Flag(true)
    else if s == "false" then Flag(false)
    else if s != "" && s[0] == '"' && s[|s| - 1] == '"' then Text(Unescape(if |s| < 2 then "" else s[1..|s| - 1]))
    else match x.read(s) case Some(n) => Number(n) case None => Text(s)
  }

  predicate CleanValue(v: Value) { v.Text? ==> Unbroken(v.text) }

  lemma ShownValue(x: Numerals, v: Value)
    requires Faithful(x)
    ensures ReadValue(x, ShowValue(x, v)) == v && ShowValue(x, v) != "" && Trimmed(ShowValue(x, v))
    ensures CleanValue(v) ==> Unbroken(ShowValue(x, v))
  {
    match v
    case Flag(b) =>
    case Number(n) =>
      var s := x.show(n);
      assert IsDigit(s[0]) && s[0] != 't' && s[0] != 'f' && s[0] != '"' && !IsSpace(s[0]);
      assert IsDigit(s[|s| - 1]) && !IsSpace(s[|s| - 1]);
    case Text(t) =>
      var s := ShowValue(x, v);
      assert s[0] == '"' && s[|s| - 1] == '"' && s[1..|s| - 1] == Escape(t);
      UnescapeEscape(t);
      if Unbroken(t) {
        ExpandUnbroken(t, '\\', "\\\\");
        ExpandUnbroken(Expand(t, '\\', "\\\\"), '"', "\\\"");
      }
  }

  /** What the reader takes a value for, whoever wrote it: between quotes a text, else a flag, a number, or
      the text as it stands. */
  lemma ValuesRead(x: Numerals, body: string, s: string)
    ensures ReadValue(x, "\"" + body + "\"") == Text(Unescape(body)) && ReadValue(x, "\"") == Text("")
    ensures ReadValue(x, "true") == Flag(true) && ReadValue(x, "false") == Flag(false)
    ensures s != "true" && s != "false" && (s == "" || s[0] != '"' || s[|s| - 1] != '"') ==>
      ReadValue(x, s) == if x.read(s) == None then Text(s) else Number(x.read(s).value)
  {
    var quoted := "\"" + body + "\"";
    assert quoted[0] == '"' && quoted[|quoted| - 1] == '"' && quoted[1..|quoted| - 1] == body;
  }

  // --------------------------------------------------------------------- keys

  predicate IsKeyChar(c: char) {
    'A' <= c <= 'Z' || 'a' <= c <= 'z' || '0' <= c <= '9' || c == '_' || c == '-'
  }

  predicate IsPlainKey(k: string) {
    k != [] && forall i | 0 <= i < |k| :: IsKeyChar(k[i])
  }

  /** `_TOML_KEY.match`: its `$` also matches before a final line feed. */
  predicate AcceptsKey(k: string) {
    IsPlainKey(k) || (k != [] && k[|k| - 1] == '\n' && IsPlainKey(k[..|k| - 1]))
  }

  /** The characters of keys, and those that break a line, by their numbers. */
  lemma CharactersAre(c: char)
    ensures IsKeyChar(c) <==> 65 <= c as int <= 90 || 97 <= c as int <= 122 || 48 <= c as int <= 57 || c in "_-"
    ensures IsBreak(c) <==> c as int in {10, 11, 12, 13, 28, 29, 30, 133, 8232, 8233}
  {
  }

  predicate IsKeyFrom(k: string, plain: string) {
    plain != "" && (forall c | c in plain :: IsKeyChar(c)) && (k == plain || k == plain + "\n")
  }

  /** A key is one or more of its characters, and a line feed may follow. */
  lemma AcceptsKeyIff(k: string)
    ensures AcceptsKey(k) <==> exists plain :: IsKeyFrom(k, plain)
  {
    if IsPlainKey(k) { assert IsKeyFrom(k, k); }
    if k != [] && k[|k| - 1] == '\n' && IsPlainKey(k[..|k| - 1]) { assert IsKeyFrom(k, k[..|k| - 1]); }
    if plain :| IsKeyFrom(k, plain) {
      assert IsPlainKey(plain) && (k == plain + "\n" ==> k[..|k| - 1] == plain);
    }
  }

  lemma PlainIffUnbroken(k: string)
    requires AcceptsKey(k)
    ensures IsPlainKey(k) <==> Unbroken(k)
  {
  }

  // ------------------------------------------------------------------ printing

  function Line(x: Numerals, p: Pair): string { p.key + " = " + ShowValue(x, p.value) }

  function Lines(x: Numerals, pairs: seq<Pair>): seq<string>
    decreases |pairs|
  {
    if pairs == [] then [] else [Line(x, pairs[0])] + Lines(x, pairs[1..])
  }

  /** The entries outside of tables. */
  function Scalars(entries: seq<Entry>): seq<Pair>
    decreases |entries|
  {
    if entries == [] then []
    else (if entries[0].node.One? then [Pair(entries[0].key, entries[0].node.value)] else []) + Scalars(entries[1..])
  }

  function TableLines(x: Numerals, entries: seq<Entry>): seq<string>
    decreases |entries|
  {
    if entries == [] then []
    else (if entries[0].node.Many? then ["", "[" + entries[0].key + "]"] + Lines(x, entries[0].node.pairs) else [])
         + TableLines(x, entries[1..])
  }

  /** The lines at the top of the file are comments or empty. */
  predicate IsHeader(header: seq<string>) {
    forall i | 0 <= i < |header| :: Unbroken(header[i]) && (header[i] == "" || header[i][0] == '#')
  }

  predicate AcceptsPairs(pairs: seq<Pair>) {
    forall i | 0 <= i < |pairs| :: AcceptsKey(pairs[i].key)
  }

  predicate Accepts(entries: seq<Entry>) {
    forall i | 0 <= i < |entries| ::
      AcceptsKey(entries[i].key) && (entries[i].node.Many? ==> AcceptsPairs(entries[i].node.pairs))
  }

  lemma AcceptsBoth(entries: seq<Entry>)
    ensures Accepts(entries) <==>
      (forall i | 0 <= i < |entries| :: AcceptsOne(entries[i]))
        && forall i | 0 <= i < |entries| :: AcceptsMany(entries[i])
  {
  }

  function Render(x: Numerals, header: seq<string>, entries: seq<Entry>): string {
    JoinLines(header + Lines(x, Scalars(entries)) + TableLines(x, entries))
  }

  // ------------------------------------------------------------------- reading

  /** `s.partition("=")` without the separator. */
  function Partition(s: string): (string, string)
    decreases |s|
  {
    if s == [] then ("", "")
    else if s[0] == '=' then ("", s[1..])
    else var rest := Partition(s[1..]); ([s[0]] + rest.0, rest.1)
  }

  /** Where the reader stands: in the document itself or in one of its tables. */
  datatype Reader = Reader(doc: Document, table: Option<string>)

  /** `table[key] = value`; a scalar cannot be assigned to. */
  function Assign(r: Reader, key: string, v: Value): Option<Reader> {
    match r.table
    case None => Some(r.(doc := r.doc[key := Scalar(v)]))
    case Some(name) =>
      if name in r.doc && r.doc[name].Table?
      then Some(r.(doc := r.doc[name := Table(r.doc[name].entries[key := v])])) else None
  }

  function ReadLine(x: Numerals, r: Reader, raw: string): Option<Reader> {
    var line := Strip(raw);
    if line == "" || line[0] == '#' then Some(r)
    else if line[0] == '[' && line[|line| - 1] == ']' then
      var name := Strip(if |line| < 2 then "" else line[1..|line| - 1]);
      Some(Reader(if name in r.doc then r.doc else r.doc[name := Table(map[])], Some(name)))
    else
      var parts := Partition(line);
      Assign(r, Strip(parts.0), ReadValue(x, Strip(parts.1)))
  }

  function ReadLines(x: Numerals, r: Reader, lines: seq<string>): Option<Reader>
    decreases |lines|
  {
    if lines == [] then Some(r)
    else match ReadLine(x, r, lines[0]) case None => None case Some(next) => ReadLines(x, next, lines[1..])
  }

  function Parse(x: Numerals, text: string): Option<Document> {
    match ReadLines(x, Reader(map[], None), SplitLines(text)) case None => None case Some(r) => Some(r.doc)
  }

  // ------------------------------------------------------ what a document means

  function Fill(t: map<string, Value>, pairs: seq<Pair>): map<string, Value>
    decreases |pairs|
  {
    if pairs == [] then t else Fill(t[pairs[0].key := pairs[0].value], pairs[1..])
  }

  function ItemOf(n: Node): Item {
    match n case One(v) => Scalar(v) case Many(pairs) => Table(Fill(map[], pairs))
  }

  function PutAll(d: Document, entries: seq<Entry>): Document
    decreases |entries|
  {
    if entries == [] then d else PutAll(d[entries[0].key := ItemOf(entries[0].node)], entries[1..])
  }

  /** The dict that the entries spell out. */
  function ToDocument(entries: seq<Entry>): Document { PutAll(map[], entries) }

  predicate DistinctPairs(pairs: seq<Pair>) {
    forall i, j | 0 <= i < j < |pairs| :: pairs[i].key != pairs[j].key
  }

  predicate DistinctEntries(entries: seq<Entry>) {
    forall i, j | 0 <= i < j < |entries| :: entries[i].key != entries[j].key
  }

  /** Keys are unique, as in any dict. */
  predicate IsDict(entries: seq<Entry>) {
    DistinctEntries(entries)
      && forall i | 0 <= i < |entries| :: entries[i].node.Many? ==> DistinctPairs(entries[i].node.pairs)
  }

  predicate CleanPairs(pairs: seq<Pair>) {
    forall i | 0 <= i < |pairs| :: Unbroken(pairs[i].key) && CleanValue(pairs[i].value)
  }

  predicate CleanNode(n: Node) {
    match n case One(v) => CleanValue(v) case Many(pairs) => CleanPairs(pairs)
  }

  /** No key and no string contains a line separator. */
  predicate Clean(entries: seq<Entry>) {
    forall i | 0 <= i < |entries| :: Unbroken(entries[i].key) && CleanNode(entries[i].node)
  }

  // ------------------------------------------------------------- reading back

  /** What stands before the first equals sign and after it; without one there is no value. */
  lemma {:induction false} PartitionAt(a: string, b: string)
    requires '=' !in a
    ensures Partition(a + "=" + b) == (a, b) && Partition(a) == (a, "")
    decreases |a|
  {
    var s := a + "=" + b;
    if a == [] {
      assert s[1..] == b;
    } else {
      assert a[0] in a && s[0] == a[0] && s[1..] == a[1..] + "=" + b;
      PartitionAt(a[1..], b);
      assert [a[0]] + a[1..] == a;
    }
  }

  lemma PlainKeyIsPlain(k: string)
    requires IsPlainKey(k)
    ensures Trimmed(k) && Unbroken(k) && '=' !in k && k[0] != '#' && k[0] != '['
  {
    assert IsKeyChar(k[0]) && IsKeyChar(k[|k| - 1]);
  }

  lemma LineIsAssigned(x: Numerals, r: Reader, p: Pair)
    requires Faithful(x) && IsPlainKey(p.key)
    ensures ReadLine(x, r, Line(x, p)) == Assign(r, p.key, p.value)
  {
    hide Faithful, ReadValue, Strip, Partition;
    var v, line := ShowValue(x, p.value), Line(x, p);
    PlainKeyIsPlain(p.key);
    ShownValue(x, p.value);
    assert line[0] == p.key[0] && line[|line| - 1] == v[|v| - 1];
    StripTrimmed(line);
    assert line == (p.key + " ") + "=" + (" " + v);
    PartitionAt(p.key + " ", " " + v);
    StripTrimmed(p.key);
    StripTrimmed(v);
  }

  lemma {:induction false} ReadAppend(x: Numerals, r: Reader, a: seq<string>, b: seq<string>)
    ensures ReadLines(x, r, a + b) == match ReadLines(x, r, a) case None => None case Some(q) => ReadLines(x, q, b)
    decreases |a|
  {
    hide ReadLine;
    if a == [] {
      assert a + b == b;
    } else {
      assert (a + b)[0] == a[0] && (a + b)[1..] == a[1..] + b;
      match ReadLine(x, r, a[0]) case None => case Some(q) => ReadAppend(x, q, a[1..], b);
    }
  }

  predicate Plain(pairs: seq<Pair>) {
    forall i | 0 <= i < |pairs| :: IsPlainKey(pairs[i].key)
  }

  function PutScalars(d: Document, pairs: seq<Pair>): Document
    decreases |pairs|
  {
    if pairs == [] then d else PutScalars(d[pairs[0].key := Scalar(pairs[0].value)], pairs[1..])
  }

  lemma {:induction false} ScalarLinesRead(x: Numerals, d: Document, pairs: seq<Pair>)
    requires Faithful(x) && Plain(pairs)
    ensures ReadLines(x, Reader(d, None), Lines(x, pairs)) == Some(Reader(PutScalars(d, pairs), None))
    decreases |pairs|
  {
    hide Faithful, ReadLine;
    if pairs != [] {
      LineIsAssigned(x, Reader(d, None), pairs[0]);
      ScalarLinesRead(x, d[pairs[0].key := Scalar(pairs[0].value)], pairs[1..]);
    }
  }

  lemma {:induction false} TableLinesRead(x: Numerals, d: Document, name: string, t: map<string, Value>,
                                          pairs: seq<Pair>)
    requires Faithful(x) && Plain(pairs)
    ensures ReadLines(x, Reader(d[name := Table(t)], Some(name)), Lines(x, pairs))
         == Some(Reader(d[name := Table(Fill(t, pairs))], Some(name)))
    decreases |pairs|
  {
    hide Faithful, ReadLine;
    if pairs != [] {
      var r, p := Reader(d[name := Table(t)], Some(name)), pairs[0];
      LineIsAssigned(x, r, p);
      assert d[name := Table(t)][name := Table(t[p.key := p.value])] == d[name := Table(t[p.key := p.value])];
      TableLinesRead(x, d, name, t[p.key := p.value], pairs[1..]);
    }
  }

  lemma NamedTableOpens(x: Numerals, r: Reader, name: string)
    requires IsPlainKey(name) && name !in r.doc
    ensures ReadLine(x, r, "[" + name + "]") == Some(Reader(r.doc[name := Table(map[])], Some(name)))
    ensures ReadLine(x, r, "") == Some(r)
  {
    var line := "[" + name + "]";
    assert line[0] == '[' && line[|line| - 1] == ']' && line[1..|line| - 1] == name;
    StripTrimmed(line);
    PlainKeyIsPlain(name);
    StripTrimmed(name);
  }

  function PutTables(d: Document, entries: seq<Entry>): Document
    decreases |entries|
  {
    if entries == [] then d
    else PutTables(if entries[0].node.Many? then d[entries[0].key := ItemOf(entries[0].node)] else d, entries[1..])
  }

  predicate PlainEntries(entries: seq<Entry>) {
    forall i | 0 <= i < |entries| ::
      IsPlainKey(entries[i].key) && (entries[i].node.Many? ==> Plain(entries[i].node.pairs))
  }

  lemma {:induction false} TablesRead(x: Numerals, r: Reader, entries: seq<Entry>) returns (table: Option<string>)
    requires Faithful(x) && PlainEntries(entries) && DistinctEntries(entries)
    requires forall i | 0 <= i < |entries| :: entries[i].node.Many? ==> entries[i].key !in r.doc
    ensures ReadLines(x, r, TableLines(x, entries)) == Some(Reader(PutTables(r.doc, entries), table))
    decreases |entries|
  {
    hide Faithful, ReadLine, IsPlainKey;
    table := r.table;
    if entries != [] {
      var e, rest := entries[0], entries[1..];
      if e.node.Many? {
        var body := Lines(x, e.node.pairs);
        NamedTableOpens(x, r, e.key);
        TableLinesRead(x, r.doc, e.key, map[], e.node.pairs);
        var next := Reader(r.doc[e.key := ItemOf(e.node)], Some(e.key));
        HeadThenBody(x, r, e.key, body, next);
        table := TablesRead(x, next, rest);
        ReadAppend(x, r, ["", "[" + e.key + "]"] + body, TableLines(x, rest));
      } else {
        assert TableLines(x, entries) == TableLines(x, rest);
        table := TablesRead(x, r, rest);
      }
    }
  }

  lemma HeadThenBody(x: Numerals, r: Reader, name: string, body: seq<string>, next: Reader)
    requires ReadLine(x, r, "") == Some(r)
    requires ReadLine(x, r, "[" + name + "]") == Some(Reader(r.doc[name := Table(map[])], Some(name)))
    requires ReadLines(x, Reader(r.doc[name := Table(map[])], Some(name)), body) == Some(next)
    ensures ReadLines(x, r, ["", "[" + name + "]"] + body) == Some(next)
  {
    hide ReadLine;
    var head := "[" + name + "]";
    var lines := ["", head] + body;
    assert lines[0] == "" && lines[1..] == [head] + body;
    assert ([head] + body)[0] == head && ([head] + body)[1..] == body;
  }

  lemma {:induction false} ScalarsCommute(d: Document, pairs: seq<Pair>, k: string, i: Item)
    requires forall n | 0 <= n < |pairs| :: pairs[n].key != k
    ensures PutScalars(d[k := i], pairs) == PutScalars(d, pairs)[k := i]
    decreases |pairs|
  {
    if pairs != [] {
      var p := pairs[0];
      assert d[k := i][p.key := Scalar(p.value)] == d[p.key := Scalar(p.value)][k := i];
      ScalarsCommute(d[p.key := Scalar(p.value)], pairs[1..], k, i);
    }
  }

  lemma {:induction false} ScalarKeys(entries: seq<Entry>, n: nat)
    requires n < |Scalars(entries)|
    ensures exists i ::
      0 <= i < |entries| && entries[i].key == Scalars(entries)[n].key
        && entries[i].node == One(Scalars(entries)[n].value)
    decreases |entries|
  {
    var e, rest := entries[0], Scalars(entries[1..]);
    if e.node.One? && n == 0 {
      assert entries[0].node == One(Scalars(entries)[n].value);
    } else {
      var m := if e.node.One? then n - 1 else n;
      assert Scalars(entries)[n] == rest[m];
      ScalarKeys(entries[1..], m);
      var i :| 0 <= i < |entries[1..]| && entries[1..][i].key == rest[m].key
          && entries[1..][i].node == One(rest[m].value);
      assert entries[i + 1] == entries[1..][i];
    }
  }

  /** Scalars first and tables after them make the same dict as the original order. */
  lemma {:induction false} OrderIsIrrelevant(d: Document, entries: seq<Entry>)
    requires DistinctEntries(entries)
    ensures PutTables(PutScalars(d, Scalars(entries)), entries) == PutAll(d, entries)
    decreases |entries|
  {
    if entries != [] {
      var e, rest := entries[0], entries[1..];
      OrderIsIrrelevant(d[e.key := ItemOf(e.node)], rest);
      if e.node.One? {
        assert Scalars(entries)[1..] == Scalars(rest);
      } else {
        assert Scalars(entries) == Scalars(rest);
        forall n | 0 <= n < |Scalars(rest)| ensures Scalars(rest)[n].key != e.key {
          ScalarKeys(rest, n);
        }
        ScalarsCommute(d, Scalars(rest), e.key, ItemOf(e.node));
      }
    }
  }

  lemma {:induction false} OnlyScalarKeys(d: Document, pairs: seq<Pair>, k: string)
    requires k in PutScalars(d, pairs) && k !in d
    ensures exists n :: 0 <= n < |pairs| && pairs[n].key == k
    decreases |pairs|
  {
    var next := d[pairs[0].key := Scalar(pairs[0].value)];
    if pairs[0].key != k {
      OnlyScalarKeys(next, pairs[1..], k);
      var n :| 0 <= n < |pairs[1..]| && pairs[1..][n].key == k;
      assert pairs[n + 1].key == k;
    }
  }

  lemma TablesAreNew(entries: seq<Entry>, i: nat)
    requires DistinctEntries(entries) && i < |entries| && entries[i].node.Many?
    ensures entries[i].key !in PutScalars(map[], Scalars(entries))
  {
    if entries[i].key in PutScalars(map[], Scalars(entries)) {
      OnlyScalarKeys(map[], Scalars(entries), entries[i].key);
      var n :| 0 <= n < |Scalars(entries)| && Scalars(entries)[n].key == entries[i].key;
      ScalarKeys(entries, n);
    }
  }

  lemma {:induction false} StripRightKeepsFirst(s: string)
    requires s != [] && !IsSpace(s[0])
    ensures StripRight(s) != [] && StripRight(s)[0] == s[0]
    decreases |s|
  {
    if IsSpace(s[|s| - 1]) { StripRightKeepsFirst(s[..|s| - 1]); }
  }

  /** The header of a table opens it, and goes on with it if it is open already. */
  lemma HeaderReads(x: Numerals, r: Reader, name: string)
    ensures var key := Strip(name);
      ReadLine(x, r, "[" + name + "]")
      == Some(Reader(if key in r.doc then r.doc else r.doc[key := Table(map[])], Some(key)))
  {
    hide Strip;
    var line := "[" + name + "]";
    StripTrimmed(line);
    assert line[0] == '[' && line[|line| - 1] == ']' && line[1..|line| - 1] == name;
  }

  lemma HeaderIsSkipped(x: Numerals, r: Reader, header: seq<string>)
    requires IsHeader(header)
    ensures ReadLines(x, r, header) == Some(r)
  {
    forall i | 0 <= i < |header| ensures ReadLine(x, r, header[i]) == Some(r) {
      if header[i] != "" { StripRightKeepsFirst(header[i]); }
    }
    SkipAll(x, r, header);
  }

  lemma {:induction false} SkipAll(x: Numerals, r: Reader, lines: seq<string>)
    requires forall i | 0 <= i < |lines| :: ReadLine(x, r, lines[i]) == Some(r)
    ensures ReadLines(x, r, lines) == Some(r)
    decreases |lines|
  {
    hide ReadLine;
    if lines != [] {
      assert ReadLine(x, r, lines[0]) == Some(r);
      SkipAll(x, r, lines[1..]);
    }
  }

  predicate AllUnbroken(lines: seq<string>) {
    forall i | 0 <= i < |lines| :: Unbroken(lines[i])
  }

  lemma {:induction false} PairLinesUnbroken(x: Numerals, pairs: seq<Pair>)
    requires Faithful(x) && CleanPairs(pairs)
    ensures AllUnbroken(Lines(x, pairs))
    decreases |pairs|
  {
    hide Faithful;
    if pairs != [] {
      ShownValue(x, pairs[0].value);
      PairLinesUnbroken(x, pairs[1..]);
    }
  }

  lemma {:induction false} TableLinesUnbroken(x: Numerals, entries: seq<Entry>)
    requires Faithful(x) && Clean(entries)
    ensures AllUnbroken(TableLines(x, entries))
    decreases |entries|
  {
    hide Faithful;
    if entries != [] {
      TableLinesUnbroken(x, entries[1..]);
      if entries[0].node.Many? {
        assert CleanNode(entries[0].node);
        PairLinesUnbroken(x, entries[0].node.pairs);
      }
    }
  }

  lemma ScalarsClean(entries: seq<Entry>)
    requires Clean(entries)
    ensures CleanPairs(Scalars(entries))
  {
    forall n | 0 <= n < |Scalars(entries)|
      ensures Unbroken(Scalars(entries)[n].key) && CleanValue(Scalars(entries)[n].value)
    {
      ScalarKeys(entries, n);
      var i :| 0 <= i < |entries| && entries[i].key == Scalars(entries)[n].key
          && entries[i].node == One(Scalars(entries)[n].value);
      assert CleanNode(entries[i].node);
    }
  }

  lemma CleanIsPlain(entries: seq<Entry>)
    requires Accepts(entries) && Clean(entries)
    ensures PlainEntries(entries) && Plain(Scalars(entries))
  {
    forall i | 0 <= i < |entries|
      ensures IsPlainKey(entries[i].key) && (entries[i].node.Many? ==> Plain(entries[i].node.pairs))
    {
      PlainIffUnbroken(entries[i].key);
      assert CleanNode(entries[i].node);
      if entries[i].node.Many? {
        forall j | 0 <= j < |entries[i].node.pairs| ensures IsPlainKey(entries[i].node.pairs[j].key) {
          PlainIffUnbroken(entries[i].node.pairs[j].key);
        }
      }
    }
    forall n | 0 <= n < |Scalars(entries)| ensures IsPlainKey(Scalars(entries)[n].key) {
      ScalarKeys(entries, n);
    }
  }

  lemma CleanReadsBack(x: Numerals, header: seq<string>, entries: seq<Entry>)
    requires Faithful(x) && IsHeader(header) && Accepts(entries) && DistinctEntries(entries) && Clean(entries)
    ensures Parse(x, Render(x, header, entries)) == Some(ToDocument(entries))
  {
    hide Faithful, Accepts, Clean, ReadLine, ReadLines, Lines, TableLines, Scalars, PutScalars, PutTables, PutAll,
         SplitLines, JoinLines;
    var start, scalars := Reader(map[], None), Scalars(entries);
    var a, b := Lines(x, scalars), TableLines(x, entries);
    CleanIsPlain(entries);
    ScalarsClean(entries);
    PairLinesUnbroken(x, scalars);
    TableLinesUnbroken(x, entries);
    SplitJoined(header + a + b);
    HeaderIsSkipped(x, start, header);
    ReadAppend(x, start, header, a);
    ReadAppend(x, start, header + a, b);
    ScalarLinesRead(x, map[], scalars);
    forall i | 0 <= i < |entries| ensures entries[i].node.Many? ==> entries[i].key !in PutScalars(map[], scalars) {
      if entries[i].node.Many? { TablesAreNew(entries, i); }
    }
    var table := TablesRead(x, Reader(PutScalars(map[], scalars), None), entries);
    OrderIsIrrelevant(map[], entries);
  }

  // ------------------------------------------------------- what can be read at all

  predicate CleanTable(t: map<string, Value>) {
    forall k | k in t :: Unbroken(k) && CleanValue(t[k])
  }

  predicate CleanItem(i: Item) {
    match i case Scalar(v) => CleanValue(v) case Table(t) => CleanTable(t)
  }

  predicate CleanDocument(d: Document) {
    forall k | k in d :: Unbroken(k) && CleanItem(d[k])
  }

  lemma {:induction false} PartitionUnbroken(s: string)
    requires Unbroken(s)
    ensures Unbroken(Partition(s).0) && Unbroken(Partition(s).1)
    decreases |s|
  {
    if s != [] && s[0] != '=' { PartitionUnbroken(s[1..]); }
  }

  lemma ReadValueIsClean(x: Numerals, s: string)
    requires Unbroken(s)
    ensures CleanValue(ReadValue(x, s))
  {
    var inner := if |s| < 2 then "" else s[1..|s| - 1];
    SqueezeUnbroken(inner, '\\', '"', '"');
    SqueezeUnbroken(Squeeze(inner, '\\', '"', '"'), '\\', '\\', '\\');
  }

  lemma StripUnbroken(s: string)
    requires Unbroken(s)
    ensures Unbroken(Strip(s))
  {
    StripKeepsUnbroken(s);
    StripKeepsUnbroken(StripLeft(s));
  }

  lemma AssignIsClean(r: Reader, key: string, v: Value)
    requires CleanDocument(r.doc) && (r.table.Some? ==> Unbroken(r.table.value)) && Unbroken(key) && CleanValue(v)
    ensures Assign(r, key, v).Some? ==>
      CleanDocument(Assign(r, key, v).value.doc) && Assign(r, key, v).value.table == r.table
  {
    if r.table.Some? && r.table.value in r.doc && r.doc[r.table.value].Table? {
      assert CleanItem(r.doc[r.table.value]);
    }
  }

  lemma ReadLineIsClean(x: Numerals, r: Reader, raw: string)
    requires Unbroken(raw) && CleanDocument(r.doc) && (r.table.Some? ==> Unbroken(r.table.value))
    ensures var next := ReadLine(x, r, raw);
      next.Some? ==> CleanDocument(next.value.doc) && (next.value.table.Some? ==> Unbroken(next.value.table.value))
  {
    hide Strip, Partition, ReadValue, Assign;
    var line := Strip(raw);
    StripUnbroken(raw);
    var inner := if |line| < 2 then "" else line[1..|line| - 1];
    StripUnbroken(inner);
    PartitionUnbroken(line);
    StripUnbroken(Partition(line).0);
    StripUnbroken(Partition(line).1);
    ReadValueIsClean(x, Strip(Partition(line).1));
    AssignIsClean(r, Strip(Partition(line).0), ReadValue(x, Strip(Partition(line).1)));
  }

  lemma {:induction false} ReadLinesIsClean(x: Numerals, r: Reader, lines: seq<string>)
    requires AllUnbroken(lines) && CleanDocument(r.doc) && (r.table.Some? ==> Unbroken(r.table.value))
    ensures ReadLines(x, r, lines).Some? ==> CleanDocument(ReadLines(x, r, lines).value.doc)
    decreases |lines|
  {
    hide ReadLine, CleanDocument, Unbroken;
    if lines != [] {
      assert Unbroken(lines[0]);
      ReadLineIsClean(x, r, lines[0]);
      match ReadLine(x, r, lines[0]) case None => case Some(next) => ReadLinesIsClean(x, next, lines[1..]);
    }
  }

  /** No text at all reads as a document with a line separator in it. */
  lemma ParsedIsClean(x: Numerals, text: string)
    ensures Parse(x, text).Some? ==> CleanDocument(Parse(x, text).value)
  {
    LinesAreUnbroken(text);
    ReadLinesIsClean(x, Reader(map[], None), SplitLines(text));
  }

  lemma {:induction false} FillHolds(t: map<string, Value>, pairs: seq<Pair>, n: nat)
    requires n < |pairs| && DistinctPairs(pairs)
    ensures pairs[n].key in Fill(t, pairs) && Fill(t, pairs)[pairs[n].key] == pairs[n].value
    decreases |pairs|
  {
    if n == 0 {
      FillKeeps(t[pairs[0].key := pairs[0].value], pairs[1..], pairs[0].key);
    } else {
      FillHolds(t[pairs[0].key := pairs[0].value], pairs[1..], n - 1);
    }
  }

  lemma {:induction false} FillKeeps(t: map<string, Value>, pairs: seq<Pair>, k: string)
    requires k in t && forall i | 0 <= i < |pairs| :: pairs[i].key != k
    ensures k in Fill(t, pairs) && Fill(t, pairs)[k] == t[k]
    decreases |pairs|
  {
    if pairs != [] { FillKeeps(t[pairs[0].key := pairs[0].value], pairs[1..], k); }
  }

  lemma {:induction false} PutAllHolds(d: Document, entries: seq<Entry>, n: nat)
    requires n < |entries| && DistinctEntries(entries)
    ensures entries[n].key in PutAll(d, entries) && PutAll(d, entries)[entries[n].key] == ItemOf(entries[n].node)
    decreases |entries|
  {
    var next := d[entries[0].key := ItemOf(entries[0].node)];
    if n == 0 {
      PutAllKeeps(next, entries[1..], entries[0].key);
    } else {
      PutAllHolds(next, entries[1..], n - 1);
    }
  }

  lemma {:induction false} PutAllKeeps(d: Document, entries: seq<Entry>, k: string)
    requires k in d && forall i | 0 <= i < |entries| :: entries[i].key != k
    ensures k in PutAll(d, entries) && PutAll(d, entries)[k] == d[k]
    decreases |entries|
  {
    if entries != [] { PutAllKeeps(d[entries[0].key := ItemOf(entries[0].node)], entries[1..], k); }
  }

  lemma CleanDocumentMeansClean(entries: seq<Entry>)
    requires IsDict(entries) && CleanDocument(ToDocument(entries))
    ensures Clean(entries)
  {
    forall i | 0 <= i < |entries| ensures Unbroken(entries[i].key) && CleanNode(entries[i].node) {
      PutAllHolds(map[], entries, i);
      assert CleanItem(ItemOf(entries[i].node));
      if entries[i].node.Many? {
        var pairs := entries[i].node.pairs;
        forall j | 0 <= j < |pairs| ensures Unbroken(pairs[j].key) && CleanValue(pairs[j].value) {
          FillHolds(map[], pairs, j);
        }
      }
    }
  }

  /** The reader takes back what the printer wrote exactly if no key and no string has a line separator. */
  lemma RoundTripIff(x: Numerals, header: seq<string>, entries: seq<Entry>)
    requires Faithful(x) && IsHeader(header) && Accepts(entries) && IsDict(entries)
    ensures Parse(x, Render(x, header, entries)) == Some(ToDocument(entries)) <==> Clean(entries)
  {
    hide Faithful, Accepts, Clean, Parse, Render, CleanDocument, ToDocument;
    if Clean(entries) {
      CleanReadsBack(x, header, entries);
    } else {
      ParsedIsClean(x, Render(x, header, entries));
      if CleanDocument(ToDocument(entries)) { CleanDocumentMeansClean(entries); }
    }
  }

  // -------------------------------------------------------------- the two loops

  /** `render_config`, or None where it rejects a key. */
  method RenderConfig(x: Numerals, header: seq<string>, entries: seq<Entry>) returns (text: Option<string>)
    ensures text == if Accepts(entries) then Some(Render(x, header, entries)) else None
  {
    AcceptsBoth(entries);
    var scalars := AppendScalars(x, entries);
    if scalars.None? { return None; }
    var tables := AppendTables(x, entries);
    if tables.None? { return None; }
    return Some(JoinLines(header + scalars.value + tables.value));
  }

  predicate AcceptsOne(e: Entry) { e.node.One? ==> AcceptsKey(e.key) }
  predicate AcceptsMany(e: Entry) { e.node.Many? ==> AcceptsKey(e.key) && AcceptsPairs(e.node.pairs) }

  method AppendScalars(x: Numerals, entries: seq<Entry>) returns (lines: Option<seq<string>>)
    ensures lines == if forall i | 0 <= i < |entries| ::
      AcceptsOne(entries[i]) then Some(Lines(x, Scalars(entries))) else None
  {
    hide AcceptsKey, Scalars, Lines;
    var done, n := [], 0;
    NothingYet(x);
    while n < |entries|
      invariant 0 <= n <= |entries| && done == Lines(x, Scalars(entries[..n]))
      invariant forall i | 0 <= i < n :: AcceptsOne(entries[i])
    {
      var e := entries[n];
      ScalarsAppend(x, entries, n);
      if e.node.One? {
        if !AcceptsKey(e.key) { assert !AcceptsOne(entries[n]); return None; }
        done := done + [Line(x, Pair(e.key, e.node.value))];
      }
      n := n + 1;
    }
    assert entries[..n] == entries;
    return Some(done);
  }

  method AppendTables(x: Numerals, entries: seq<Entry>) returns (lines: Option<seq<string>>)
    ensures lines == if forall i | 0 <= i < |entries| ::
      AcceptsMany(entries[i]) then Some(TableLines(x, entries)) else None
  {
    hide AcceptsKey, AcceptsPairs, TableLines, Lines;
    var done, n := [], 0;
    NothingYet(x);
    while n < |entries|
      invariant 0 <= n <= |entries| && done == TableLines(x, entries[..n])
      invariant forall i | 0 <= i < n :: AcceptsMany(entries[i])
    {
      var e := entries[n];
      TablesAppend(x, entries, n);
      if e.node.Many? {
        if !AcceptsKey(e.key) { assert !AcceptsMany(entries[n]); return None; }
        var accepted := AppendPairs(x, e.node.pairs);
        if accepted.None? { assert !AcceptsMany(entries[n]); return None; }
        done := done + (["", "[" + e.key + "]"] + accepted.value);
      }
      n := n + 1;
    }
    assert entries[..n] == entries;
    return Some(done);
  }

  lemma NothingYet(x: Numerals)
    ensures Lines(x, Scalars([])) == [] && TableLines(x, []) == []
  {
  }

  method AppendPairs(x: Numerals, pairs: seq<Pair>) returns (lines: Option<seq<string>>)
    ensures lines == if AcceptsPairs(pairs) then Some(Lines(x, pairs)) else None
  {
    var done, n := [], 0;
    while n < |pairs|
      invariant 0 <= n <= |pairs| && done == Lines(x, pairs[..n]) && AcceptsPairs(pairs[..n])
    {
      if !AcceptsKey(pairs[n].key) { return None; }
      LinesAppend(x, pairs[..n], pairs[n]);
      assert pairs[..n + 1] == pairs[..n] + [pairs[n]];
      done := done + [Line(x, pairs[n])];
      n := n + 1;
    }
    assert pairs[..n] == pairs;
    return Some(done);
  }

  lemma {:induction false} LinesAppend(x: Numerals, pairs: seq<Pair>, p: Pair)
    ensures Lines(x, pairs + [p]) == Lines(x, pairs) + [Line(x, p)]
    decreases |pairs|
  {
    if pairs != [] {
      assert (pairs + [p])[1..] == pairs[1..] + [p];
      LinesAppend(x, pairs[1..], p);
    }
  }

  lemma {:induction false} ScalarsGrow(entries: seq<Entry>, e: Entry)
    ensures Scalars(entries + [e]) == Scalars(entries) + if e.node.One? then [Pair(e.key, e.node.value)] else []
    decreases |entries|
  {
    if entries == [] {
      assert [e][1..] == [];
    } else {
      assert (entries + [e])[1..] == entries[1..] + [e];
      ScalarsGrow(entries[1..], e);
    }
  }

  lemma ScalarsAppend(x: Numerals, entries: seq<Entry>, n: nat)
    requires n < |entries|
    ensures var e := entries[n];
      Lines(x, Scalars(entries[..n + 1]))
      == Lines(x, Scalars(entries[..n])) + if e.node.One? then [Line(x, Pair(e.key, e.node.value))] else []
  {
    var e := entries[n];
    assert entries[..n + 1] == entries[..n] + [e];
    ScalarsGrow(entries[..n], e);
    if e.node.One? {
      LinesAppend(x, Scalars(entries[..n]), Pair(e.key, e.node.value));
    } else {
      assert Scalars(entries[..n + 1]) == Scalars(entries[..n]);
    }
  }

  lemma {:induction false} TablesGrow(x: Numerals, entries: seq<Entry>, e: Entry)
    ensures TableLines(x, entries + [e])
         == TableLines(x, entries) + if e.node.Many? then ["", "[" + e.key + "]"] + Lines(x, e.node.pairs) else []
    decreases |entries|
  {
    if entries == [] {
      assert [e][1..] == [];
    } else {
      assert (entries + [e])[1..] == entries[1..] + [e];
      TablesGrow(x, entries[1..], e);
    }
  }

  lemma TablesAppend(x: Numerals, entries: seq<Entry>, n: nat)
    requires n < |entries|
    ensures var e := entries[n];
      TableLines(x, entries[..n + 1])
      == TableLines(x, entries[..n]) + if e.node.Many? then ["", "[" + e.key + "]"] + Lines(x, e.node.pairs) else []
  {
    assert entries[..n + 1] == entries[..n] + [entries[n]];
    TablesGrow(x, entries[..n], entries[n]);
  }

  /** `_parse_config`, or None where an assignment raises. */
  method ParseConfig(x: Numerals, text: string) returns (document: Option<Document>)
    ensures document == Parse(x, text)
  {
    var lines := SplitLines(text);
    var r, n := Reader(map[], None), 0;
    while n < |lines|
      invariant 0 <= n <= |lines| && ReadLines(x, Reader(map[], None), lines) == ReadLines(x, r, lines[n..])
    {
      var next := ReadLine(x, r, lines[n]);
      assert lines[n..][0] == lines[n] && lines[n..][1..] == lines[n + 1..];
      if next.None? { return None; }
      r := next.value;
      n := n + 1;
    }
    return Some(r.doc);
  }
}
