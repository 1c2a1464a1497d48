/** Length-prefixed framing: what `_stable_id` and `_legacy_fingerprint` feed to SHA-256. */
module Framing {
  import opened Schema

  type byte = b: int | 0 <= b < 256
  type Bytes = seq<byte>

  const LENGTH_BYTES: nat := 8

  function Power(k: nat): (p: nat)
    ensures p >= 1
  {
    if k == 0 then 1 else 256 * Power(k - 1)
  }

  /** `n.to_bytes(k, "big")` */
  function BigEndian(n: nat, k: nat): (s: Bytes)
    ensures |s| == k
    decreases k
  {
    if k == 0 then [] else BigEndian(n / 256, k - 1) + [n % 256]
  }

  function Value(s: Bytes): nat
    decreases |s|
  {
    if s == [] then 0 else 256 * Value(s[..|s| - 1]) + s[|s| - 1]
  }

  lemma {:induction false} ValueOfBigEndian(n: nat, k: nat)
    requires n < Power(k)
    ensures Value(BigEndian(n, k)) == n
    decreases k
  {
    if k > 0 {
      ValueOfBigEndian(n / 256, k - 1);
      assert BigEndian(n, k)[..k - 1] == BigEndian(n / 256, k - 1);
    }
  }

  predicate Short(part: Bytes) {
    |part| < Power(LENGTH_BYTES)
  }

  predicate AllShort(parts: seq<Bytes>) {
    forall i | 0 <= i < |parts| :: Short(parts[i])
  }

  /** Each part behind its length, one after the other. */
  function Frame(parts: seq<Bytes>): Bytes
    decreases |parts|
  {
    if parts == [] then []
    else BigEndian(|parts[0]|, LENGTH_BYTES) + parts[0] + Frame(parts[1..])
  }

  /** Reading the parts back, or None if the bytes are no frame. */
  function Unframe(s: Bytes): Option<seq<Bytes>>
    decreases |s|
  {
    if s == [] then Some([])
    else if |s| < LENGTH_BYTES then None
    else
      var n := Value(s[..LENGTH_BYTES]);
      var rest := s[LENGTH_BYTES..];
      if |rest| < n then None
      else match Unframe(rest[n..]) case None => None case Some(parts) => Some([rest[..n]] + parts)
  }

  lemma UnframeStep(head: Bytes, part: Bytes, tail: Bytes)
    requires |head| == LENGTH_BYTES && Value(head) == |part|
    ensures Unframe(head + part + tail)
      == match Unframe(tail) case None => None case Some(parts) => Some([part] + parts)
  {
    hide Value;
    var s := head + part + tail;
    assert s[..LENGTH_BYTES] == head && s[LENGTH_BYTES..] == part + tail;
    assert (part + tail)[..|part|] == part && (part + tail)[|part|..] == tail;
  }

  /** The framed bytes determine the sequence of parts. */
  lemma {:induction false} UnframeFrame(parts: seq<Bytes>)
    requires AllShort(parts)
    ensures Unframe(Frame(parts)) == Some(parts)
    decreases |parts|
  {
    hide Unframe, Power, BigEndian, Value;
    if parts == [] {
      UnframeNothing();
    } else {
      assert Short(parts[0]);
      ValueOfBigEndian(|parts[0]|, LENGTH_BYTES);
      UnframeFrame(parts[1..]);
      UnframeStep(BigEndian(|parts[0]|, LENGTH_BYTES), parts[0], Frame(parts[1..]));
      assert [parts[0]] + parts[1..] == parts;
    }
  }

  lemma UnframeNothing()
    ensures Unframe([]) == Some([])
  {
  }

  lemma FrameIsInjective(parts: seq<Bytes>, others: seq<Bytes>)
    requires AllShort(parts) && AllShort(others) && Frame(parts) == Frame(others)
    ensures parts == others
  {
    UnframeFrame(parts);
    UnframeFrame(others);
  }

  lemma {:induction false} FrameAppend(parts: seq<Bytes>, part: Bytes)
    ensures Frame(parts + [part]) == Frame(parts) + BigEndian(|part|, LENGTH_BYTES) + part
    decreases |parts|
  {
    if parts == [] {
      assert [part][1..] == [];
    } else {
      assert (parts + [part])[1..] == parts[1..] + [part];
      FrameAppend(parts[1..], part);
    }
  }

  lemma NoParts()
    ensures Frame([]) == []
  {
  }

  /** What `_stable_id` feeds to the digest. */
  method Feed(parts: seq<Bytes>) returns (fed: Bytes)
    requires AllShort(parts)
    ensures fed == Frame(parts)
  {
    hide Frame, BigEndian;
    fed := [];
    var n := 0;
    NoParts();
    while n < |parts|
      invariant 0 <= n <= |parts| && fed == Frame(parts[..n])
    {
      FrameAppend(parts[..n], parts[n]);
      assert parts[..n + 1] == parts[..n] + [parts[n]];
      fed := fed + BigEndian(|parts[n]|, LENGTH_BYTES);
      fed := fed + parts[n];
      n := n + 1;
    }
    assert parts[..n] == parts;
  }

  // -------------------------------------------------------- legacy fingerprint

  datatype LegacyRow = LegacyRow(id: string, content: string)

  function Fields(encode: string -> Bytes, rows: seq<LegacyRow>): seq<Bytes>
    decreases |rows|
  {
    if rows == [] then []
    else Fields(encode, rows[..|rows| - 1]) + [encode(rows[|rows| - 1].id), encode(rows[|rows| - 1].content)]
  }

  /** UTF-8 maps different strings to different bytes. */
  ghost predicate Faithful(encode: string -> Bytes) {
    forall s, t :: encode(s) == encode(t) ==> s == t
  }

  predicate ShortRows(encode: string -> Bytes, rows: seq<LegacyRow>) {
    forall i | 0 <= i < |rows| :: Short(encode(rows[i].id)) && Short(encode(rows[i].content))
  }

  lemma {:induction false} FieldsTell(encode: string -> Bytes, rows: seq<LegacyRow>, others: seq<LegacyRow>)
    requires Faithful(encode) && Fields(encode, rows) == Fields(encode, others)
    ensures rows == others
    decreases |rows|
  {
    FieldsCount(encode, rows);
    FieldsCount(encode, others);
    if rows != [] {
      var n := |rows| - 1;
      var f, g := Fields(encode, rows), Fields(encode, others);
      assert f[..2 * n] == Fields(encode, rows[..n]) && g[..2 * n] == Fields(encode, others[..n]);
      FieldsTell(encode, rows[..n], others[..n]);
      assert f[2 * n] == encode(rows[n].id) && g[2 * n] == encode(others[n].id);
      assert f[2 * n + 1] == encode(rows[n].content) && g[2 * n + 1] == encode(others[n].content);
      assert rows == rows[..n] + [rows[n]] && others == others[..n] + [others[n]];
    }
  }

  lemma {:induction false} FieldsCount(encode: string -> Bytes, rows: seq<LegacyRow>)
    ensures |Fields(encode, rows)| == 2 * |rows|
    decreases |rows|
  {
    if rows != [] { FieldsCount(encode, rows[..|rows| - 1]); }
  }

  lemma {:induction false} FieldsShort(encode: string -> Bytes, rows: seq<LegacyRow>)
    requires ShortRows(encode, rows)
    ensures AllShort(Fields(encode, rows))
    decreases |rows|
  {
    if rows != [] { FieldsShort(encode, rows[..|rows| - 1]); }
  }

  lemma NothingFramed(encode: string -> Bytes, rows: seq<LegacyRow>)
    ensures Frame(Fields(encode, rows[..0])) == []
  {
  }

  lemma FieldsAppend(encode: string -> Bytes, rows: seq<LegacyRow>, n: nat)
    requires n < |rows|
    ensures Fields(encode, rows[..n + 1])
      == Fields(encode, rows[..n]) + [encode(rows[n].id)] + [encode(rows[n].content)]
  {
    assert rows[..n + 1][..n] == rows[..n] && rows[..n + 1][n] == rows[n];
  }

  /** The bytes behind a legacy fingerprint. */
  method Fingerprint(encode: string -> Bytes, rows: seq<LegacyRow>) returns (count: nat, fed: Bytes)
    requires ShortRows(encode, rows)
    ensures count == |rows| && fed == Frame(Fields(encode, rows))
  {
    hide Frame, Fields, BigEndian;
    fed := [];
    var n := 0;
    NothingFramed(encode, rows);
    while n < |rows|
      invariant 0 <= n <= |rows| && fed == Frame(Fields(encode, rows[..n]))
    {
      var id, content := encode(rows[n].id), encode(rows[n].content);
      ghost var before := Fields(encode, rows[..n]);
      FrameAppend(before, id);
      FrameAppend(before + [id], content);
      FieldsAppend(encode, rows, n);
      fed := fed + BigEndian(|id|, LENGTH_BYTES) + id;
      fed := fed + BigEndian(|content|, LENGTH_BYTES) + content;
      n := n + 1;
    }
    assert rows[..n] == rows;
    count := n;
  }

  /** Equal bytes mean equal rows in equal order. */
  lemma FingerprintTells(encode: string -> Bytes, rows: seq<LegacyRow>, others: seq<LegacyRow>)
    requires Faithful(encode) && ShortRows(encode, rows) && ShortRows(encode, others)
    requires Frame(Fields(encode, rows)) == Frame(Fields(encode, others))
    ensures rows == others
  {
    FieldsShort(encode, rows);
    FieldsShort(encode, others);
    FrameIsInjective(Fields(encode, rows), Fields(encode, others));
    FieldsTell(encode, rows, others);
  }
}
