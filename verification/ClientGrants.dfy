/** Grants of remote clients, the audit log they are recorded in, and pairing challenges. */
module ClientGrants {
  import opened Sets
  import opened Schema

  datatype ClientGrant = ClientGrant(owner: string, issuer: string, subject: string, client: string, generation: nat,
                                     scopes: seq<string>, createdAt: int, active: bool)

  datatype Action = InitialBind | Reauthorize | ScopeChange | Revocation

  datatype LinkEvent = LinkEvent(number: nat, owner: string, action: Action, issuer: string, subject: string,
                                 client: string, generation: nat, at: int)

  // --------------------------------------------------------------------- keys

  predicate NoColon(s: string) { ':' !in s }

  function Key(issuer: string, subject: string, client: string): string {
    issuer + ":" + subject + ":" + client
  }

  function Colons(s: string): nat
    decreases |s|
  {
    if s == [] then 0 else (if s[0] == ':' then 1 else 0) + Colons(s[1..])
  }

  /** `s.split(":")` */
  function Split(s: string): (parts: seq<string>)
    ensures |parts| == Colons(s) + 1
    decreases |s|
  {
    if s == [] then [""]
    else if s[0] == ':' then [""] + Split(s[1..])
    else var rest := Split(s[1..]); [[s[0]] + rest[0]] + rest[1..]
  }

  lemma {:induction false} ColonsAdd(s: string, t: string)
    ensures Colons(s + t) == Colons(s) + Colons(t)
    decreases |s|
  {
    if s == [] {
      assert s + t == t;
    } else {
      assert (s + t)[1..] == s[1..] + t;
      ColonsAdd(s[1..], t);
    }
  }

  lemma {:induction false} ColonsNone(s: string)
    ensures NoColon(s) <==> Colons(s) == 0
    decreases |s|
  {
    if s != [] {
      ColonsNone(s[1..]);
      assert s == [s[0]] + s[1..];
    }
  }

  /** Splitting takes back what a colon has joined, if the first part has none. */
  lemma {:induction false} SplitFirst(s: string, t: string)
    requires NoColon(s)
    ensures Split(s + ":" + t) == [s] + Split(t)
    decreases |s|
  {
    if s == [] {
      assert s + ":" + t == ":" + t;
      assert (":" + t)[1..] == t;
    } else {
      var whole := s + ":" + t;
      assert whole[0] == s[0] && s[0] in s && whole[1..] == s[1..] + ":" + t;
      SplitFirst(s[1..], t);
      assert [s[0]] + s[1..] == s;
    }
  }

  lemma {:induction false} SplitWhole(s: string)
    requires NoColon(s)
    ensures Split(s) == [s]
    decreases |s|
  {
    if s != [] {
      SplitWhole(s[1..]);
      assert s[0] in s && [s[0]] + s[1..] == s;
    }
  }

  lemma KeySplits(issuer: string, subject: string, client: string)
    requires NoColon(issuer) && NoColon(subject) && NoColon(client)
    ensures Split(Key(issuer, subject, client)) == [issuer, subject, client]
  {
    SplitFirst(issuer, subject + ":" + client);
    SplitFirst(subject, client);
    SplitWhole(client);
    assert Key(issuer, subject, client) == issuer + ":" + (subject + ":" + client);
  }

  lemma {:induction false} CutAtColon(s: string) returns (left: string, right: string)
    requires !NoColon(s)
    ensures s == left + ":" + right
    decreases |s|
  {
    if s[0] == ':' {
      left, right := "", s[1..];
    } else {
      var l, r := CutAtColon(s[1..]);
      left, right := [s[0]] + l, r;
      assert s == [s[0]] + s[1..];
    }
  }

  /** Some other client has the same key. */
  ghost predicate Shared(issuer: string, subject: string, client: string) {
    exists i, s, c :: (i, s, c) != (issuer, subject, client) && Key(i, s, c) == Key(issuer, subject, client)
  }

  /** A key belongs to one client alone exactly if none of its three parts has a colon. */
  lemma KeyIsSharedIff(issuer: string, subject: string, client: string)
    ensures Shared(issuer, subject, client) <==> !(NoColon(issuer) && NoColon(subject) && NoColon(client))
  {
    var key := Key(issuer, subject, client);
    if NoColon(issuer) && NoColon(subject) && NoColon(client) {
      KeySplits(issuer, subject, client);
      forall i, s, c | Key(i, s, c) == key ensures (i, s, c) == (issuer, subject, client) {
        SamePartsOfKey(i, s, c, issuer, subject, client);
      }
    } else if !NoColon(issuer) {
      var l, r := CutAtColon(issuer);
      assert Key(l, r, subject + ":" + client) == key;
      assert l != issuer;
    } else if !NoColon(subject) {
      var l, r := CutAtColon(subject);
      assert Key(issuer + ":" + l, r, client) == key;
      assert issuer + ":" + l != issuer;
    } else {
      var l, r := CutAtColon(client);
      assert Key(issuer + ":" + subject, l, r) == key;
      assert issuer + ":" + subject != issuer;
    }
  }

  lemma SamePartsOfKey(i: string, s: string, c: string, issuer: string, subject: string, client: string)
    requires NoColon(issuer) && NoColon(subject) && NoColon(client) && Key(i, s, c) == Key(issuer, subject, client)
    ensures (i, s, c) == (issuer, subject, client)
  {
    ColonsOfKey(i, s, c);
    ColonsOfKey(issuer, subject, client);
    ColonsNone(issuer); ColonsNone(subject); ColonsNone(client);
    ColonsNone(i); ColonsNone(s); ColonsNone(c);
    KeySplits(i, s, c);
    KeySplits(issuer, subject, client);
  }

  lemma ColonsOfKey(i: string, s: string, c: string)
    ensures Colons(Key(i, s, c)) == Colons(i) + Colons(s) + Colons(c) + 2
  {
    ColonsAdd(i + ":" + s + ":", c);
    ColonsAdd(i + ":" + s, ":");
    ColonsAdd(i + ":", s);
    ColonsAdd(i, ":");
    assert Colons(":") == 1;
  }

  // ---------------------------------------------------------------- challenges

  datatype Claim =
    | Claimed | AlreadyUsed | Malformed | BadSignature | NotFiveParts | Unreadable | Expired | Mismatch | PkceFailed

  /** The keyed signature, the hash of a verifier, and the notation of a time: how it is written, and what
      `int` makes of a text, or None where it raises. */
  datatype Crypto = Crypto(sign: string -> string, hash: string -> string, show: int -> string,
                           read: string -> Option<int>)

  /** None of these notations has a colon, and reading takes back what was shown. */
  ghost predicate Sound(x: Crypto) {
    (forall p :: NoColon(x.sign(p))) && (forall n :: NoColon(x.show(n))) && (forall n :: x.read(x.show(n)) == Some(n))
  }

  function ChallengePayload(x: Crypto, owner: string, client: string, state: string, code: string, exp: int): string {
    owner + ":" + client + ":" + state + ":" + code + ":" + x.show(exp)
  }

  function CreateChallenge(x: Crypto, owner: string, client: string, state: string, code: string, ttl: int,
                           now: int): string {
    var payload := ChallengePayload(x, owner, client, state, code, now + ttl);
    payload + ":" + x.sign(payload)
  }

  /** `s.rsplit(":", 1)` */
  function SplitLast(s: string): Option<(string, string)>
    decreases |s|
  {
    if s == [] then None
    else
      var n := |s| - 1;
      if s[n] == ':' then Some((s[..n], ""))
      else match SplitLast(s[..n]) case None => None case Some(p) => Some((p.0, p.1 + [s[n]]))
  }

  lemma {:induction false} SplitLastBack(s: string, t: string)
    requires NoColon(t)
    ensures SplitLast(s + ":" + t) == Some((s, t))
    decreases |t|
  {
    var whole := s + ":" + t;
    if t == [] {
      assert whole[..|whole| - 1] == s;
    } else {
      var n := |t| - 1;
      assert t[n] in t && whole[|whole| - 1] == t[n] && whole[..|whole| - 1] == s + ":" + t[..n];
      SplitLastBack(s, t[..n]);
      assert t[..n] + [t[n]] == t;
    }
  }

  /** The checks of a challenge in the order in which they are made, without the record of used ones. */
  function Check(x: Crypto, token: string, owner: string, client: string, state: string, verifier: string,
                 now: int): Claim {
    match SplitLast(token)
    case None => Malformed
    case Some((payload, sig)) =>
      if sig != x.sign(payload) then BadSignature
      else
        var parts := Split(payload);
        if |parts| != 5 then NotFiveParts
        else if x.read(parts[4]) == None then Unreadable
        else if x.read(parts[4]).value < now then Expired
        else if parts[0] != owner || parts[1] != client || parts[2] != state then Mismatch
        else if x.hash(verifier) != parts[3] then PkceFailed
        else Claimed
  }

  /** a:b:c:d:e, joined from the right. */
  function Five(a: string, b: string, c: string, d: string, e: string): string {
    a + ":" + (b + ":" + (c + ":" + (d + ":" + e)))
  }

  lemma PayloadIsFive(x: Crypto, owner: string, client: string, state: string, code: string, exp: int)
    ensures ChallengePayload(x, owner, client, state, code, exp) == Five(owner, client, state, code, x.show(exp))
  {
  }

  lemma FiveColons(a: string, b: string, c: string, d: string, e: string)
    ensures Colons(Five(a, b, c, d, e)) == 4 + Colons(a) + Colons(b) + Colons(c) + Colons(d) + Colons(e)
  {
    hide Colons;
    JoinColons(d, e);
    JoinColons(c, d + ":" + e);
    JoinColons(b, c + ":" + (d + ":" + e));
    JoinColons(a, b + ":" + (c + ":" + (d + ":" + e)));
  }

  lemma FiveSplits(a: string, b: string, c: string, d: string, e: string)
    requires NoColon(a) && NoColon(b) && NoColon(c) && NoColon(d) && NoColon(e)
    ensures Split(Five(a, b, c, d, e)) == [a, b, c, d, e]
  {
    hide Split;
    SplitWhole(e);
    SplitFirst(d, e);
    SplitFirst(c, d + ":" + e);
    SplitFirst(b, c + ":" + (d + ":" + e));
    SplitFirst(a, b + ":" + (c + ":" + (d + ":" + e)));
  }

  lemma JoinColons(s: string, t: string)
    ensures Colons(s + ":" + t) == Colons(s) + 1 + Colons(t)
  {
    ColonsAdd(s + ":", t);
    ColonsAdd(s, ":");
    assert Colons(":") == 1;
  }

  /** A challenge passes its own check, before it has expired and with the verifier of its code,
      exactly if none of its four fields has a colon. */
  lemma OwnChallengePassesIff(x: Crypto, owner: string, client: string, state: string, code: string, ttl: int,
                              created: int, verifier: string, now: int)
    requires Sound(x) && now <= created + ttl && x.hash(verifier) == code
    ensures Check(x, CreateChallenge(x, owner, client, state, code, ttl, created), owner, client, state, verifier, now)
      == Claimed
      <==> NoColon(owner) && NoColon(client) && NoColon(state) && NoColon(code)
  {
    var payload := ChallengePayload(x, owner, client, state, code, created + ttl);
    SplitLastBack(payload, x.sign(payload));
    PayloadIsFive(x, owner, client, state, code, created + ttl);
    FiveColons(owner, client, state, code, x.show(created + ttl));
    if NoColon(owner) && NoColon(client) && NoColon(state) && NoColon(code) {
      FiveSplits(owner, client, state, code, x.show(created + ttl));
    }
    ColonsNone(owner); ColonsNone(client); ColonsNone(state); ColonsNone(code); ColonsNone(x.show(created + ttl));
    assert x.read(x.show(created + ttl)) == Some(created + ttl);
  }

  // -------------------------------------------------- what every token is told

  function Signed(x: Crypto, payload: string): string { payload + ":" + x.sign(payload) }

  lemma {:induction false} SplitLastParts(s: string)
    ensures SplitLast(s).None? <==> NoColon(s)
    ensures SplitLast(s).Some? ==>
      s == SplitLast(s).value.0 + ":" + SplitLast(s).value.1 && NoColon(SplitLast(s).value.1)
    decreases |s|
  {
    if s != [] {
      var n := |s| - 1;
      SplitLastParts(s[..n]);
      assert s == s[..n] + [s[n]];
    }
  }

  /** What `split` yields has no colons and can be joined back. */
  function Joined(parts: seq<string>): string
    decreases |parts|
  {
    if parts == [] then "" else if |parts| == 1 then parts[0] else parts[0] + ":" + Joined(parts[1..])
  }

  lemma {:induction false} SplitParts(s: string)
    ensures Joined(Split(s)) == s && forall i | 0 <= i < |Split(s)| :: NoColon(Split(s)[i])
    decreases |s|
  {
    if s != [] {
      SplitParts(s[1..]);
      var rest := Split(s[1..]);
      if s[0] == ':' {
        assert ([""] + rest)[1..] == rest;
      } else {
        assert ([[s[0]] + rest[0]] + rest[1..])[1..] == rest[1..];
        assert s == [s[0]] + s[1..];
      }
    }
  }

  lemma FiveJoined(parts: seq<string>)
    requires |parts| == 5
    ensures Joined(parts) == Five(parts[0], parts[1], parts[2], parts[3], parts[4])
  {
    var p1 := parts[1..];
    var p2 := p1[1..];
    var p3 := p2[1..];
    assert Joined(p3) == parts[3] + ":" + parts[4] by { assert p3[1..][0] == parts[4]; }
    assert Joined(p2) == parts[2] + ":" + Joined(p3);
    assert Joined(p1) == parts[1] + ":" + Joined(p2);
  }

  /** A token without a colon is malformed, and no other one is. */
  lemma MalformedIff(x: Crypto, token: string, owner: string, client: string, state: string, verifier: string, now: int)
    ensures Check(x, token, owner, client, state, verifier, now) == Malformed <==> NoColon(token)
  {
    hide Split;
    SplitLastParts(token);
  }

  /** Whatever stands before the last colon, a signature that is not its own is refused. */
  lemma ForgedIsRefused(x: Crypto, payload: string, sig: string, owner: string, client: string, state: string,
                        verifier: string, now: int)
    requires NoColon(sig)
    ensures Check(x, payload + ":" + sig, owner, client, state, verifier, now) == BadSignature
      <==> sig != x.sign(payload)
  {
    hide Split;
    SplitLastBack(payload, sig);
  }

  /** A signed payload of five fields is judged in this order: its expiry is readable, it has not passed,
      the first three fields are the expected ones, and the fourth is the hash of the verifier. */
  lemma SignedIsJudged(x: Crypto, a: string, b: string, c: string, d: string, e: string,
                       owner: string, client: string, state: string, verifier: string, now: int)
    requires NoColon(a) && NoColon(b) && NoColon(c) && NoColon(d) && NoColon(e) && NoColon(x.sign(Five(a, b, c, d, e)))
    ensures Check(x, Signed(x, Five(a, b, c, d, e)), owner, client, state, verifier, now) ==
      match x.read(e)
      case None => Unreadable
      case Some(expiry) =>
        if expiry < now then Expired
        else if !(a == owner && b == client && c == state) then Mismatch
        else if d != x.hash(verifier) then PkceFailed
        else Claimed
  {
    hide Split;
    SplitLastBack(Five(a, b, c, d, e), x.sign(Five(a, b, c, d, e)));
    FiveSplits(a, b, c, d, e);
  }

  /** A signed payload of any other number of fields is refused. */
  lemma OtherCountIsRefused(x: Crypto, payload: string, owner: string, client: string, state: string, verifier: string,
                            now: int)
    requires NoColon(x.sign(payload))
    ensures Check(x, Signed(x, payload), owner, client, state, verifier, now) == NotFiveParts <==> Colons(payload) != 4
  {
    SplitLastBack(payload, x.sign(payload));
  }

  /** The token is the signed challenge of this owner, client and state, for this verifier, and the expiry
      that it ends with is not before now. */
  predicate GenuineUntil(x: Crypto, token: string, owner: string, client: string, state: string, verifier: string,
                         now: int, text: string) {
    var payload := Five(owner, client, state, x.hash(verifier), text);
    token == Signed(x, payload) && NoColon(x.sign(payload))
    && NoColon(owner) && NoColon(client) && NoColon(state) && NoColon(x.hash(verifier)) && NoColon(text)
    && x.read(text) != None && x.read(text).value >= now
  }

  ghost predicate Genuine(x: Crypto, token: string, owner: string, client: string, state: string, verifier: string,
                          now: int) {
    exists text :: GenuineUntil(x, token, owner, client, state, verifier, now, text)
  }

  /** Nothing but a genuine token passes, whoever made it. */
  lemma ClaimedIff(x: Crypto, token: string, owner: string, client: string, state: string, verifier: string, now: int)
    ensures Check(x, token, owner, client, state, verifier, now) == Claimed
      <==> Genuine(x, token, owner, client, state, verifier, now)
  {
    hide Split;
    if Check(x, token, owner, client, state, verifier, now) == Claimed {
      SplitLastParts(token);
      var payload := SplitLast(token).value.0;
      SplitParts(payload);
      var parts := Split(payload);
      FiveJoined(parts);
      assert GenuineUntil(x, token, owner, client, state, verifier, now, parts[4]);
    }
    if text :| GenuineUntil(x, token, owner, client, state, verifier, now, text) {
      SignedIsJudged(x, owner, client, state, x.hash(verifier), text, owner, client, state, verifier, now);
    }
  }

  // ------------------------------------------------------------- the audit log

  /** What the log says about a key. */
  datatype Standing = Standing(owner: string, generation: nat, active: bool)

  function KeyOf(e: LinkEvent): string { Key(e.issuer, e.subject, e.client) }

  /** Each event supersedes the one before it under the same key. */
  function Fold(events: seq<LinkEvent>, key: string): Option<Standing>
    decreases |events|
  {
    if events == [] then None
    else
      var e := events[|events| - 1];
      if KeyOf(e) == key then Some(Standing(e.owner, e.generation, e.action != Revocation))
      else Fold(events[..|events| - 1], key)
  }

  function Count(events: seq<LinkEvent>, key: string): nat
    decreases |events|
  {
    if events == [] then 0
    else Count(events[..|events| - 1], key) + if KeyOf(events[|events| - 1]) == key then 1 else 0
  }

  /** `e` is a proper successor of what the log says about its key. */
  predicate Follows(before: Option<Standing>, e: LinkEvent) {
    if before.None? then e.action == InitialBind && e.generation == 1
    else e.action != InitialBind && e.generation == before.value.generation + 1 && e.owner == before.value.owner
         && (e.action == Revocation ==> before.value.active)
  }

  predicate Regular(events: seq<LinkEvent>) {
    forall n | 0 <= n < |events| :: events[n].number == n + 1 && Follows(Fold(events[..n], KeyOf(events[n])), events[n])
  }

  lemma RegularPrefix(events: seq<LinkEvent>)
    requires Regular(events) && events != []
    ensures Regular(events[..|events| - 1])
  {
    var few := events[..|events| - 1];
    forall n | 0 <= n < |few| ensures few[n].number == n + 1 && Follows(Fold(few[..n], KeyOf(few[n])), few[n]) {
      assert few[..n] == events[..n];
    }
  }

  /** The generation of a key is the number of its events, so that these carry 1, 2, ... in order. */
  lemma {:induction false} GenerationsCount(events: seq<LinkEvent>, key: string)
    requires Regular(events)
    ensures if Fold(events, key).None? then Count(events, key) == 0
      else Fold(events, key).value.generation == Count(events, key) > 0
    decreases |events|
  {
    if events != [] {
      RegularPrefix(events);
      GenerationsCount(events[..|events| - 1], key);
      var last := events[|events| - 1];
      assert Follows(Fold(events[..|events| - 1], KeyOf(last)), last);
    }
  }

  /** All events of a key name the same owner. */
  lemma {:induction false} OwnerIsConstant(events: seq<LinkEvent>, n: nat)
    requires Regular(events) && n < |events|
    ensures var now := Fold(events, KeyOf(events[n])); now.Some? && now.value.owner == events[n].owner
    decreases |events|
  {
    var last := |events| - 1;
    assert Follows(Fold(events[..last], KeyOf(events[last])), events[last]);
    if n < last {
      RegularPrefix(events);
      OwnerIsConstant(events[..last], n);
    }
  }

  lemma RegularGrows(events: seq<LinkEvent>, e: LinkEvent)
    requires Regular(events) && e.number == |events| + 1 && Follows(Fold(events, KeyOf(e)), e)
    ensures Regular(events + [e])
  {
    var more := events + [e];
    forall n | 0 <= n < |more| ensures more[n].number == n + 1 && Follows(Fold(more[..n], KeyOf(more[n])), more[n]) {
      if n < |events| { assert more[..n] == events[..n]; } else { assert more[..n] == events; }
    }
  }

  lemma FoldLast(events: seq<LinkEvent>, e: LinkEvent, key: string)
    ensures Fold(events + [e], key)
      == if KeyOf(e) == key then Some(Standing(e.owner, e.generation, e.action != Revocation)) else Fold(events, key)
  {
    assert (events + [e])[..|events|] == events;
  }

  function StandingOf(g: ClientGrant): Standing { Standing(g.owner, g.generation, g.active) }

  /** The grants are what the log folds to. */
  ghost predicate Agrees(grants: map<string, ClientGrant>, events: seq<LinkEvent>) {
    forall key :: Fold(events, key) == if key in grants then Some(StandingOf(grants[key])) else None
  }

  lemma AgreesAfter(grants: map<string, ClientGrant>, events: seq<LinkEvent>, key: string, g: ClientGrant, e: LinkEvent)
    requires Agrees(grants, events) && KeyOf(e) == key
      && StandingOf(g) == Standing(e.owner, e.generation, e.action != Revocation)
    ensures Agrees(grants[key := g], events + [e])
  {
    forall k
      ensures Fold(events + [e], k) == if k in grants[key := g] then Some(StandingOf(grants[key := g][k])) else None
    {
      FoldLast(events, e, k);
    }
  }

  class ClientGrantManager {
    const crypto: Crypto
    var grants: map<string, ClientGrant>
    var linkEvents: seq<LinkEvent>
    var used: set<string>
    ghost var claims: seq<string>   // the tokens claimed so far, in order

    ghost predicate Valid()
      reads this
    {
      Regular(linkEvents) && Agrees(grants, linkEvents) && used == Members(claims) && Distinct(claims)
    }

    constructor (crypto: Crypto)
      ensures Valid() && grants == map[] && linkEvents == [] && used == {} && claims == [] && this.crypto == crypto
    {
      this.crypto := crypto;
      grants, linkEvents, used, claims := map[], [], {}, [];
    }

    /** Refuses to hand a key over to another owner; else issues the next generation and logs it. */
    method RegisterOrUpdateGrant(owner: string, issuer: string, subject: string, client: string, scopes: seq<string>,
                                 now: int)
      returns (issued: Option<ClientGrant>)
      requires Valid()
      modifies this`grants, this`linkEvents
      ensures Valid()
      ensures var key := Key(issuer, subject, client);
        issued.None? <==> key in old(grants) && old(grants)[key].owner != owner
      ensures issued.None? ==> grants == old(grants) && linkEvents == old(linkEvents)
      ensures issued.Some? ==>
        var key := Key(issuer, subject, client);
        var generation := Count(old(linkEvents), key) + 1;
        issued.value == ClientGrant(owner, issuer, subject, client, generation, scopes, now, true)
        && grants == old(grants)[key := issued.value]
        && linkEvents == old(linkEvents) + [LinkEvent(|old(linkEvents)| + 1, owner,
             if key !in old(grants) then InitialBind else if old(grants)[key].scopes != scopes then ScopeChange
               else Reauthorize,
             issuer, subject, client, generation, now)]
    {
      var key := Key(issuer, subject, client);
      GenerationsCount(linkEvents, key);
      var generation, action := 1, InitialBind;
      if key in grants {
        if grants[key].owner != owner { return None; }
        generation := grants[key].generation + 1;
        action := if grants[key].scopes != scopes then ScopeChange else Reauthorize;
      }
      var g := ClientGrant(owner, issuer, subject, client, generation, scopes, now, true);
      var e := LinkEvent(|linkEvents| + 1, owner, action, issuer, subject, client, generation, now);
      RegularGrows(linkEvents, e);
      AgreesAfter(grants, linkEvents, key, g, e);
      grants := grants[key := g];
      linkEvents := linkEvents + [e];
      issued := Some(g);
    }

    method RevokeGrant(issuer: string, subject: string, client: string, now: int)
      requires Valid()
      modifies this`grants, this`linkEvents
      ensures Valid()
      ensures var key := Key(issuer, subject, client);
        if key in old(grants) && old(grants)[key].active then
          grants == old(grants)[key := old(grants)[key].(generation := Count(old(linkEvents), key) + 1,
                                                         active := false)]
          && linkEvents == old(linkEvents) + [LinkEvent(|old(linkEvents)| + 1, old(grants)[key].owner, Revocation,
                                                    issuer, subject, client, Count(old(linkEvents), key) + 1, now)]
        else grants == old(grants) && linkEvents == old(linkEvents)
    {
      var key := Key(issuer, subject, client);
      GenerationsCount(linkEvents, key);
      if key in grants && grants[key].active {
        var g := grants[key].(generation := grants[key].generation + 1, active := false);
        var e := LinkEvent(|linkEvents| + 1, g.owner, Revocation, issuer, subject, client, g.generation, now);
        RegularGrows(linkEvents, e);
        AgreesAfter(grants, linkEvents, key, g, e);
        grants := grants[key := g];
        linkEvents := linkEvents + [e];
      }
    }

    /** Claims a genuine token that was not claimed before, and no other: over the life of the object no
        token is claimed twice. */
    method VerifyAndClaim(token: string, owner: string, client: string, state: string, verifier: string, now: int)
      returns (claim: Claim)
      requires Valid()
      modifies this`used, this`claims
      ensures Valid()
      ensures claim == Claimed <==> token !in old(used) && Genuine(crypto, token, owner, client, state, verifier, now)
      ensures token in old(used) <==> claim == AlreadyUsed
      ensures token !in old(used) ==> claim == Check(crypto, token, owner, client, state, verifier, now)
      ensures claims == if claim == Claimed then old(claims) + [token] else old(claims)
      ensures used == if claim == Claimed then old(used) + {token} else old(used)
    {
      ClaimedIff(crypto, token, owner, client, state, verifier, now);
      if token in used { return AlreadyUsed; }
      claim := Check(crypto, token, owner, client, state, verifier, now);
      if claim == Claimed {
        used := used + {token};
        claims := claims + [token];
      }
    }
  }
}
