/** The chain of grants that binds the loopback operator to the single local owner. */
module LocalGrants {
  import opened Schema

  const LOCAL_ISSUER := "local-loopback"

  datatype LinkOperation = InitialBind | ScopeChange | OtherChange

  datatype LinkEvent = LinkEvent(owner: string, grant: string, operation: LinkOperation, actor: string, at: string)

  datatype BindError = NotInitialised | ManyOwners | NoScopes | CannotBind

  datatype Bound = BoundTo(id: string, client: string, oauthScopes: seq<string>, memoryScopes: seq<string>)
    | Unbound(error: BindError)

  // ------------------------------------------------------------------- scopes

  /** `tuple(dict.fromkeys(s))` */
  function Dedup(s: seq<string>): seq<string>
    decreases |s|
  {
    if s == [] then []
    else
      var n := |s| - 1;
      var d := Dedup(s[..n]);
      if s[n] in d then d else d + [s[n]]
  }

  lemma {:induction false} DedupKeeps(s: seq<string>, x: string)
    ensures x in Dedup(s) <==> x in s
    ensures forall i, j | 0 <= i < j < |Dedup(s)| :: Dedup(s)[i] != Dedup(s)[j]
    decreases |s|
  {
    if s != [] {
      var n := |s| - 1;
      DedupKeeps(s[..n], x);
      DedupKeeps(s[..n], s[n]);
      assert s == s[..n] + [s[n]];
    }
  }

  predicate Includes(s: seq<string>, t: seq<string>) {
    forall x | x in t :: x in s
  }

  /** The grant already allows all that is asked for. */
  predicate CoversAll(g: Grant, memory: seq<string>, oauth: seq<string>) {
    Includes(g.memoryScopes, memory) && Includes(g.oauthScopes, oauth)
  }

  predicate Grows(g: Grant, h: Grant) {
    Includes(h.memoryScopes, g.memoryScopes) && Includes(h.oauthScopes, g.oauthScopes)
  }

  predicate IsActive(g: Grant) {
    g.revokedAt.None? && g.unlinkedAt.None?
  }

  // ------------------------------------------------------------------- chains

  function OperationOf(i: nat): LinkOperation { if i == 0 then InitialBind else ScopeChange }

  predicate IsLocal(g: Grant, owner: string) {
    g.issuer == LOCAL_ISSUER && g.subject == owner
  }

  /** `chain` lists the grants of one client by generation, 1 first. Only the last can be active, and
      each allows what the one before it did. */
  predicate IsChain(grants: map<string, Grant>, owner: string, client: string, chain: seq<string>) {
    chain != []
    && (forall i | 0 <= i < |chain| ::
          chain[i] in grants && IsLocal(grants[chain[i]], owner) && grants[chain[i]].clientId == client
          && grants[chain[i]].generation == i + 1 && grants[chain[i]].kind == OAuth && grants[chain[i]].owner == owner
          && grants[chain[i]].sourceClient == client
          && (i + 1 < |chain| ==> grants[chain[i]].unlinkedAt.Some?))
    && (forall i | 0 < i < |chain| ::
          chain[i - 1] in grants && chain[i] in grants ==> Grows(grants[chain[i - 1]], grants[chain[i]]))
  }

  /** Every grant of the local owner is in the chain of its client, at its generation. */
  predicate AllChained(grants: map<string, Grant>, owner: string, chains: map<string, seq<string>>) {
    forall id | id in grants && IsLocal(grants[id], owner) ::
      var g := grants[id];
      g.clientId in chains && 1 <= g.generation <= |chains[g.clientId]| && chains[g.clientId][g.generation - 1] == id
  }

  /** One binding event per generation. */
  predicate Logged(links: map<string, LinkEvent>, linkId: (string, LinkOperation) -> string, chain: seq<string>) {
    forall i | 0 <= i < |chain| ::
      linkId(chain[i], OperationOf(i)) in links
      && forall l | l in links && links[l].grant == chain[i] && links[l].operation != OtherChange ::
        l == linkId(chain[i], OperationOf(i))
  }

  // --------------------------------------------------------------- one binding

  function NewGrant(owner: string, client: string, generation: int, oauth: seq<string>, memory: seq<string>): Grant {
    Grant(owner, LOCAL_ISSUER, owner, client, generation, OAuth, client, oauth, memory, None, None)
  }

  function Unlinked(g: Grant, now: string): Grant { g.(unlinkedAt := Some(now)) }

  /** The rows after binding generation |chain| + 1. */
  function BoundRows(grants: map<string, Grant>, chain: seq<string>, id: string, g: Grant,
                     now: string): map<string, Grant>
    requires chain != [] ==> chain[|chain| - 1] in grants
  {
    if chain == [] then grants[id := g]
    else var last := chain[|chain| - 1]; grants[last := Unlinked(grants[last], now)][id := g]
  }

  lemma ChainGrows(grants: map<string, Grant>, owner: string, client: string, chain: seq<string>, id: string, g: Grant,
                   now: string)
    requires chain == [] || IsChain(grants, owner, client, chain)
    requires id !in grants && g == NewGrant(owner, client, |chain| + 1, g.oauthScopes, g.memoryScopes)
    requires chain != [] ==> Grows(grants[chain[|chain| - 1]], g)
    ensures IsChain(BoundRows(grants, chain, id, g, now), owner, client, chain + [id])
  {
    var after, longer := BoundRows(grants, chain, id, g, now), chain + [id];
    forall i | 0 <= i < |chain|
      ensures chain[i] in after && chain[i] != id && after[chain[i]].oauthScopes == grants[chain[i]].oauthScopes
        && after[chain[i]].memoryScopes == grants[chain[i]].memoryScopes && after[chain[i]].generation == i + 1
    {
    }
    forall i | 0 < i < |longer| ensures Grows(after[longer[i - 1]], after[longer[i]]) {
      assert longer[i - 1] == chain[i - 1];
      if i < |chain| { assert Grows(grants[chain[i - 1]], grants[chain[i]]); }
    }
  }

  lemma OtherChainStays(grants: map<string, Grant>, owner: string, client: string, chain: seq<string>, id: string,
                        g: Grant, now: string, other: string, rest: seq<string>)
    requires other != client && IsChain(grants, owner, other, rest) && id !in grants
    requires chain != [] ==> IsChain(grants, owner, client, chain)
    ensures IsChain(BoundRows(grants, chain, id, g, now), owner, other, rest)
  {
    var after := BoundRows(grants, chain, id, g, now);
    forall i | 0 <= i < |rest| ensures rest[i] in after && after[rest[i]] == grants[rest[i]] {
      assert grants[rest[i]].clientId == other;
    }
  }

  lemma AllStayChained(grants: map<string, Grant>, owner: string, chains: map<string, seq<string>>, client: string,
                       chain: seq<string>, id: string, g: Grant, now: string)
    requires AllChained(grants, owner, chains) && id !in grants
    requires if client in chains then chain == chains[client] && IsChain(grants, owner, client, chain) else chain == []
    requires g == NewGrant(owner, client, |chain| + 1, g.oauthScopes, g.memoryScopes)
    ensures AllChained(BoundRows(grants, chain, id, g, now), owner, chains[client := chain + [id]])
  {
    var after := BoundRows(grants, chain, id, g, now);
    forall k | k in after && IsLocal(after[k], owner)
      ensures var c := after[k].clientId; var longer := chains[client := chain + [id]];
        c in longer && 1 <= after[k].generation <= |longer[c]| && longer[c][after[k].generation - 1] == k
    {
      if k != id { assert IsLocal(grants[k], owner) && grants[k].clientId == after[k].clientId; }
    }
  }

  lemma LogGrows(links: map<string, LinkEvent>, linkId: (string, LinkOperation) -> string, grants: map<string, Grant>,
                 chain: seq<string>, id: string, e: LinkEvent)
    requires Logged(links, linkId, chain) && (forall i | 0 <= i < |chain| :: chain[i] in grants) && id !in grants
    requires forall l | l in links :: links[l].grant in grants
    requires e.grant == id && e.operation == OperationOf(|chain|) && linkId(id, OperationOf(|chain|)) !in links
    ensures Logged(links[linkId(id, OperationOf(|chain|)) := e], linkId, chain + [id])
  {
  }

  lemma OtherLogStays(links: map<string, LinkEvent>, linkId: (string, LinkOperation) -> string,
                      grants: map<string, Grant>, chain: seq<string>, l: string, e: LinkEvent)
    requires Logged(links, linkId, chain) && (forall i | 0 <= i < |chain| :: chain[i] in grants)
    requires e.grant !in grants && l !in links
    ensures Logged(links[l := e], linkId, chain)
  {
  }

  /** UNIQUE(issuer, subject, client_id, grant_generation) */
  predicate Taken(grants: map<string, Grant>, owner: string, client: string, generation: int) {
    exists id | id in grants ::
      IsLocal(grants[id], owner) && grants[id].clientId == client && grants[id].generation == generation
  }

  lemma TakenIff(grants: map<string, Grant>, owner: string, chains: map<string, seq<string>>, client: string,
                 generation: int)
    requires AllChained(grants, owner, chains) && (client in chains ==> IsChain(grants, owner, client, chains[client]))
    ensures Taken(grants, owner, client, generation) <==> client in chains && 1 <= generation <= |chains[client]|
  {
    if client in chains && 1 <= generation <= |chains[client]| {
      var id := chains[client][generation - 1];
      assert id in grants && grants[id].generation == generation;
    }
  }

  /** An active grant of the identity; with `oauth` one of that kind only. */
  predicate Named(g: Grant, issuer: string, subject: string, client: string, oauth: bool) {
    g.issuer == issuer && g.subject == subject && g.clientId == client && IsActive(g) && (oauth ==> g.kind == OAuth)
  }

  /** Only the last grant of a chain can be active. */
  lemma OnlyLastIsActive(grants: map<string, Grant>, owner: string, chains: map<string, seq<string>>, client: string,
                         id: string)
    requires AllChained(grants, owner, chains) && (client in chains ==> IsChain(grants, owner, client, chains[client]))
    requires id in grants && Named(grants[id], LOCAL_ISSUER, owner, client, false)
    ensures client in chains && id == chains[client][|chains[client]| - 1]
  {
    assert IsLocal(grants[id], owner);
  }

  predicate AllChains(grants: map<string, Grant>, links: map<string, LinkEvent>,
                      linkId: (string, LinkOperation) -> string, owner: string, chains: map<string, seq<string>>)
  {
    forall c | c in chains :: IsChain(grants, owner, c, chains[c]) && Logged(links, linkId, chains[c])
  }

  predicate Orderly(grants: map<string, Grant>, links: map<string, LinkEvent>,
                    linkId: (string, LinkOperation) -> string, owner: string, chains: map<string, seq<string>>)
  {
    AllChained(grants, owner, chains) && AllChains(grants, links, linkId, owner, chains)
    && forall l | l in links :: links[l].grant in grants
  }

  function ChainOf(chains: map<string, seq<string>>, client: string): seq<string> {
    if client in chains then chains[client] else []
  }

  lemma BindingStaysOrderly(grants: map<string, Grant>, links: map<string, LinkEvent>,
                            linkId: (string, LinkOperation) -> string, owner: string, chains: map<string, seq<string>>,
                            client: string, id: string, g: Grant, e: LinkEvent, now: string)
    requires Orderly(grants, links, linkId, owner, chains) && id !in grants
    requires var chain := ChainOf(chains, client);
      (chain != [] ==> chain[|chain| - 1] in grants && Grows(grants[chain[|chain| - 1]], g))
      && g == NewGrant(owner, client, |chain| + 1, g.oauthScopes, g.memoryScopes)
      && e.grant == id && e.operation == OperationOf(|chain|) && linkId(id, OperationOf(|chain|)) !in links
    ensures var chain := ChainOf(chains, client);
      Orderly(BoundRows(grants, chain, id, g, now), links[linkId(id, OperationOf(|chain|)) := e], linkId, owner,
              chains[client := chain + [id]])
  {
    hide IsChain, Logged, Grows, AllChained;
    var chain := ChainOf(chains, client);
    var after, l := BoundRows(grants, chain, id, g, now), linkId(id, OperationOf(|chain|));
    ChainMembers(grants, owner, chains, client);
    AllStayChained(grants, owner, chains, client, chain, id, g, now);
    ChainGrows(grants, owner, client, chain, id, g, now);
    EmptyIsLogged(links, linkId);
    LogGrows(links, linkId, grants, chain, id, e);
    forall c | c in chains && c != client
      ensures IsChain(after, owner, c, chains[c]) && Logged(links[l := e], linkId, chains[c])
    {
      ChainMembers(grants, owner, chains, c);
      OtherChainStays(grants, owner, client, chain, id, g, now, c, chains[c]);
      OtherLogStays(links, linkId, grants, chains[c], l, e);
    }
  }

  lemma ChainMembers(grants: map<string, Grant>, owner: string, chains: map<string, seq<string>>, client: string)
    requires client in chains ==> IsChain(grants, owner, client, chains[client])
    ensures client in chains ==> chains[client] != []
    ensures forall i | 0 <= i < |ChainOf(chains, client)| :: ChainOf(chains, client)[i] in grants
  {
  }

  lemma EmptyIsLogged(links: map<string, LinkEvent>, linkId: (string, LinkOperation) -> string)
    ensures Logged(links, linkId, [])
  {
  }

  /** `id` is active, and none of `ids` is an active grant of the client with a higher generation. */
  predicate Latest(grants: map<string, Grant>, ids: set<string>, id: string, issuer: string, subject: string,
                   client: string, oauth: bool) {
    id in grants && Named(grants[id], issuer, subject, client, oauth)
    && forall k | k in ids && k in grants && Named(grants[k], issuer, subject, client, oauth) ::
      grants[k].generation <= grants[id].generation
  }

  function Told(id: string, g: Grant): Bound { BoundTo(id, g.sourceClient, g.oauthScopes, g.memoryScopes) }

  /** The grant of the next generation: what the last one allowed and what is asked for. */
  function Next(grants: map<string, Grant>, owner: string, client: string, chain: seq<string>, memory: seq<string>,
                oauth: seq<string>): Grant {
    if chain == [] || chain[|chain| - 1] !in grants then NewGrant(owner, client, 1, Dedup(oauth), Dedup(memory))
    else
      var last := grants[chain[|chain| - 1]];
      NewGrant(owner, client, |chain| + 1, Dedup(last.oauthScopes + Dedup(oauth)),
               Dedup(last.memoryScopes + Dedup(memory)))
  }

  lemma NextGrows(grants: map<string, Grant>, owner: string, client: string, chain: seq<string>, memory: seq<string>,
                  oauth: seq<string>)
    requires chain != [] && chain[|chain| - 1] in grants
    ensures Grows(grants[chain[|chain| - 1]], Next(grants, owner, client, chain, memory, oauth))
    ensures CoversAll(Next(grants, owner, client, chain, memory, oauth), memory, oauth)
  {
    var last := grants[chain[|chain| - 1]];
    MergeKeeps(last.oauthScopes, oauth);
    MergeKeeps(last.memoryScopes, memory);
  }

  /** The next grant allows exactly what the last one did and what is asked for, each once. */
  lemma NextIsUnion(grants: map<string, Grant>, owner: string, client: string, chain: seq<string>, memory: seq<string>,
                    oauth: seq<string>, x: string)
    requires chain != [] ==> chain[|chain| - 1] in grants
    ensures var next := Next(grants, owner, client, chain, memory, oauth);
      (x in next.memoryScopes <==> x in memory || (chain != [] && x in grants[chain[|chain| - 1]].memoryScopes))
      && (x in next.oauthScopes <==> x in oauth || (chain != [] && x in grants[chain[|chain| - 1]].oauthScopes))
    ensures var next := Next(grants, owner, client, chain, memory, oauth);
      (forall i, j | 0 <= i < j < |next.memoryScopes| :: next.memoryScopes[i] != next.memoryScopes[j])
      && (forall i, j | 0 <= i < j < |next.oauthScopes| :: next.oauthScopes[i] != next.oauthScopes[j])
      && next.generation == |chain| + 1 && next.owner == owner && next.clientId == client && next.sourceClient == client
      && next.kind == OAuth && next.issuer == LOCAL_ISSUER && next.subject == owner && IsActive(next)
  {
    DedupKeeps(memory, x);
    DedupKeeps(oauth, x);
    if chain != [] {
      var last := grants[chain[|chain| - 1]];
      DedupKeeps(last.memoryScopes + Dedup(memory), x);
      DedupKeeps(last.oauthScopes + Dedup(oauth), x);
    }
  }

  lemma MergeKeeps(s: seq<string>, t: seq<string>)
    ensures Includes(Dedup(s + Dedup(t)), s) && Includes(Dedup(s + Dedup(t)), t)
  {
    forall x ensures (x in s || x in t) <==> x in Dedup(s + Dedup(t)) {
      DedupKeeps(t, x);
      DedupKeeps(s + Dedup(t), x);
    }
  }

  lemma CoversDedup(g: Grant, memory: seq<string>, oauth: seq<string>)
    ensures CoversAll(g, Dedup(memory), Dedup(oauth)) <==> CoversAll(g, memory, oauth)
  {
    forall x ensures x in Dedup(memory) <==> x in memory { DedupKeeps(memory, x); }
    forall x ensures x in Dedup(oauth) <==> x in oauth { DedupKeeps(oauth, x); }
  }

  /** What `lookup_grant` looks for: an OAuth grant of the identity that is neither revoked nor unlinked. */
  predicate Answers(g: Grant, issuer: string, subject: string, client: string) {
    g.kind == GrantKind.OAuth && g.revokedAt == None && g.unlinkedAt == None
    && [g.issuer, g.subject, g.clientId] == [issuer, subject, client]
  }

  /** Nothing of the client is active: its first generation is free exactly if it has none. */
  lemma NoneActive(grants: map<string, Grant>, links: map<string, LinkEvent>, linkId: (string, LinkOperation) -> string,
                   owner: string, chains: map<string, seq<string>>, client: string)
    requires Orderly(grants, links, linkId, owner, chains)
    requires forall id | id in grants :: !Named(grants[id], LOCAL_ISSUER, owner, client, false)
    ensures var chain := ChainOf(chains, client);
      (Taken(grants, owner, client, 1) <==> chain != [])
        && (chain != [] ==> chain[|chain| - 1] in grants && !IsActive(grants[chain[|chain| - 1]]))
  {
    TakenIff(grants, owner, chains, client, 1);
    if client in chains {
      var last := chains[client][|chains[client]| - 1];
      assert last in grants && !Named(grants[last], LOCAL_ISSUER, owner, client, false);
    }
  }

  /** The active grant of the client is its last, and the next generation is free. */
  lemma LastActive(grants: map<string, Grant>, links: map<string, LinkEvent>, linkId: (string, LinkOperation) -> string,
                   owner: string, chains: map<string, seq<string>>, client: string, id: string, now: string)
    requires Orderly(grants, links, linkId, owner, chains) && id in grants
      && Named(grants[id], LOCAL_ISSUER, owner, client, false)
    ensures var chain := ChainOf(chains, client);
      chain != [] && id == chain[|chain| - 1] && grants[id].generation == |chain| && IsActive(grants[id])
      && !Taken(grants[id := Unlinked(grants[id], now)], owner, client, |chain| + 1)
  {
    hide AllChained, Taken, Logged;
    OnlyLastIsActive(grants, owner, chains, client, id);
    TakenIff(grants, owner, chains, client, |chains[client]| + 1);
    UnlinkingTakesNothing(grants, owner, client, id, |chains[client]| + 1, now);
  }

  lemma UnlinkingTakesNothing(grants: map<string, Grant>, owner: string, client: string, id: string, generation: int,
                              now: string)
    requires id in grants
    ensures Taken(grants[id := Unlinked(grants[id], now)], owner, client, generation) ==>
      Taken(grants, owner, client, generation)
  {
    var after := grants[id := Unlinked(grants[id], now)];
    if k :| k in after && IsLocal(after[k], owner) && after[k].clientId == client && after[k].generation == generation {
      assert k in grants && IsLocal(grants[k], owner) && grants[k].clientId == client
          && grants[k].generation == generation;
    }
  }

  class LocalAuthority {
    const owners: seq<string>
    const grantId: (string, string, int) -> string
    const linkId: (string, LinkOperation) -> string
    var grants: map<string, Grant>
    var links: map<string, LinkEvent>
    ghost var chains: map<string, seq<string>>

    ghost predicate Valid()
      reads this
    {
      |owners| == 1 ==> Orderly(grants, links, linkId, owners[0], chains)
    }

    constructor (owners: seq<string>, grantId: (string, string, int) -> string,
                 linkId: (string, LinkOperation) -> string)
      ensures Valid() && this.owners == owners && grants == map[] && links == map[] && chains == map[]
    {
      this.owners, this.grantId, this.linkId := owners, grantId, linkId;
      grants, links, chains := map[], map[], map[];
    }

    /** The active grant of the highest generation, of any kind or of the OAuth kind only. */
    method FindActive(issuer: string, subject: string, client: string, oauth: bool) returns (found: Option<string>)
      ensures found.None? ==> forall id | id in grants :: !Named(grants[id], issuer, subject, client, oauth)
      ensures found.Some? ==> Latest(grants, grants.Keys, found.value, issuer, subject, client, oauth)
    {
      found := None;
      var todo := grants.Keys;
      while todo != {}
        invariant todo <= grants.Keys
        invariant found.None? ==>
          forall id | id in grants.Keys - todo :: !Named(grants[id], issuer, subject, client, oauth)
        invariant found.Some? ==> Latest(grants, grants.Keys - todo, found.value, issuer, subject, client, oauth)
        decreases todo
      {
        var id :| id in todo;
        if Named(grants[id], issuer, subject, client, oauth)
          && (found.None? || grants[found.value].generation <= grants[id].generation) {
          found := Some(id);
        }
        todo := todo - {id};
      }
      assert grants.Keys - todo == grants.Keys;
    }

    /** `lookup_grant`: the active OAuth grant of the identity with the highest generation. For a local
        client it is the grant last bound, if that is still active. */
    method LookupGrant(issuer: string, subject: string, client: string) returns (found: Option<string>)
      requires Valid()
      ensures |owners| == 1 && issuer == LOCAL_ISSUER && subject == owners[0] ==>
        var chain := ChainOf(chains, client);
        found == if chain != [] && IsActive(grants[chain[|chain| - 1]]) then Some(chain[|chain| - 1]) else None
      ensures found.Some? ==>
        found.value in grants && Answers(grants[found.value], issuer, subject, client)
        && forall id | id in grants && Answers(grants[id], issuer, subject, client) ::
             grants[id].generation <= grants[found.value].generation
      ensures found.None? ==> forall id | id in grants :: !Answers(grants[id], issuer, subject, client)
    {
      found := FindActive(issuer, subject, client, true);
      if |owners| == 1 && issuer == LOCAL_ISSUER && subject == owners[0] {
        if found.Some? {
          OnlyLastIsActive(grants, owners[0], chains, client, found.value);
        } else if client in chains {
          var last := chains[client][|chains[client]| - 1];
          assert last in grants && !Named(grants[last], issuer, subject, client, true);
        }
      }
    }

    /** `ensure_local_grant`. A covered call changes nothing; else the next generation is bound, with the
        scopes of the last one and the new ones; and once the last grant is revoked or unlinked no call
        can bind again, since it would have to be generation 1. */
    method EnsureLocalGrant(client: string, memory: seq<string>, oauth: seq<string>, now: string) returns (r: Bound)
      requires Valid()
      modifies this`grants, this`links, this`chains
      ensures Valid()
      ensures r.Unbound? ==> grants == old(grants) && links == old(links) && chains == old(chains)
      ensures memory == [] ==> r == Unbound(NoScopes)
      ensures memory != [] && |owners| != 1 ==> r == Unbound(if owners == [] then NotInitialised else ManyOwners)
      ensures memory != [] && |owners| == 1 ==>
        var chain := ChainOf(old(chains), client);
        var n, id := |chain|, grantId(owners[0], client, |chain| + 1);
        if n > 0 && (old(grants)[chain[n - 1]].revokedAt.Some? || old(grants)[chain[n - 1]].unlinkedAt.Some?)
        then r == Unbound(CannotBind)
        else if n > 0 && (forall s | s in memory :: s in old(grants)[chain[n - 1]].memoryScopes)
                && (forall s | s in oauth :: s in old(grants)[chain[n - 1]].oauthScopes)
        then
          var g := old(grants)[chain[n - 1]];
          r == BoundTo(chain[n - 1], g.sourceClient, g.oauthScopes, g.memoryScopes)
          && grants == old(grants) && links == old(links) && chains == old(chains)
        else
          var operation := if n == 0 then InitialBind else ScopeChange;
          if id in old(grants) || linkId(id, operation) in old(links) then r == Unbound(CannotBind)
          else
            var g := Next(old(grants), owners[0], client, chain, memory, oauth);
            r == BoundTo(id, g.sourceClient, g.oauthScopes, g.memoryScopes)
            && chains == old(chains)[client := chain + [id]]
            && grants == BoundRows(old(grants), chain, id, g, now)
            && links == old(links)[linkId(id, operation) := LinkEvent(owners[0], id, operation, "actor:" + client, now)]
    {
      hide Orderly, IsChain, Dedup, Named, Taken, Grows, AllChained, AllChains;
      if memory == [] { return Unbound(NoScopes); }
      if owners == [] { return Unbound(NotInitialised); }
      if |owners| > 1 { return Unbound(ManyOwners); }
      var owner := owners[0];
      var scopes, wanted := Dedup(memory), Dedup(oauth);
      var row := FindActive(LOCAL_ISSUER, owner, client, false);
      var generation, operation, rows := 1, InitialBind, grants;
      ghost var chain := ChainOf(chains, client);
      if row.Some? {
        var stored := grants[row.value];
        LastActive(grants, links, linkId, owner, chains, client, row.value, now);
        CoversDedup(stored, memory, oauth);
        if CoversAll(stored, scopes, wanted) { return Told(row.value, stored); }
        generation, operation := stored.generation + 1, ScopeChange;
        scopes, wanted := Dedup(stored.memoryScopes + scopes), Dedup(stored.oauthScopes + wanted);
        rows := rows[row.value := Unlinked(stored, now)];
        NextGrows(grants, owner, client, chain, memory, oauth);
      } else {
        NoneActive(grants, links, linkId, owner, chains, client);
      }
      var id := grantId(owner, client, generation);
      var link := linkId(id, operation);
      if id in rows || Taken(rows, owner, client, generation) || link in links { return Unbound(CannotBind); }
      var g := NewGrant(owner, client, generation, wanted, scopes);
      var e := LinkEvent(owner, id, operation, "actor:" + client, now);
      BindingStaysOrderly(grants, links, linkId, owner, chains, client, id, g, e, now);
      grants := rows[id := g];
      links := links[link := e];
      chains := chains[client := chain + [id]];
      r := Told(id, g);
    }

    /** A revocation by the owner, which this module does not perform itself. */
    method Revoke(id: string, now: string)
      requires Valid()
      modifies this`grants
      ensures Valid()
      ensures grants
        == if id in old(grants) then old(grants)[id := old(grants)[id].(revokedAt := Some(now))] else old(grants)
    {
      if id in grants {
        if |owners| == 1 { RevokingStaysOrderly(grants, links, linkId, owners[0], chains, id, now); }
        grants := grants[id := grants[id].(revokedAt := Some(now))];
      }
    }
  }

  lemma RevokingStaysOrderly(grants: map<string, Grant>, links: map<string, LinkEvent>,
                             linkId: (string, LinkOperation) -> string, owner: string, chains: map<string, seq<string>>,
                             id: string, now: string)
    requires Orderly(grants, links, linkId, owner, chains) && id in grants
    ensures Orderly(grants[id := grants[id].(revokedAt := Some(now))], links, linkId, owner, chains)
  {
    hide IsChain, Logged, AllChained;
    RevokingStaysChained(grants, owner, chains, id, now);
    forall c | c in chains ensures IsChain(grants[id := grants[id].(revokedAt := Some(now))], owner, c, chains[c]) {
      RevokingKeepsChain(grants, owner, c, chains[c], id, now);
    }
  }

  lemma RevokingStaysChained(grants: map<string, Grant>, owner: string, chains: map<string, seq<string>>, id: string,
                             now: string)
    requires AllChained(grants, owner, chains) && id in grants
    ensures AllChained(grants[id := grants[id].(revokedAt := Some(now))], owner, chains)
  {
    var after := grants[id := grants[id].(revokedAt := Some(now))];
    forall k | k in after && IsLocal(after[k], owner)
      ensures var c := after[k].clientId;
        c in chains && 1 <= after[k].generation <= |chains[c]| && chains[c][after[k].generation - 1] == k
    {
      assert IsLocal(grants[k], owner);
    }
  }

  lemma RevokingKeepsChain(grants: map<string, Grant>, owner: string, client: string, chain: seq<string>, id: string,
                           now: string)
    requires IsChain(grants, owner, client, chain) && id in grants
    ensures IsChain(grants[id := grants[id].(revokedAt := Some(now))], owner, client, chain)
  {
    var after := grants[id := grants[id].(revokedAt := Some(now))];
    forall i | 0 < i < |chain| ensures Grows(after[chain[i - 1]], after[chain[i]]) {
      assert Grows(grants[chain[i - 1]], grants[chain[i]]);
    }
  }
}
