/** The subdomain registry (registry.go): a map changed in place under one lock. */
module Registry {
  import opened Basics

  /** A session is identified by the connection that made it. */
  type SessionId = nat

  datatype Entry = Entry(session: SessionId, tokenId: string)

  type Table = map<string, Entry>

  /** May `tokenId` have `name`, with the sessions in `stale` having missed a heartbeat? */
  predicate MayClaim(t: Table, name: string, tokenId: string, stale: set<SessionId>) {
    name in t ==> tokenId != "" && t[name].tokenId == tokenId && t[name].session in stale
  }

  /** A free name is anybody's; a held one only its stale holder's own, by a token that has an id. */
  lemma ClaimCases(t: Table, name: string, tokenId: string, stale: set<SessionId>)
    ensures name !in t ==> MayClaim(t, name, tokenId, stale)
    ensures name in t && tokenId != "" && t[name].tokenId == tokenId && t[name].session in stale
            ==> MayClaim(t, name, tokenId, stale)
    ensures name in t && (tokenId == "" || t[name].tokenId != tokenId || t[name].session !in stale)
            ==> !MayClaim(t, name, tokenId, stale)
  {
  }

  function Evicted(t: Table, name: string): Option<SessionId> {
    if name in t then Some(t[name].session) else None
  }

  /** Only the holder itself releases a name. */
  function Released(t: Table, name: string, session: SessionId): Table {
    if name in t && t[name].session == session then t - {name} else t
  }

  class Client {
    const subdomain: string
    const session: SessionId
    const tokenId: string
    var isProtected: bool
    var ready: bool              // the ready channel is closed
    ghost var closings: nat      // closing it twice would panic

    ghost predicate Valid()
      reads this
    {
      closings == if ready then 1 else 0
    }

    constructor (subdomain: string, session: SessionId, tokenId: string)
      ensures this.subdomain == subdomain && this.session == session && this.tokenId == tokenId
      ensures Valid() && !isProtected && !ready
    {
      this.subdomain := subdomain;
      this.session := session;
      this.tokenId := tokenId;
      isProtected := false;
      ready, closings := false, 0;
    }

    /** However often it is called, the channel is closed once. */
    method MarkReady()
      requires Valid()
      modifies this`ready, this`closings
      ensures Valid() && ready && closings == 1
    {
      if !ready {
        ready, closings := true, closings + 1;
      }
    }
  }

  class Clients {
    var clients: map<string, Client>

    constructor ()
      ensures Valid() && AsTable() == map[]
    {
      clients := map[];
    }

    /** Every client is filed under its own name. */
    ghost predicate Valid()
      reads this
    {
      forall n :: n in clients ==> clients[n].subdomain == n
    }

    ghost function AsTable(): Table
      reads this
    {
      map n | n in clients :: Entry(clients[n].session, clients[n].tokenId)
    }

    method Register(sub: string, session: SessionId, tokenId: string, stale: set<SessionId>)
      returns (c: Option<Client>, evicted: Option<Client>)
      requires Valid()
      modifies this
      ensures Valid()
      ensures c.Some? <==>
                || sub !in old(clients)
                || (tokenId != "" && old(clients[sub]).tokenId == tokenId && old(clients[sub]).session in stale)
      ensures c.Some? <==> MayClaim(old(AsTable()), sub, tokenId, stale)
      ensures c.None? ==> AsTable() == old(AsTable()) && evicted.None?
      ensures c.Some? ==> AsTable() == old(AsTable())[sub := Entry(session, tokenId)]
      ensures c.Some? ==> fresh(c.value) && c.value.Valid() && !c.value.ready && sub in clients && clients[sub] == c.value
      ensures c.Some? ==> (evicted.Some? <==> sub in old(clients)) && (evicted.Some? ==> evicted.value == old(clients[sub]))
    {
      c, evicted := None, None;
      if sub in clients {
        var cur := clients[sub];
        if tokenId == "" || cur.tokenId != tokenId || cur.session !in stale {
          return;
        }
        evicted := Some(cur);
      }
      var client := new Client(sub, session, tokenId);
      clients := clients[sub := client];
      c := Some(client);
    }

    method Unregister(c: Client)
      requires Valid()
      modifies this
      ensures Valid() && AsTable() == Released(old(AsTable()), c.subdomain, c.session)
      ensures clients == if c.subdomain in old(clients) && old(clients[c.subdomain].session) == c.session
                         then old(clients) - {c.subdomain} else old(clients)
    {
      if c.subdomain !in clients || clients[c.subdomain].session != c.session {
        return;
      }
      clients := clients - {c.subdomain};
    }

    method Get(sub: string) returns (c: Option<Client>)
      requires Valid()
      ensures c.Some? <==> sub in AsTable()
      ensures c.Some? ==> c.value.subdomain == sub && AsTable()[sub] == Entry(c.value.session, c.value.tokenId)
    {
      c := if sub in clients then Some(clients[sub]) else None;
    }
  }
}
