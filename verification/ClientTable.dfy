/**
 The server's table of connected clients: a vector with two index maps kept
 through removal by swapping, and the cyclic search for an unused client id.
 */
module ClientTables {
  import opened Wrappers

  const INVALID_ID := 255
  const MAX_ID := 254

  datatype ClientState = ClientState(id: nat, peer: nat, local: bool, ready: bool, idle: real, resend: real, replicating: bool)

  datatype Table = Table(clients: seq<ClientState>, byId: map<nat, nat>, byPeer: map<nat, nat>, next: nat) {
    ghost predicate IdsValid() {
      forall c <- byId :: byId[c] < |clients| && clients[byId[c]].id == c
    }

    /** Local clients have no peer. */
    ghost predicate PeersValid() {
      forall p <- byPeer :: byPeer[p] < |clients| && !clients[byPeer[p]].local && clients[byPeer[p]].peer == p
    }

    ghost predicate ClientsValid() {
      forall i | 0 <= i < |clients| ::
        && clients[i].id <= MAX_ID && clients[i].id in byId && byId[clients[i].id] == i
        && (!clients[i].local ==> clients[i].peer in byPeer && byPeer[clients[i].peer] == i)
    }

    /** Both maps are exact inverses of the vector. */
    ghost predicate Valid() {
      IdsValid() && PeersValid() && ClientsValid() && 1 <= next <= MAX_ID
    }
  }

  const NoClients := Table([], map[], map[], 1)

  function NextId(id: nat): (n: nat)
    ensures 1 <= n
    ensures id <= MAX_ID ==> n <= MAX_ID
  {
    if id >= MAX_ID then 1 else id + 1
  }

  /** The first id from `candidate` on that nobody holds, trying `attempts` of them around the cycle. */
  function FindFrom(t: Table, candidate: nat, attempts: nat): nat
    decreases attempts
  {
    if attempts == 0 then INVALID_ID
    else if candidate != INVALID_ID && candidate !in t.byId then candidate
    else FindFrom(t, NextId(candidate), attempts - 1)
  }

  /** `find_next_available_client_id`. */
  function FindNextAvailable(t: Table): nat {
    FindFrom(t, t.next, MAX_ID)
  }

  /** The search passes the ids from `candidate` up to the end of the cycle, then those from the start. */
  lemma {:induction false} SearchCovers(t: Table, candidate: nat, attempts: nat, free: nat)
    requires 1 <= candidate <= MAX_ID && 1 <= free <= MAX_ID && free !in t.byId
    requires attempts > (if free >= candidate then free - candidate else MAX_ID - candidate + free)
    ensures FindFrom(t, candidate, attempts) != INVALID_ID
    decreases attempts
  {
    if candidate in t.byId {
      SearchCovers(t, NextId(candidate), attempts - 1, free);
    }
  }

  lemma {:induction false} FoundIsFree(t: Table, candidate: nat, attempts: nat)
    requires 1 <= candidate <= MAX_ID
    ensures var id := FindFrom(t, candidate, attempts); id == INVALID_ID || (1 <= id <= MAX_ID && id !in t.byId)
    decreases attempts
  {
    if attempts > 0 {
      FoundIsFree(t, NextId(candidate), attempts - 1);
    }
  }

  /** An unused id is found exactly when there is one. */
  lemma FindsAvailable(t: Table)
    requires t.Valid()
    ensures var id := FindNextAvailable(t);
            && (id == INVALID_ID <==> forall free | 1 <= free <= MAX_ID :: free in t.byId)
            && (id != INVALID_ID ==> 1 <= id <= MAX_ID && id !in t.byId)
  {
    FoundIsFree(t, t.next, MAX_ID);
    if exists free :: 1 <= free <= MAX_ID && free !in t.byId {
      var free :| 1 <= free <= MAX_ID && free !in t.byId;
      SearchCovers(t, t.next, MAX_ID, free);
    }
  }

  /** `add_client_state`: nothing when the id or the peer is taken or out of range. */
  function Add(t: Table, c: ClientState, invalidPeer: nat): Option<Table> {
    if c.id == INVALID_ID || c.id > MAX_ID || c.id in t.byId then None
    else if !c.local && (c.peer == invalidPeer || c.peer in t.byPeer) then None
    else
      var stored := c.(replicating := !c.local && c.ready);
      Some(Table(t.clients + [stored],
                 t.byId[c.id := |t.clients|],
                 if c.local then t.byPeer else t.byPeer[c.peer := |t.clients|],
                 if c.id >= t.next then (if c.id >= MAX_ID then 1 else c.id + 1) else t.next))
  }

  /** `remove_client`: the last client takes the removed one's place. */
  function Remove(t: Table, id: nat): Table
    requires t.Valid()
  {
    if id !in t.byId then t
    else
      var index, last := t.byId[id], |t.clients| - 1;
      var gone, moved := t.clients[index], t.clients[last];
      var byId := if index != last then t.byId[moved.id := index] else t.byId;
      var byPeer := if index != last && !moved.local then t.byPeer[moved.peer := index] else t.byPeer;
      t.(clients := t.clients[index := moved][..last],
         byId := byId - {id},
         byPeer := if gone.local then byPeer else byPeer - {gone.peer})
  }

  lemma AddedMaps(t: Table, c: ClientState, invalidPeer: nat)
    requires t.Valid() && Add(t, c, invalidPeer).Some?
    ensures Add(t, c, invalidPeer).value.Valid()
  {
    var t' := Add(t, c, invalidPeer).value;
    assert forall i | 0 <= i < |t.clients| :: t'.clients[i] == t.clients[i];
  }

  /** Adding keeps the maps inverse and changes nothing but the new client. */
  lemma AddValid(t: Table, c: ClientState, invalidPeer: nat)
    requires t.Valid()
    ensures var u := Add(t, c, invalidPeer);
            && (u.Some? <==> c.id <= MAX_ID && c.id !in t.byId && (c.local || (c.peer != invalidPeer && c.peer !in t.byPeer)))
            && (u.Some? ==> u.value.Valid() && u.value.clients[..|t.clients|] == t.clients && |u.value.clients| == |t.clients| + 1)
  {
    hide Table.Valid;
    if Add(t, c, invalidPeer).Some? {
      AddedMaps(t, c, invalidPeer);
    }
  }

  /** Removing keeps the maps inverse and the other clients, each exactly as it was. */
  lemma RemoveValid(t: Table, id: nat)
    requires t.Valid()
    ensures var t' := Remove(t, id);
            && t'.Valid() && id !in t'.byId && t'.next == t.next
            && |t'.clients| == |t.clients| - (if id in t.byId then 1 else 0)
            && (forall c :: c in t'.clients <==> c in t.clients && c.id != id)
            && (forall i | 0 <= i < |t'.clients| && (id !in t.byId || i != t.byId[id]) :: t'.clients[i] == t.clients[i])
  {
    if id in t.byId {
      var index, last := t.byId[id], |t.clients| - 1;
      var t' := Remove(t, id);
      forall c | c in t.clients && c.id != id ensures c in t'.clients {
        var i :| 0 <= i < |t.clients| && t.clients[i] == c;
        assert t'.clients[if i == last then index else i] == c;
      }
      forall c | c in t'.clients ensures c in t.clients && c.id != id {
        var i :| 0 <= i < |t'.clients| && t'.clients[i] == c;
        assert t.clients[if i == index then last else i] == c;
      }
      RemovedClients(t, id);
      RemovedMaps(t, id);
    }
  }

  /** Where the client at `i` was before the removal. */
  function Origin(t: Table, id: nat, i: nat): nat
    requires id in t.byId && t.clients != []
  {
    if i == t.byId[id] then |t.clients| - 1 else i
  }

  lemma RemovedFrom(t: Table, id: nat)
    requires t.Valid() && id in t.byId
    ensures var t' := Remove(t, id);
            && |t'.clients| == |t.clients| - 1 && t.byId[id] < |t.clients|
            && forall i | 0 <= i < |t'.clients| :: t'.clients[i] == t.clients[Origin(t, id, i)] && Origin(t, id, i) != t.byId[id]
  {
  }

  lemma RemovedClients(t: Table, id: nat)
    requires t.Valid() && id in t.byId
    ensures Remove(t, id).ClientsValid()
  {
    var t' := Remove(t, id);
    RemovedFrom(t, id);
    forall i | 0 <= i < |t'.clients|
      ensures t'.clients[i].id <= MAX_ID && t'.clients[i].id in t'.byId && t'.byId[t'.clients[i].id] == i
      ensures !t'.clients[i].local ==> t'.clients[i].peer in t'.byPeer && t'.byPeer[t'.clients[i].peer] == i
    {
      assert t'.clients[i] == t.clients[Origin(t, id, i)];
    }
  }

  lemma RemovedMaps(t: Table, id: nat)
    requires t.Valid() && id in t.byId
    ensures Remove(t, id).IdsValid() && Remove(t, id).PeersValid()
  {
    RemovedFrom(t, id);
    var t', last := Remove(t, id), |t.clients| - 1;
    forall c <- t'.byId ensures t'.byId[c] < |t'.clients| && t'.clients[t'.byId[c]].id == c {
      assert c != id && c in t.byId;
    }
    forall p <- t'.byPeer
      ensures t'.byPeer[p] < |t'.clients| && !t'.clients[t'.byPeer[p]].local && t'.clients[t'.byPeer[p]].peer == p
    {
      assert p in t.byPeer;
    }
  }

  /** Distinct clients hold distinct ids, and distinct remote clients distinct peers. */
  lemma DistinctClients(t: Table, i: nat, j: nat)
    requires t.Valid() && i < j < |t.clients|
    ensures t.clients[i].id != t.clients[j].id
    ensures !t.clients[i].local && !t.clients[j].local ==> t.clients[i].peer != t.clients[j].peer
  {
    assert t.byId[t.clients[i].id] == i && t.byId[t.clients[j].id] == j;
  }

  datatype Up = Request(peer: nat) | Ack(peer: nat, id: nat)
  datatype Down = Response(peer: nat, accepted: bool, id: nat) | Update(peer: nat)

  // -------------------------------------------------------------- the server

  function IdFor(t: Table, peer: nat): Option<nat> {
    if peer in t.byPeer && t.byPeer[peer] < |t.clients| then Some(t.clients[t.byPeer[peer]].id) else None
  }

  predicate ReadyPeer(t: Table, peer: nat) {
    peer in t.byPeer && t.byPeer[peer] < |t.clients| && t.clients[t.byPeer[peer]].ready && t.clients[t.byPeer[peer]].replicating
  }

  function PutClient(t: Table, peer: nat, c: ClientState): Table
    requires t.Valid() && peer in t.byPeer
  {
    t.(clients := t.clients[t.byPeer[peer] := c])
  }

  /** The application's answer to a connect request: whether to accept, and under which id. */
  type Handler = nat -> (bool, nat)

  /** `process_connect_request_packet`. */
  function HandleRequest(t: Table, peer: nat, invalidPeer: nat, handler: Handler): (Table, Option<Down>)
    requires t.Valid()
  {
    if peer in t.byPeer then
      var c := t.clients[t.byPeer[peer]];
      (PutClient(t, peer, c.(idle := 0.0, resend := 0.0)), Some(Response(peer, true, c.id)))
    else
      var (accepted, id) := handler(FindNextAvailable(t));
      if !accepted || id == INVALID_ID || id > MAX_ID then (t, Some(Response(peer, false, 0)))
      else
        match Add(t, ClientState(id, peer, false, false, 0.0, 0.0, false), invalidPeer)
        case None => (t, None)
        case Some(t') => (t', Some(Response(peer, true, id)))
  }

  /** `process_connection_request_ack_packet`: only the right id makes the client ready. */
  function HandleAck(t: Table, peer: nat, id: nat): Table
    requires t.Valid()
  {
    if peer !in t.byPeer then t
    else
      var c := t.clients[t.byPeer[peer]].(idle := 0.0);
      PutClient(t, peer, if c.id == id && !c.ready then c.(ready := true, replicating := true) else c)
  }

  /** `add_local_client`. */
  function HandleLocal(t: Table, invalidPeer: nat): Table
    requires t.Valid()
  {
    match Add(t, ClientState(FindNextAvailable(t), invalidPeer, true, true, 0.0, 0.0, false), invalidPeer)
    case None => t
    case Some(t') => t'
  }

  predicate TimedOut(c: ClientState, limit: real) {
    !c.local && c.idle >= limit
  }

  lemma Placed(t: Table, id: nat)
    requires t.Valid() && id in t.byId
    ensures t.byId[id] < |t.clients|
  {
  }

  class ClientList {
    var clients: seq<ClientState>
    var byId: map<nat, nat>
    var byPeer: map<nat, nat>
    var next: nat
    const invalidPeer: nat

    function Model(): Table
      reads this
    {
      Table(clients, byId, byPeer, next)
    }

    constructor (invalidPeer: nat)
      ensures Model() == NoClients && Model().Valid()
    {
      clients, byId, byPeer, next := [], map[], map[], 1;
      this.invalidPeer := invalidPeer;
    }

    method FindNextAvailableClientId() returns (id: nat)
      requires Model().Valid()
      ensures id == FindNextAvailable(Model())
      ensures id == INVALID_ID <==> forall free | 1 <= free <= MAX_ID :: free in byId
      ensures id != INVALID_ID ==> 1 <= id <= MAX_ID && id !in byId
    {
      FindsAvailable(Model());
      var candidate: nat, attempts := next, 0;
      while attempts < MAX_ID
        invariant attempts <= MAX_ID && 1 <= candidate <= MAX_ID
        invariant FindNextAvailable(Model()) == FindFrom(Model(), candidate, MAX_ID - attempts)
      {
        if candidate != INVALID_ID && candidate !in byId {
          return candidate;
        }
        candidate := NextId(candidate);
        attempts := attempts + 1;
      }
      return INVALID_ID;
    }

    method AddClientState(state: ClientState) returns (ok: bool)
      requires Model().Valid()
      modifies this
      ensures Model().Valid()
      ensures var u := Add(old(Model()), state, invalidPeer);
              if ok then u == Some(Model()) else u.None? && Model() == old(Model())
    {
      hide Table.Valid;
      ghost var before := Model();
      AddValid(before, state, invalidPeer);
      if state.id == INVALID_ID || state.id > MAX_ID || state.id in byId {
        return false;
      }
      if !state.local && (state.peer == invalidPeer || state.peer in byPeer) {
        return false;
      }
      var index := |clients|;
      var peers := if state.local then byPeer else byPeer[state.peer := index];
      var following := if state.id < next then next else if state.id >= MAX_ID then 1 else state.id + 1;
      clients := clients + [state.(replicating := !state.local && state.ready)];
      byId, byPeer, next := byId[state.id := index], peers, following;
      assert Add(before, state, invalidPeer) == Some(Model());
      return true;
    }

    /** `process_connect_request_packet`; the reply is what goes back to the peer. */
    method ProcessConnectRequest(peer: nat, handler: Handler) returns (reply: Option<Down>)
      requires Model().Valid()
      modifies this
      ensures (Model(), reply) == HandleRequest(old(Model()), peer, invalidPeer, handler)
    {
      if peer in byPeer {
        var c := clients[byPeer[peer]];
        clients := clients[byPeer[peer] := c.(idle := 0.0, resend := 0.0)];
        return Some(Response(peer, true, c.id));
      }
      var proposed := FindNextAvailableClientId();
      var (accepted, id) := handler(proposed);
      if !accepted || id == INVALID_ID || id > MAX_ID {
        return Some(Response(peer, false, 0));
      }
      var added := AddClientState(ClientState(id, peer, false, false, 0.0, 0.0, false));
      reply := if added then Some(Response(peer, true, id)) else None;
    }

    /** `process_connection_request_ack_packet`. */
    method ProcessConnectionRequestAck(peer: nat, id: nat) returns (ok: bool)
      requires Model().Valid()
      modifies this
      ensures Model() == HandleAck(old(Model()), peer, id)
      ensures ok == (peer in old(byPeer) && old(clients)[old(byPeer)[peer]].id == id)
    {
      if peer !in byPeer {
        return false;
      }
      var index := byPeer[peer];
      var c := clients[index].(idle := 0.0);
      ok := c.id == id;
      if ok && !c.ready {
        c := c.(ready := true, replicating := true);
      }
      clients := clients[index := c];
    }

    method RemoveClient(id: nat) returns (ok: bool)
      requires Model().Valid()
      modifies this
      ensures Model().Valid() && Model() == Remove(old(Model()), id) && ok == (id in old(byId))
    {
      hide Table.Valid;
      ghost var before := Model();
      RemoveValid(before, id);
      if id !in byId {
        return false;
      }
      Placed(before, id);
      var index, last := byId[id], |clients| - 1;
      var gone, ids, peers, moved := clients[index], byId, byPeer, clients;
      if index != last {
        moved := clients[index := clients[last]];
        ids := ids[moved[index].id := index];
        if !moved[index].local {
          peers := peers[moved[index].peer := index];
        }
      }
      if !gone.local {
        peers := peers - {gone.peer};
      }
      clients, byId, byPeer := moved[..last], ids - {id}, peers;
      assert clients == Remove(before, id).clients;
      return true;
    }

    /** The timeout loop: removal moves the last client to `index`, which is looked at next. */
    method DisconnectTimedOutClients(limit: real)
      requires Model().Valid()
      modifies this
      ensures Model().Valid() && next == old(next)
      ensures forall c :: c in clients <==> c in old(clients) && !(limit != 0.0 && TimedOut(c, limit))
    {
      hide Table.Valid, Remove;
      if limit == 0.0 {
        return;
      }
      var index := 0;
      while index < |clients|
        invariant Model().Valid() && index <= |clients| && next == old(next)
        invariant forall i | 0 <= i < index :: !TimedOut(clients[i], limit)
        invariant forall c | c in clients :: c in old(clients)
        invariant forall c | c in old(clients) && !TimedOut(c, limit) :: c in clients
        decreases |clients| - index
      {
        var client := clients[index];
        if client.local || client.idle < limit {
          index := index + 1;
        } else {
          RemoveValid(Model(), client.id);
          OnlyThatClient(Model(), index);
          var _ := RemoveClient(client.id);
        }
      }
    }
  }

  lemma OnlyThatClient(t: Table, i: nat)
    requires t.Valid() && i < |t.clients|
    ensures t.clients[i].id in t.byId && t.byId[t.clients[i].id] == i
    ensures forall d | d in t.clients && d.id == t.clients[i].id :: d == t.clients[i]
  {
  }
}
