/**
 Connecting over a network that loses, repeats and reorders messages: the
 request, the response with the client's id, the client's acknowledgement of
 it, and the updates that follow.
 */
module Handshakes {
  import opened Wrappers
  import opened ClientTables

  /** A handler that accepts everybody under the proposed id. */
  const AcceptAll: Handler := (id: nat) => (true, id)

  datatype Phase = Connecting | Accepted | Ready | Rejected

  // -------------------------------------------------------------- the client

  datatype ClientEnd = ClientEnd(phase: Phase, id: nat, asked: bool, resend: real)

  const NewEnd := ClientEnd(Connecting, INVALID_ID, false, 0.0)

  /** `receive_connect_response`. */
  function ReceiveResponse(e: ClientEnd, accepted: bool, id: nat, interval: real): ClientEnd {
    if !accepted then e.(phase := Rejected, id := INVALID_ID)
    else if id > MAX_ID then e.(id := INVALID_ID)
    else e.(phase := Accepted, id := id, resend := interval)
  }

  function ReceiveUpdate(e: ClientEnd): ClientEnd {
    e.(phase := Ready)
  }

  /** `drain_connect_packets`: the message due now, if any. */
  function Drain(e: ClientEnd, peer: nat, interval: real): (ClientEnd, Option<Up>) {
    if e.phase.Connecting? then
      if e.asked && e.resend < interval then (e, None) else (e.(asked := true, resend := 0.0), Some(Request(peer)))
    else if e.phase.Accepted? && e.id != INVALID_ID then
      if e.resend < interval then (e, None) else (e.(resend := 0.0), Some(Ack(peer, e.id)))
    else (e, None)
  }

  // -------------------------------------------------------------- the system

  /** `up` and `down` hold every message ever sent: any may arrive late, again, or never. */
  datatype System = System(table: Table, ends: map<nat, ClientEnd>, up: set<Up>, down: set<Down>)

  datatype Step =
    | Waits(peer: nat, dt: real)
    | Drains(peer: nat)
    | ServerHears(message: Up)
    | Resends(peer: nat)
    | SendsUpdate(peer: nat)
    | ClientHears(reply: Down)
    | LocalJoins

  function Begin(peers: set<nat>): System {
    System(NoClients, map p <- peers :: NewEnd, {}, {})
  }

  function ServerReceives(sys: System, m: Up, invalidPeer: nat): System
    requires sys.table.Valid()
  {
    match m
    case Request(p) =>
      var (t, reply) := HandleRequest(sys.table, p, invalidPeer, AcceptAll);
      sys.(table := t, down := if reply.Some? then sys.down + {reply.value} else sys.down)
    case Ack(p, id) => sys.(table := HandleAck(sys.table, p, id))
  }

  function ClientReceives(sys: System, m: Down, interval: real): System {
    if m.peer !in sys.ends then sys
    else
      var e := sys.ends[m.peer];
      sys.(ends := sys.ends[m.peer := match m
                                      case Response(_, accepted, id) => ReceiveResponse(e, accepted, id, interval)
                                      case Update(_) => ReceiveUpdate(e)])
  }

  /** One step; a step that is not possible changes nothing. */
  function After(sys: System, step: Step, interval: real, invalidPeer: nat): System
    requires sys.table.Valid()
  {
    match step
    case Waits(p, dt) =>
      if p in sys.ends then sys.(ends := sys.ends[p := sys.ends[p].(resend := sys.ends[p].resend + dt)]) else sys
    case Drains(p) =>
      if p !in sys.ends then sys
      else
        var (e, m) := Drain(sys.ends[p], p, interval);
        sys.(ends := sys.ends[p := e], up := if m.Some? then sys.up + {m.value} else sys.up)
    case ServerHears(m) => if m in sys.up then ServerReceives(sys, m, invalidPeer) else sys
    case Resends(p) =>
      if p in sys.table.byPeer && !sys.table.clients[sys.table.byPeer[p]].ready
      then sys.(down := sys.down + {Response(p, true, sys.table.clients[sys.table.byPeer[p]].id)}) else sys
    case SendsUpdate(p) => if ReadyPeer(sys.table, p) then sys.(down := sys.down + {Update(p)}) else sys
    case ClientHears(m) => if m in sys.down then ClientReceives(sys, m, interval) else sys
    case LocalJoins => sys.(table := HandleLocal(sys.table, invalidPeer))
  }

  // ------------------------------------------------------------ correctness

  ghost predicate Full(t: Table) {
    forall id | 1 <= id <= MAX_ID :: id in t.byId
  }

  ghost predicate UpSound(t: Table, m: Up) {
    m.Ack? ==> IdFor(t, m.peer) == Some(m.id)
  }

  /** Only a client that was accepted acknowledges, and it stays so. */
  ghost predicate Acknowledged(ends: map<nat, ClientEnd>, m: Up) {
    m.Ack? ==> m.peer in ends && (ends[m.peer].phase.Accepted? || ends[m.peer].phase.Ready?)
  }

  ghost predicate DownSound(t: Table, m: Down) {
    match m
    case Response(p, accepted, id) => if accepted then IdFor(t, p) == Some(id) else p !in t.byPeer && Full(t)
    case Update(p) => ReadyPeer(t, p)
  }

  ghost predicate EndSound(t: Table, p: nat, e: ClientEnd) {
    match e.phase
    case Connecting => e.id == INVALID_ID
    case Rejected => p !in t.byPeer && Full(t)
    case _ => IdFor(t, p) == Some(e.id)
  }

  /** What every run keeps. */
  ghost predicate Sound(sys: System) {
    && sys.table.Valid()
    && (forall m <- sys.up :: UpSound(sys.table, m) && Acknowledged(sys.ends, m))
    && (forall m <- sys.down :: DownSound(sys.table, m))
    && (forall p <- sys.ends :: EndSound(sys.table, p, sys.ends[p]))
    && (forall i | 0 <= i < |sys.table.clients| && !sys.table.clients[i].local && (sys.table.clients[i].ready || sys.table.clients[i].replicating) ::
          && sys.table.clients[i].ready && sys.table.clients[i].replicating
          && Ack(sys.table.clients[i].peer, sys.table.clients[i].id) in sys.up)
  }

  /** The server never takes an id or readiness back, and a full table takes nobody in. */
  ghost predicate Extends(t: Table, t': Table) {
    && t'.Valid()
    && (forall p <- t.byPeer :: IdFor(t', p) == IdFor(t, p) && (ReadyPeer(t, p) ==> ReadyPeer(t', p)))
    && (Full(t) ==> Full(t') && t'.byPeer.Keys == t.byPeer.Keys)
  }

  lemma PutExtends(t: Table, peer: nat, c: ClientState)
    requires t.Valid() && peer in t.byPeer
    requires var was := t.clients[t.byPeer[peer]];
             c.id == was.id && c.peer == was.peer && c.local == was.local && (was.ready ==> c.ready) && (was.replicating ==> c.replicating)
    ensures Extends(t, PutClient(t, peer, c))
  {
    var t' := PutClient(t, peer, c);
    assert forall i | 0 <= i < |t.clients| :: t'.clients[i].id == t.clients[i].id && t'.clients[i].peer == t.clients[i].peer && t'.clients[i].local == t.clients[i].local;
  }

  lemma AddExtends(t: Table, c: ClientState, invalidPeer: nat)
    requires t.Valid() && Add(t, c, invalidPeer).Some? && 1 <= c.id <= MAX_ID
    ensures Extends(t, Add(t, c, invalidPeer).value)
    ensures !c.local ==> IdFor(Add(t, c, invalidPeer).value, c.peer) == Some(c.id)
  {
    AddValid(t, c, invalidPeer);
    var t' := Add(t, c, invalidPeer).value;
    assert forall i | 0 <= i < |t.clients| :: t'.clients[i] == t.clients[i];
    assert t'.clients[|t.clients|].id == c.id;
  }

  lemma ExtendsSelf(t: Table)
    requires t.Valid()
    ensures Extends(t, t)
  {
  }

  lemma RequestExtends(t: Table, peer: nat, invalidPeer: nat)
    requires t.Valid()
    ensures var (t', reply) := HandleRequest(t, peer, invalidPeer, AcceptAll);
            && Extends(t, t') && (reply.Some? ==> DownSound(t', reply.value))
            && (forall i | 0 <= i < |t'.clients| && (t'.clients[i].ready || t'.clients[i].replicating) ::
                  i < |t.clients| && t'.clients[i].ready == t.clients[i].ready && t'.clients[i].replicating == t.clients[i].replicating
                  && t'.clients[i].peer == t.clients[i].peer && t'.clients[i].id == t.clients[i].id && t'.clients[i].local == t.clients[i].local)
  {
    hide Table.Valid, Extends, Full;
    FindsAvailable(t);
    ExtendsSelf(t);
    if peer in t.byPeer {
      KnownPeer(t, peer);
      PutExtends(t, peer, t.clients[t.byPeer[peer]].(idle := 0.0, resend := 0.0));
    } else {
      var id := FindNextAvailable(t);
      var c := ClientState(id, peer, false, false, 0.0, 0.0, false);
      if id == INVALID_ID {
        AllTaken(t);
      } else if Add(t, c, invalidPeer).Some? {
        AddExtends(t, c, invalidPeer);
        AddValid(t, c, invalidPeer);
        assert forall i | 0 <= i < |t.clients| :: Add(t, c, invalidPeer).value.clients[..|t.clients|][i] == t.clients[i];
      }
    }
  }

  lemma KnownPeer(t: Table, peer: nat)
    requires t.Valid() && peer in t.byPeer
    ensures t.byPeer[peer] < |t.clients| && !t.clients[t.byPeer[peer]].local && t.clients[t.byPeer[peer]].peer == peer
  {
  }

  lemma AllTaken(t: Table)
    requires forall free | 1 <= free <= MAX_ID :: free in t.byId
    ensures Full(t)
  {
  }

  /** When the table only extends, what was sound of messages and clients stays so. */
  lemma StillSound(sys: System, t': Table)
    requires Sound(sys) && Extends(sys.table, t')
    ensures forall m <- sys.up :: UpSound(t', m)
    ensures forall m <- sys.down :: DownSound(t', m)
    ensures forall p <- sys.ends :: EndSound(t', p, sys.ends[p])
  {
    forall m <- sys.down ensures DownSound(t', m) {
      assert DownSound(sys.table, m);
    }
    forall m <- sys.up ensures UpSound(t', m) {
      assert UpSound(sys.table, m);
    }
    forall p <- sys.ends ensures EndSound(t', p, sys.ends[p]) {
      assert EndSound(sys.table, p, sys.ends[p]);
    }
  }

  lemma RequestSound(sys: System, peer: nat, invalidPeer: nat)
    requires Sound(sys)
    ensures Sound(ServerReceives(sys, Request(peer), invalidPeer))
  {
    hide Table.Valid, HandleRequest, UpSound, DownSound, EndSound;
    RequestExtends(sys.table, peer, invalidPeer);
    var (t', reply) := HandleRequest(sys.table, peer, invalidPeer, AcceptAll);
    StillSound(sys, t');
  }

  lemma AckSound(sys: System, peer: nat, id: nat)
    requires Sound(sys) && Ack(peer, id) in sys.up
    ensures Sound(sys.(table := HandleAck(sys.table, peer, id)))
  {
    assert UpSound(sys.table, Ack(peer, id));
    var t := sys.table;
    KnownPeer(t, peer);
    var c := t.clients[t.byPeer[peer]].(idle := 0.0);
    var c' := if c.id == id && !c.ready then c.(ready := true, replicating := true) else c;
    PutExtends(t, peer, c');
    StillSound(sys, PutClient(t, peer, c'));
  }

  lemma LocalSound(sys: System, invalidPeer: nat)
    requires Sound(sys)
    ensures Sound(sys.(table := HandleLocal(sys.table, invalidPeer)))
  {
    var t := sys.table;
    FindsAvailable(t);
    var c := ClientState(FindNextAvailable(t), invalidPeer, true, true, 0.0, 0.0, false);
    if Add(t, c, invalidPeer).Some? {
      AddExtends(t, c, invalidPeer);
      AddValid(t, c, invalidPeer);
      StillSound(sys, Add(t, c, invalidPeer).value);
      assert forall i | 0 <= i < |t.clients| :: Add(t, c, invalidPeer).value.clients[i] == t.clients[i];
    }
  }

  /** What a client hears never contradicts what it knows. */
  lemma HeardSound(sys: System, m: Down, interval: real)
    requires Sound(sys) && m in sys.down && m.peer in sys.ends
    ensures var e := ClientReceives(sys, m, interval).ends[m.peer];
            && EndSound(sys.table, m.peer, e)
            && (forall a <- sys.up | a.peer == m.peer :: Acknowledged(sys.ends[m.peer := e], a))
  {
    var p, t := m.peer, sys.table;
    assert DownSound(t, m) && EndSound(t, p, sys.ends[p]);
    forall a <- sys.up | a.peer == p && a.Ack? ensures p in t.byPeer {
      assert UpSound(t, a);
    }
    match m
    case Response(_, accepted, id) =>
      if accepted {
        KnownPeer(t, p);
        assert t.clients[t.byPeer[p]].id <= MAX_ID;
      }
    case Update(_) =>
      KnownPeer(t, p);
      var c := t.clients[t.byPeer[p]];
      assert Ack(c.peer, c.id) in sys.up;
      assert Acknowledged(sys.ends, Ack(c.peer, c.id));
  }

  lemma ClientSound(sys: System, p: nat, e: ClientEnd, up: set<Up>)
    requires Sound(sys) && EndSound(sys.table, p, e) && sys.up <= up
    requires forall a <- up | a.peer == p :: UpSound(sys.table, a) && Acknowledged(sys.ends[p := e], a)
    requires forall a <- up | a !in sys.up :: a.peer == p
    ensures Sound(sys.(ends := sys.ends[p := e], up := up))
  {
    hide Table.Valid, DownSound, UpSound, EndSound;
  }

  lemma DrainSound(sys: System, p: nat, interval: real)
    requires Sound(sys) && p in sys.ends
    ensures var (e, m) := Drain(sys.ends[p], p, interval);
            Sound(sys.(ends := sys.ends[p := e], up := if m.Some? then sys.up + {m.value} else sys.up))
  {
    var (e, m) := Drain(sys.ends[p], p, interval);
    assert EndSound(sys.table, p, sys.ends[p]);
    ClientSound(sys, p, e, if m.Some? then sys.up + {m.value} else sys.up);
  }

  lemma WaitSound(sys: System, p: nat, dt: real)
    requires Sound(sys) && p in sys.ends
    ensures Sound(sys.(ends := sys.ends[p := sys.ends[p].(resend := sys.ends[p].resend + dt)]))
  {
    assert EndSound(sys.table, p, sys.ends[p]);
    ClientSound(sys, p, sys.ends[p].(resend := sys.ends[p].resend + dt), sys.up);
  }

  lemma SentSound(sys: System, m: Down)
    requires Sound(sys) && DownSound(sys.table, m)
    ensures Sound(sys.(down := sys.down + {m}))
  {
    hide Table.Valid, DownSound, UpSound, EndSound;
  }

  /** Every step of the protocol keeps both ends agreeing. */
  lemma StepSound(sys: System, step: Step, interval: real, invalidPeer: nat)
    requires Sound(sys)
    ensures Sound(After(sys, step, interval, invalidPeer))
  {
    hide Sound, ServerReceives, Drain;
    SoundTable(sys);
    match step
    case Waits(p, dt) =>
      if p in sys.ends {
        WaitSound(sys, p, dt);
      }
    case Drains(p) =>
      if p in sys.ends {
        DrainSound(sys, p, interval);
      }
    case ServerHears(m) =>
      if m in sys.up {
        match m
        case Request(p) => RequestSound(sys, p, invalidPeer);
        case Ack(p, id) => AckHeardSound(sys, p, id, invalidPeer);
      }
    case Resends(p) =>
      if p in sys.table.byPeer && !sys.table.clients[sys.table.byPeer[p]].ready {
        SentSound(sys, Response(p, true, sys.table.clients[sys.table.byPeer[p]].id));
      }
    case SendsUpdate(p) =>
      if ReadyPeer(sys.table, p) {
        SentSound(sys, Update(p));
      }
    case ClientHears(m) => ClientHearsSound(sys, m, interval);
    case LocalJoins => LocalSound(sys, invalidPeer);
  }

  lemma SoundTable(sys: System)
    requires Sound(sys)
    ensures sys.table.Valid()
  {
  }

  lemma AckHeardSound(sys: System, p: nat, id: nat, invalidPeer: nat)
    requires Sound(sys) && Ack(p, id) in sys.up
    ensures Sound(ServerReceives(sys, Ack(p, id), invalidPeer))
  {
    hide Sound;
    SoundTable(sys);
    AckSound(sys, p, id);
  }

  lemma ClientHearsSound(sys: System, m: Down, interval: real)
    requires Sound(sys)
    ensures Sound(if m in sys.down then ClientReceives(sys, m, interval) else sys)
  {
    if m in sys.down && m.peer in sys.ends {
      HeardSound(sys, m, interval);
      hide DownSound, UpSound, EndSound, Acknowledged, ReceiveResponse, Table.Valid;
      ClientSound(sys, m.peer, ClientReceives(sys, m, interval).ends[m.peer], sys.up);
    }
  }

  function Run(sys: System, steps: seq<Step>, interval: real, invalidPeer: nat): (r: System)
    requires sys.table.Valid()
    ensures r.table.Valid()
  {
    if steps == [] then sys
    else
      var before := Run(sys, steps[..|steps| - 1], interval, invalidPeer);
      TableStaysValid(before, steps[|steps| - 1], interval, invalidPeer);
      After(before, steps[|steps| - 1], interval, invalidPeer)
  }

  lemma TableStaysValid(sys: System, step: Step, interval: real, invalidPeer: nat)
    requires sys.table.Valid()
    ensures After(sys, step, interval, invalidPeer).table.Valid()
  {
    hide Table.Valid;
    var t := sys.table;
    match step
    case ServerHears(m) =>
      match m {
        case Request(p) => RequestExtends(t, p, invalidPeer); ExtendsValid(t, HandleRequest(t, p, invalidPeer, AcceptAll).0);
        case Ack(p, id) =>
          if p in t.byPeer {
            KnownPeer(t, p);
            var c := t.clients[t.byPeer[p]].(idle := 0.0);
            var c' := if c.id == id && !c.ready then c.(ready := true, replicating := true) else c;
            PutExtends(t, p, c');
            ExtendsValid(t, PutClient(t, p, c'));
          }
      }
    case LocalJoins => AddValid(t, ClientState(FindNextAvailable(t), invalidPeer, true, true, 0.0, 0.0, false), invalidPeer);
    case _ =>
  }

  lemma ExtendsValid(t: Table, t': Table)
    requires Extends(t, t')
    ensures t'.Valid()
  {
  }

  lemma {:induction false} RunSound(peers: set<nat>, steps: seq<Step>, interval: real, invalidPeer: nat)
    ensures Sound(Run(Begin(peers), steps, interval, invalidPeer))
  {
    if steps != [] {
      hide Sound, After;
      RunSound(peers, steps[..|steps| - 1], interval, invalidPeer);
      StepSound(Run(Begin(peers), steps[..|steps| - 1], interval, invalidPeer), steps[|steps| - 1], interval, invalidPeer);
    }
  }

  /**
   The main result: in every run, an accepted or ready client holds the id the
   server keeps for its peer, different clients hold different ids, and an
   update is only ever sent to a peer that had acknowledged exactly that id.
   */
  lemma HandshakeIsSafe(peers: set<nat>, steps: seq<Step>, interval: real, invalidPeer: nat)
    ensures var sys := Run(Begin(peers), steps, interval, invalidPeer);
            && (forall p <- sys.ends | sys.ends[p].phase.Accepted? || sys.ends[p].phase.Ready? ::
                  IdFor(sys.table, p) == Some(sys.ends[p].id) && sys.ends[p].id <= MAX_ID)
            && (forall p, q | p in sys.ends && q in sys.ends && p != q
                  && (sys.ends[p].phase.Accepted? || sys.ends[p].phase.Ready?) && (sys.ends[q].phase.Accepted? || sys.ends[q].phase.Ready?) ::
                  sys.ends[p].id != sys.ends[q].id)
            && (forall p | Update(p) in sys.down :: IdFor(sys.table, p).Some? && Ack(p, IdFor(sys.table, p).value) in sys.up)
            && (forall i | 0 <= i < |sys.table.clients| && !sys.table.clients[i].local && sys.table.clients[i].replicating ::
                  Ack(sys.table.clients[i].peer, sys.table.clients[i].id) in sys.up)
  {
    RunSound(peers, steps, interval, invalidPeer);
    hide Run;
    var sys := Run(Begin(peers), steps, interval, invalidPeer);
    forall p <- sys.ends | sys.ends[p].phase.Accepted? || sys.ends[p].phase.Ready?
      ensures IdFor(sys.table, p) == Some(sys.ends[p].id) && sys.ends[p].id <= MAX_ID
    {
      assert EndSound(sys.table, p, sys.ends[p]);
    }
    forall p | Update(p) in sys.down
      ensures IdFor(sys.table, p).Some? && Ack(p, IdFor(sys.table, p).value) in sys.up
    {
      assert DownSound(sys.table, Update(p));
      KnownPeer(sys.table, p);
    }
  }

  function RunFrom(sys: System, steps: seq<Step>, interval: real, invalidPeer: nat): System
    requires sys.table.Valid()
    decreases |steps|
  {
    if steps == [] then sys
    else
      TableStaysValid(sys, steps[0], interval, invalidPeer);
      RunFrom(After(sys, steps[0], interval, invalidPeer), steps[1..], interval, invalidPeer)
  }

  /** From the acceptance on: acknowledge, become ready, receive an update. */
  lemma AcceptedCompletes(sys: System, p: nat, interval: real, invalidPeer: nat)
    requires Sound(sys) && p in sys.ends && sys.ends[p].phase.Accepted? && sys.ends[p].resend == interval
    ensures var ends := RunFrom(sys, [Drains(p), ServerHears(Ack(p, sys.ends[p].id)), SendsUpdate(p), ClientHears(Update(p))],
                                interval, invalidPeer).ends;
            p in ends && ends[p] == sys.ends[p].(phase := Ready, resend := 0.0)
  {
    var id := sys.ends[p].id;
    assert EndSound(sys.table, p, sys.ends[p]);
    AckMakesReady(sys, p, id);
    KnownId(sys.table, p);
    hide Sound, HandleAck, ReadyPeer, Table.Valid, IdFor;
    FourSteps(sys, Drains(p), ServerHears(Ack(p, id)), SendsUpdate(p), ClientHears(Update(p)), interval, invalidPeer);
  }

  lemma KnownId(t: Table, p: nat)
    requires t.Valid() && IdFor(t, p).Some?
    ensures IdFor(t, p).value <= MAX_ID
  {
  }

  lemma AckMakesReady(sys: System, p: nat, id: nat)
    requires Sound(sys) && IdFor(sys.table, p) == Some(id)
    ensures ReadyPeer(HandleAck(sys.table, p, id), p)
  {
    KnownPeer(sys.table, p);
  }

  lemma {:induction false} RunOn(sys: System, steps: seq<Step>, more: seq<Step>, interval: real, invalidPeer: nat)
    requires sys.table.Valid() && RunFrom(sys, steps, interval, invalidPeer).table.Valid()
    ensures RunFrom(sys, steps + more, interval, invalidPeer)
            == RunFrom(RunFrom(sys, steps, interval, invalidPeer), more, interval, invalidPeer)
    decreases |steps|
  {
    hide After, Table.Valid;
    if steps == [] {
      assert steps + more == more;
    } else {
      TableStaysValid(sys, steps[0], interval, invalidPeer);
      RunOn(After(sys, steps[0], interval, invalidPeer), steps[1..], more, interval, invalidPeer);
      assert (steps + more)[1..] == steps[1..] + more;
    }
  }

  function AfterFour(sys: System, a: Step, b: Step, c: Step, d: Step, interval: real, invalidPeer: nat): System
    requires sys.table.Valid()
  {
    TableStaysValid(sys, a, interval, invalidPeer);
    var s1 := After(sys, a, interval, invalidPeer);
    TableStaysValid(s1, b, interval, invalidPeer);
    var s2 := After(s1, b, interval, invalidPeer);
    TableStaysValid(s2, c, interval, invalidPeer);
    After(After(s2, c, interval, invalidPeer), d, interval, invalidPeer)
  }

  lemma FourSteps(sys: System, a: Step, b: Step, c: Step, d: Step, interval: real, invalidPeer: nat)
    requires Sound(sys)
    ensures var s := RunFrom(sys, [a, b, c, d], interval, invalidPeer); Sound(s) && s == AfterFour(sys, a, b, c, d, interval, invalidPeer)
  {
    hide After, Sound;
    SoundTable(sys);
    StepSound(sys, a, interval, invalidPeer);
    var s1 := After(sys, a, interval, invalidPeer);
    SoundTable(s1);
    StepSound(s1, b, interval, invalidPeer);
    var s2 := After(s1, b, interval, invalidPeer);
    SoundTable(s2);
    StepSound(s2, c, interval, invalidPeer);
    var s3 := After(s2, c, interval, invalidPeer);
    SoundTable(s3);
    StepSound(s3, d, interval, invalidPeer);
    var s4 := After(s3, d, interval, invalidPeer);
    SoundTable(s4);
    assert [a, b, c, d][1..] == [b, c, d] && [b, c, d][1..] == [c, d] && [c, d][1..] == [d] && [d][1..] == [];
    assert RunFrom(s3, [d], interval, invalidPeer) == s4;
    assert RunFrom(s2, [c, d], interval, invalidPeer) == s4;
    assert RunFrom(s1, [b, c, d], interval, invalidPeer) == s4;
  }

  /** The id the server answers a request with. */
  function AnswerId(t: Table, p: nat): nat
    requires t.Valid()
  {
    if p in t.byPeer then t.clients[t.byPeer[p]].id else FindNextAvailable(t)
  }

  lemma Answers(t: Table, p: nat, invalidPeer: nat)
    requires t.Valid() && p != invalidPeer && (p in t.byPeer || !Full(t))
    ensures HandleRequest(t, p, invalidPeer, AcceptAll).1 == Some(Response(p, true, AnswerId(t, p))) && AnswerId(t, p) <= MAX_ID
  {
    FindsAvailable(t);
    if p !in t.byPeer {
      AddValid(t, ClientState(FindNextAvailable(t), p, false, false, 0.0, 0.0, false), invalidPeer);
    }
  }

  /** Asking and being accepted, for a client the server knows or has room for. */
  lemma RequestCompletes(sys: System, p: nat, interval: real, invalidPeer: nat)
    requires Sound(sys) && p in sys.ends && sys.ends[p].phase.Connecting? && p != invalidPeer
    requires p in sys.table.byPeer || !Full(sys.table)
    ensures var id := AnswerId(sys.table, p);
            var s := RunFrom(sys, [Waits(p, interval - sys.ends[p].resend), Drains(p), ServerHears(Request(p)), ClientHears(Response(p, true, id))],
                             interval, invalidPeer);
            Sound(s) && p in s.ends && s.ends[p] == ClientEnd(Accepted, id, true, interval)
  {
    hide Sound, Full, HandleRequest, AnswerId, Table.Valid;
    SoundTable(sys);
    Answers(sys.table, p, invalidPeer);
    FourSteps(sys, Waits(p, interval - sys.ends[p].resend), Drains(p), ServerHears(Request(p)),
              ClientHears(Response(p, true, AnswerId(sys.table, p))), interval, invalidPeer);
  }

  /** A connecting client the server knows or has room for becomes ready once eight messages and steps get through. */
  lemma ConnectingCompletes(sys: System, p: nat, interval: real, invalidPeer: nat)
    requires Sound(sys) && p in sys.ends && sys.ends[p].phase.Connecting? && p != invalidPeer
    requires p in sys.table.byPeer || !Full(sys.table)
    ensures exists steps :: |steps| <= 8 && ReadyAfter(sys, p, steps, interval, invalidPeer)
  {
    hide Sound, RunFrom, Full, After;
    SoundTable(sys);
    var id := AnswerId(sys.table, p);
    RequestCompletes(sys, p, interval, invalidPeer);
    var steps := [Waits(p, interval - sys.ends[p].resend), Drains(p), ServerHears(Request(p)), ClientHears(Response(p, true, id))];
    var s := RunFrom(sys, steps, interval, invalidPeer);
    SoundTable(s);
    AcceptedCompletes(s, p, interval, invalidPeer);
    var more := [Drains(p), ServerHears(Ack(p, s.ends[p].id)), SendsUpdate(p), ClientHears(Update(p))];
    RunOn(sys, steps, more, interval, invalidPeer);
    assert ReadyAfter(sys, p, steps + more, interval, invalidPeer);
  }

  ghost predicate ReadyAfter(sys: System, p: nat, steps: seq<Step>, interval: real, invalidPeer: nat)
    requires sys.table.Valid()
  {
    var ends := RunFrom(sys, steps, interval, invalidPeer).ends;
    p in ends && ends[p].phase.Ready?
  }

  /** An accepted client whose acknowledgement was lost sends it again. */
  lemma AcceptedResends(sys: System, p: nat, interval: real, invalidPeer: nat)
    requires Sound(sys) && p in sys.ends && sys.ends[p].phase.Accepted?
    ensures exists steps :: |steps| <= 8 && ReadyAfter(sys, p, steps, interval, invalidPeer)
  {
    hide Sound, RunFrom, After;
    SoundTable(sys);
    var wait := [Waits(p, interval - sys.ends[p].resend)];
    OneWait(sys, p, interval, invalidPeer);
    var s := RunFrom(sys, wait, interval, invalidPeer);
    SoundTable(s);
    AcceptedCompletes(s, p, interval, invalidPeer);
    var more := [Drains(p), ServerHears(Ack(p, s.ends[p].id)), SendsUpdate(p), ClientHears(Update(p))];
    RunOn(sys, wait, more, interval, invalidPeer);
    assert ReadyAfter(sys, p, wait + more, interval, invalidPeer);
  }

  lemma OneWait(sys: System, p: nat, interval: real, invalidPeer: nat)
    requires Sound(sys) && p in sys.ends
    ensures var s := RunFrom(sys, [Waits(p, interval - sys.ends[p].resend)], interval, invalidPeer);
            Sound(s) && p in s.ends && s.ends[p] == sys.ends[p].(resend := interval)
  {
    hide Sound;
    SoundTable(sys);
    var step := Waits(p, interval - sys.ends[p].resend);
    StepSound(sys, step, interval, invalidPeer);
    assert [step][1..] == [];
    assert RunFrom(sys, [step], interval, invalidPeer) == After(sys, step, interval, invalidPeer);
  }

  /** The server's table only ever extends. */
  lemma StepExtends(sys: System, step: Step, interval: real, invalidPeer: nat)
    requires Sound(sys)
    ensures Extends(sys.table, After(sys, step, interval, invalidPeer).table)
  {
    hide Sound, Extends, HandleRequest, Drain;
    SoundTable(sys);
    ExtendsSelf(sys.table);
    match step
    case ServerHears(m) =>
      match m {
        case Request(p) => RequestExtends(sys.table, p, invalidPeer);
        case Ack(p, id) => AckExtends(sys.table, p, id);
      }
    case LocalJoins => LocalExtends(sys.table, invalidPeer);
    case _ =>
  }

  lemma AckExtends(t: Table, p: nat, id: nat)
    requires t.Valid()
    ensures Extends(t, HandleAck(t, p, id))
  {
    hide Extends, Table.Valid;
    ExtendsSelf(t);
    if p in t.byPeer {
      KnownPeer(t, p);
      var c := t.clients[t.byPeer[p]].(idle := 0.0);
      PutExtends(t, p, if c.id == id && !c.ready then c.(ready := true, replicating := true) else c);
    }
  }

  lemma LocalExtends(t: Table, invalidPeer: nat)
    requires t.Valid()
    ensures Extends(t, HandleLocal(t, invalidPeer))
  {
    hide Extends, Table.Valid;
    ExtendsSelf(t);
    FindsAvailable(t);
    var c := ClientState(FindNextAvailable(t), invalidPeer, true, true, 0.0, 0.0, false);
    if Add(t, c, invalidPeer).Some? {
      AddValid(t, c, invalidPeer);
      AddExtends(t, c, invalidPeer);
    }
  }

  /** A client that a full server does not know is never ready, whatever happens. */
  lemma {:induction false} ShutOut(sys: System, p: nat, steps: seq<Step>, interval: real, invalidPeer: nat)
    requires Sound(sys) && p !in sys.table.byPeer && Full(sys.table)
    ensures !ReadyAfter(sys, p, steps, interval, invalidPeer)
    decreases |steps|
  {
    if steps == [] {
      assert p in sys.ends ==> EndSound(sys.table, p, sys.ends[p]);
    } else {
      hide Sound, After, Full;
      SoundTable(sys);
      StepSound(sys, steps[0], interval, invalidPeer);
      StepExtends(sys, steps[0], interval, invalidPeer);
      ShutOut(After(sys, steps[0], interval, invalidPeer), p, steps[1..], interval, invalidPeer);
    }
  }

  lemma ReadyAlready(sys: System, p: nat, interval: real, invalidPeer: nat)
    requires sys.table.Valid() && p in sys.ends && sys.ends[p].phase.Ready?
    ensures exists steps :: |steps| <= 8 && ReadyAfter(sys, p, steps, interval, invalidPeer)
  {
    var none: seq<Step> := [];
    assert ReadyAfter(sys, p, none, interval, invalidPeer);
  }

  /**
   From every reachable state and whatever phase the client is in, it can still
   become ready exactly when the server knows it or has room, and then eight
   messages and steps are enough.
   */
  lemma HandshakeCompletes(sys: System, p: nat, interval: real, invalidPeer: nat)
    requires Sound(sys) && p in sys.ends && p != invalidPeer
    ensures (exists steps :: ReadyAfter(sys, p, steps, interval, invalidPeer)) <==> p in sys.table.byPeer || !Full(sys.table)
    ensures p in sys.table.byPeer || !Full(sys.table) ==> exists steps :: |steps| <= 8 && ReadyAfter(sys, p, steps, interval, invalidPeer)
  {
    hide ReadyAfter, Full;
    assert EndSound(sys.table, p, sys.ends[p]);
    if p in sys.table.byPeer || !Full(sys.table) {
      match sys.ends[p].phase
      case Connecting => ConnectingCompletes(sys, p, interval, invalidPeer);
      case Accepted => AcceptedResends(sys, p, interval, invalidPeer);
      case Ready =>
        ReadyAlready(sys, p, interval, invalidPeer);
    } else {
      forall steps ensures !ReadyAfter(sys, p, steps, interval, invalidPeer) {
        ShutOut(sys, p, steps, interval, invalidPeer);
      }
    }
  }

  /** The client's half of the connection, updated in place. */
  class ClientConnection {
    var phase: Phase
    var id: nat
    var asked: bool
    var resend: real
    const peer: nat
    const interval: real

    function Model(): ClientEnd
      reads this
    {
      ClientEnd(phase, id, asked, resend)
    }

    constructor (peer: nat, interval: real)
      ensures Model() == NewEnd && this.peer == peer && this.interval == interval
    {
      phase, id, asked, resend := Connecting, INVALID_ID, false, 0.0;
      this.peer, this.interval := peer, interval;
    }

    /** `ok` is false when the answer names no valid id; the id held before is lost all the same. */
    method ReceiveConnectResponse(accepted: bool, answered: nat) returns (ok: bool)
      modifies this
      ensures Model() == ReceiveResponse(old(Model()), accepted, answered, interval)
      ensures ok == (!accepted || answered <= MAX_ID)
    {
      if !accepted {
        id, phase := INVALID_ID, Rejected;
        return true;
      }
      id := answered;
      if id == INVALID_ID || id > MAX_ID {
        id := INVALID_ID;
        return false;
      }
      resend := interval;
      phase := Accepted;
      return true;
    }

    method DrainConnectPackets() returns (packet: Option<Up>)
      modifies this
      ensures (Model(), packet) == Drain(old(Model()), peer, interval)
    {
      packet := None;
      if phase.Connecting? {
        if asked && resend < interval {
          return;
        }
        packet := Some(Request(peer));
        asked, resend := true, 0.0;
        return;
      }
      if phase.Accepted? && id != INVALID_ID {
        if resend < interval {
          return;
        }
        packet := Some(Ack(peer, id));
        resend := 0.0;
      }
    }
  }
}
