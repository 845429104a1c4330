/**
 One client, the server's buffer and a network that loses, repeats and
 reorders their packets: what the server holds is what the client sent.
 */
module InputSystems {
  import opened World
  import opened InputBuffers
  import opened InputClients

  /** `packets` and `acks` hold everything ever put on the network; `sent` what each frame was first sent as. */
  datatype System = System(client: ClientInput, server: ServerInput, packets: seq<InputPacket>, acks: seq<nat>, sent: map<nat, Bytes>)

  datatype Step =
    | Latest(bytes: Bytes)
    | Recorded(frame: nat)
    | Filled(frame: nat)
    | Sent(fits: nat, tried: nat)
    | Delivered(packet: nat)
    | Announced
    | Heard(ack: nat)
    | Retired(frame: nat)

  function Begin(size: nat): System {
    System(NewClient(size), NoInput, [], [], map[])
  }

  /** Any packet or acknowledgement ever sent may arrive next, again, or never. */
  function After(sys: System, ops: ComponentOps, capacity: nat, step: Step): System
    requires capacity > 0
  {
    match step
    case Latest(bytes) => sys.(client := SetLatest(sys.client, bytes))
    case Recorded(frame) => sys.(client := Record(sys.client, capacity, frame))
    case Filled(frame) => sys.(client := Fill(sys.client, capacity, frame))
    case Retired(frame) => sys.(client := Retire(sys.client, frame))
    case Sent(fits, tried) =>
      var (c, p) := Pack(sys.client, fits, tried);
      if p.None? then sys else sys.(client := c, packets := sys.packets + [p.value], sent := Transmitted(sys.sent, p.value))
    case Delivered(i) =>
      if i >= |sys.packets| then sys
      else sys.(server := Process(sys.server, ops, capacity, EncodePacket(ops, sys.packets[i])).0)
    case Announced => sys.(acks := sys.acks + [sys.server.ack])
    case Heard(i) => if i >= |sys.acks| then sys else sys.(client := Acknowledge(sys.client, sys.acks[i]))
  }

  /**
   A frame is not given another input once it has been sent, until it is
   acknowledged; and the latest input is not replaced while the acknowledged
   baseline is missing, unless what is left in its place happens to be right.
   */
  ghost predicate Orderly(sys: System, size: nat, step: Step) {
    match step
    case Latest(bytes) => |bytes| == size && BaselineKept(sys.client, sys.sent)
    case Recorded(frame) => CanRecord(sys.client, sys.sent, frame)
    case Filled(frame) => CanFill(sys.client, frame)
    case _ => true
  }

  /** The server stored the frame, or has moved a whole ring past it. */
  ghost predicate Known(s: ServerInput, frame: nat, capacity: nat) {
    frame == 0 || Has(s.ring, frame) || frame + capacity <= s.ack
  }

  ghost predicate PacketSound(sys: System, p: InputPacket, size: nat, capacity: nat) {
    HonestPacket(p, sys.sent, size) && p.baseline <= sys.server.ack && Known(sys.server, p.baseline, capacity)
  }

  ghost predicate AckSound(sys: System, a: nat, capacity: nat) {
    a <= sys.server.ack && (a == 0 || a in sys.sent) && Known(sys.server, a, capacity)
  }

  /** What every orderly run keeps. */
  ghost predicate Sound(sys: System, size: nat, capacity: nat) {
    && Truthful(sys.server, sys.sent, size, capacity) && Consistent(sys.client, sys.sent, size, capacity)
    && AckSound(sys, sys.client.acked, capacity)
    && (forall i | 0 <= i < |sys.packets| :: PacketSound(sys, sys.packets[i], size, capacity))
    && (forall i | 0 <= i < |sys.acks| :: AckSound(sys, sys.acks[i], capacity))
  }

  lemma KnownKept(s: ServerInput, s': ServerInput, frame: nat, capacity: nat)
    requires Known(s, frame, capacity) && Keeps(s, s', capacity)
    ensures Known(s', frame, capacity)
  {
  }

  /** Delivery of any packet sent so far. */
  lemma DeliveredSound(sys: System, ops: ComponentOps, capacity: nat, i: nat)
    requires capacity > 0 && InputOps(ops) && Sound(sys, ops.size, capacity) && i < |sys.packets|
    ensures var sys' := After(sys, ops, capacity, Delivered(i));
            Sound(sys', ops.size, capacity) && Keeps(sys.server, sys'.server, capacity)
  {
    hide Truthful, Consistent, HonestPacket, Keeps, Process, EncodePacket, InputOps, Known;
    assert PacketSound(sys, sys.packets[i], ops.size, capacity);
    ProcessHonest(sys.server, ops, capacity, sys.packets[i], sys.sent);
    var sys' := After(sys, ops, capacity, Delivered(i));
    AcksGrow(sys.server, sys'.server, capacity);
    KnownKept(sys.server, sys'.server, sys.client.acked, capacity);
    forall j | 0 <= j < |sys.packets| ensures PacketSound(sys', sys.packets[j], ops.size, capacity) {
      assert PacketSound(sys, sys.packets[j], ops.size, capacity);
      KnownKept(sys.server, sys'.server, sys.packets[j].baseline, capacity);
    }
    forall j | 0 <= j < |sys.acks| ensures AckSound(sys', sys.acks[j], capacity) {
      assert AckSound(sys, sys.acks[j], capacity);
      KnownKept(sys.server, sys'.server, sys.acks[j], capacity);
    }
  }

  lemma AcksGrow(s: ServerInput, s': ServerInput, capacity: nat)
    requires Keeps(s, s', capacity)
    ensures s.ack <= s'.ack
  {
  }

  lemma HonestStill(p: InputPacket, sent: map<nat, Bytes>, sent': map<nat, Bytes>, size: nat)
    requires HonestPacket(p, sent, size) && Grows(sent, sent')
    ensures HonestPacket(p, sent', size)
  {
  }

  lemma TruthfulStill(s: ServerInput, c': ClientInput, sent: map<nat, Bytes>, sent': map<nat, Bytes>, size: nat, capacity: nat)
    requires Truthful(s, sent, size, capacity) && Grows(sent, sent') && Consistent(c', sent', size, capacity)
    ensures Truthful(s, sent', size, capacity)
  {
  }

  lemma GrowsKeeps(sent: map<nat, Bytes>, sent': map<nat, Bytes>)
    requires Grows(sent, sent')
    ensures forall f <- sent :: f in sent'
  {
  }

  lemma SentSound(sys: System, ops: ComponentOps, capacity: nat, fits: nat, tried: nat)
    requires capacity > 0 && Sound(sys, ops.size, capacity)
    ensures Sound(After(sys, ops, capacity, Sent(fits, tried)), ops.size, capacity)
  {
    hide Truthful, Consistent, HonestPacket, Known, Pack, Transmitted, Grows;
    PackHonest(sys.client, fits, tried, sys.sent, ops.size, capacity);
    var (c, packed) := Pack(sys.client, fits, tried);
    if packed.Some? {
      var sys' := After(sys, ops, capacity, Sent(fits, tried));
      GrowsKeeps(sys.sent, sys'.sent);
      TruthfulStill(sys.server, sys'.client, sys.sent, sys'.sent, ops.size, capacity);
      forall j | 0 <= j < |sys'.packets| ensures PacketSound(sys', sys'.packets[j], ops.size, capacity) {
        if j < |sys.packets| {
          assert PacketSound(sys, sys.packets[j], ops.size, capacity);
          HonestStill(sys.packets[j], sys.sent, sys'.sent, ops.size);
        }
      }
      forall j | 0 <= j < |sys.acks| ensures AckSound(sys', sys.acks[j], capacity) {
        assert AckSound(sys, sys.acks[j], capacity);
      }
    }
  }

  /** Steps of the client alone. */
  lemma ClientSound(sys: System, client: ClientInput, size: nat, capacity: nat)
    requires Sound(sys, size, capacity) && Consistent(client, sys.sent, size, capacity)
    requires AckSound(sys, client.acked, capacity)
    ensures Sound(sys.(client := client), size, capacity)
  {
    hide Truthful, Consistent, HonestPacket, Known;
    var sys' := sys.(client := client);
    forall j | 0 <= j < |sys.packets| ensures PacketSound(sys', sys.packets[j], size, capacity) {
      assert PacketSound(sys, sys.packets[j], size, capacity);
    }
    forall j | 0 <= j < |sys.acks| ensures AckSound(sys', sys.acks[j], capacity) {
      assert AckSound(sys, sys.acks[j], capacity);
    }
  }

  lemma AnnouncedSound(sys: System, size: nat, capacity: nat)
    requires Sound(sys, size, capacity)
    ensures Sound(sys.(acks := sys.acks + [sys.server.ack]), size, capacity)
  {
    hide HonestPacket, Consistent;
    var sys' := sys.(acks := sys.acks + [sys.server.ack]);
    forall j | 0 <= j < |sys.packets| ensures PacketSound(sys', sys.packets[j], size, capacity) {
      assert PacketSound(sys, sys.packets[j], size, capacity);
    }
    forall j | 0 <= j < |sys'.acks| ensures AckSound(sys', sys'.acks[j], capacity) {
      assert j < |sys.acks| ==> AckSound(sys, sys.acks[j], capacity);
    }
  }

  lemma {:induction false} FillKeepsAck(c: ClientInput, current: nat, frame: nat)
    requires c.ring != []
    ensures FillFrom(c, current, frame).acked == c.acked
    decreases frame + 1 - current
  {
    if current <= frame {
      FillKeepsAck(if Has(c.ring, current) then c.(lastRecorded := Max(c.lastRecorded, current)) else Write(c, current), current + 1, frame);
    }
  }

  /** Every orderly step keeps both ends telling the same story, and the acknowledgement never goes back. */
  lemma StepSound(sys: System, ops: ComponentOps, capacity: nat, step: Step)
    requires capacity > 0 && InputOps(ops) && Sound(sys, ops.size, capacity) && Orderly(sys, ops.size, step)
    ensures var sys' := After(sys, ops, capacity, step);
            Sound(sys', ops.size, capacity) && Keeps(sys.server, sys'.server, capacity)
  {
    hide InputOps, Truthful, HonestPacket, Known, FillFrom, Process, EncodePacket;
    var sys' := After(sys, ops, capacity, step);
    KeepsSelf(sys.server, capacity);
    match step
    case Latest(bytes) =>
      LatestConsistent(sys.client, bytes, sys.sent, ops.size, capacity);
      ClientSound(sys, sys'.client, ops.size, capacity);
    case Recorded(frame) =>
      RecordConsistent(sys.client, frame, sys.sent, ops.size, capacity);
      ClientSound(sys, sys'.client, ops.size, capacity);
    case Filled(frame) =>
      FillConsistent(sys.client, frame, sys.sent, ops.size, capacity);
      if sys'.client != sys.client {
        FillKeepsAck(GrowClient(sys.client, capacity), Max(sys.client.acked + 1, sys.client.lastRecorded + 1), frame);
      }
      ClientSound(sys, sys'.client, ops.size, capacity);
    case Retired(frame) => ClientSound(sys, sys'.client, ops.size, capacity);
    case Sent(fits, tried) => SentSound(sys, ops, capacity, fits, tried);
    case Delivered(i) =>
      if i < |sys.packets| {
        DeliveredSound(sys, ops, capacity, i);
      }
    case Announced => AnnouncedSound(sys, ops.size, capacity);
    case Heard(i) =>
      if i < |sys.acks| {
        assert AckSound(sys, sys.acks[i], capacity);
        AcknowledgeConsistent(sys.client, sys.acks[i], sys.sent, ops.size, capacity);
        ClientSound(sys, sys'.client, ops.size, capacity);
      }
  }

  /** And a step that is not orderly breaks the client's story: the guards are exactly what it takes. */
  lemma StepSoundIff(sys: System, ops: ComponentOps, capacity: nat, step: Step)
    requires capacity > 0 && InputOps(ops) && Sound(sys, ops.size, capacity)
    ensures Sound(After(sys, ops, capacity, step), ops.size, capacity) <==> Orderly(sys, ops.size, step)
  {
    hide InputOps, Truthful, HonestPacket, Known, FillFrom, Process, EncodePacket, Consistent, PacketSound, AckSound, CanRecord, CanFill, BaselineKept;
    if Orderly(sys, ops.size, step) {
      StepSound(sys, ops, capacity, step);
    } else {
      match step
      case Latest(bytes) => LatestConsistent(sys.client, bytes, sys.sent, ops.size, capacity);
      case Recorded(frame) => RecordConsistent(sys.client, frame, sys.sent, ops.size, capacity);
      case Filled(frame) => FillConsistent(sys.client, frame, sys.sent, ops.size, capacity);
    }
  }

  function Run(sys: System, ops: ComponentOps, capacity: nat, steps: seq<Step>): System
    requires capacity > 0
  {
    if steps == [] then sys else After(Run(sys, ops, capacity, steps[..|steps| - 1]), ops, capacity, steps[|steps| - 1])
  }

  ghost predicate OrderlyRun(sys: System, ops: ComponentOps, capacity: nat, steps: seq<Step>)
    requires capacity > 0
  {
    forall n | 0 <= n < |steps| :: Orderly(Run(sys, ops, capacity, steps[..n]), ops.size, steps[n])
  }

  /**
   The main result: whatever the network does to the packets, after every
   orderly run each frame in the server's ring holds the input the client sent
   for it, and the latest input is that of the acknowledged frame.
   */
  lemma {:induction false} ServerHoldsWhatWasSent(ops: ComponentOps, capacity: nat, steps: seq<Step>)
    requires capacity > 0 && InputOps(ops) && OrderlyRun(Begin(ops.size), ops, capacity, steps)
    ensures var sys := Run(Begin(ops.size), ops, capacity, steps);
            && Sound(sys, ops.size, capacity)
            && (forall f: nat | Has(sys.server.ring, f) :: f in sys.sent && sys.server.ring[f % |sys.server.ring|].bytes == sys.sent[f])
            && (sys.server.ack > 0 ==> sys.server.ack in sys.sent && sys.server.latest == sys.sent[sys.server.ack])
  {
    if steps == [] {
    } else {
      var init, last := steps[..|steps| - 1], steps[|steps| - 1];
      forall n | 0 <= n < |init| ensures Orderly(Run(Begin(ops.size), ops, capacity, init[..n]), ops.size, init[n]) {
        assert init[..n] == steps[..n];
        assert Orderly(Run(Begin(ops.size), ops, capacity, steps[..n]), ops.size, steps[n]);
      }
      ServerHoldsWhatWasSent(ops, capacity, init);
      hide After, Orderly, InputOps, HonestPacket, Consistent, PacketSound, AckSound;
      assert Orderly(Run(Begin(ops.size), ops, capacity, steps[..|steps| - 1]), ops.size, steps[|steps| - 1]);
      StepSound(Run(Begin(ops.size), ops, capacity, init), ops, capacity, last);
    }
  }

  /** The runs that stay sound throughout are exactly the orderly ones. */
  lemma SoundThroughoutIff(ops: ComponentOps, capacity: nat, steps: seq<Step>)
    requires capacity > 0 && InputOps(ops)
    ensures OrderlyRun(Begin(ops.size), ops, capacity, steps)
            <==> forall n | 0 <= n <= |steps| :: Sound(Run(Begin(ops.size), ops, capacity, steps[..n]), ops.size, capacity)
  {
    hide After, Orderly, InputOps, Sound;
    var start := Begin(ops.size);
    if OrderlyRun(start, ops, capacity, steps) {
      forall n | 0 <= n <= |steps| ensures Sound(Run(start, ops, capacity, steps[..n]), ops.size, capacity) {
        forall m | 0 <= m < n ensures Orderly(Run(start, ops, capacity, steps[..n][..m]), ops.size, steps[..n][m]) {
          assert steps[..n][..m] == steps[..m];
        }
        ServerHoldsWhatWasSent(ops, capacity, steps[..n]);
      }
    } else if forall n | 0 <= n <= |steps| :: Sound(Run(start, ops, capacity, steps[..n]), ops.size, capacity) {
      forall n | 0 <= n < |steps| ensures Orderly(Run(start, ops, capacity, steps[..n]), ops.size, steps[n]) {
        assert steps[..n + 1][..n] == steps[..n];
        assert Sound(Run(start, ops, capacity, steps[..n]), ops.size, capacity);
        assert Sound(Run(start, ops, capacity, steps[..n + 1]), ops.size, capacity);
        StepSoundIff(Run(start, ops, capacity, steps[..n]), ops, capacity, steps[n]);
      }
      assert false;
    }
  }

  /** Between two points of an orderly run the acknowledgement does not go back and nothing inside the window is lost. */
  lemma AckNeverDecreases(sys: System, ops: ComponentOps, capacity: nat, step: Step)
    requires capacity > 0 && InputOps(ops) && Sound(sys, ops.size, capacity) && Orderly(sys, ops.size, step)
    ensures var server := After(sys, ops, capacity, step).server;
            && sys.server.ack <= server.ack
            && (forall f: nat | Has(sys.server.ring, f) && f + capacity > server.ack :: Has(server.ring, f))
  {
    hide After, Orderly, InputOps, Sound;
    StepSound(sys, ops, capacity, step);
  }

  /** A packet passed over for want of its baseline carries nothing new, if the ring is longer than a packet. */
  lemma PassedOverIsStale(sys: System, size: nat, capacity: nat, i: nat, f: nat)
    requires capacity > MAX_INPUTS && Sound(sys, size, capacity) && i < |sys.packets|
    requires PassedOver(sys.server, sys.packets[i]) && sys.packets[i].first <= f < sys.packets[i].first + |sys.packets[i].inputs|
    ensures f <= sys.server.ack
  {
    assert PacketSound(sys, sys.packets[i], size, capacity);
  }
}
