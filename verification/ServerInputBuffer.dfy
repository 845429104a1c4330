/** The server's input buffer as the object it is, its loops proved against the functions that specify it. */
module ServerInputBuffers {
  import opened Wrappers
  import opened Bits
  import opened World
  import opened InputBuffers

  lemma NewestStep(ring: seq<StoredInput>, begin: nat, due: nat, size: nat)
    requires begin > 0
    ensures Newest(ring, begin, due, size)
            == if due < begin then 0 else if Usable(ring, due, size) then due else Newest(ring, begin, due - 1, size)
  {
  }

  class ServerInputBuffer {
    var ring: seq<StoredInput>
    var latest: Bytes
    var hasLatest: bool
    var ack: nat
    var applied: Bytes
    var appliedFrame: nat
    var hasApplied: bool
    var stats: InputStats

    function Model(): ServerInput
      reads this
    {
      ServerInput(ring, latest, hasLatest, ack, applied, appliedFrame, hasApplied, stats)
    }

    constructor ()
      ensures Model() == NoInput
    {
      ring, latest, hasLatest, ack := [], [], false, 0;
      applied, appliedFrame, hasApplied, stats := [], 0, false, InputStats(0, 0, 0, 0, 0);
    }

    method SetLocalFrame(frame: nat, bytes: Bytes, capacity: nat) returns (ok: bool)
      modifies this
      ensures (Model(), ok) == SetLocal(old(Model()), frame, bytes, capacity)
    {
      if frame == 0 || bytes == [] || capacity == 0 {
        return false;
      }
      if ring == [] {
        ring := EmptyRing(capacity);
      }
      ring := ring[frame % |ring| := StoredInput(frame, true, bytes)];
      latest := bytes;
      ack := if frame > ack then frame else ack;
      hasLatest := true;
      stats := stats.(latestReceived := if frame > stats.latestReceived then frame else stats.latestReceived);
      return true;
    }

    /** Where the differences of a packet start from, as looked up while reading it. */
    method LookUpBaseline(size: nat, baseline: nat) returns (previous: Option<Bytes>)
      ensures previous == FindBaseline(Model(), size, baseline)
    {
      previous := None;
      if ring != [] {
        var stored := ring[baseline % |ring|];
        if stored.valid && stored.frame == baseline && |stored.bytes| == size {
          previous := Some(stored.bytes);
        }
      }
      if previous.None? && hasLatest && baseline == ack && |latest| == size {
        previous := Some(latest);
      }
    }

    /** The decoding loop. */
    method DecodeEach(ops: ComponentOps, first: nat, count: nat, base: Option<Bytes>, bits: BitString) returns (ok: bool)
      requires ring != []
      modifies this
      ensures (Model(), ok) == DecodeInputs(old(Model()), ops, first, count, base, bits)
    {
      ghost var expected := DecodeInputs(Model(), ops, first, count, base, bits);
      var frame: nat, previous, rest, index := first, base, bits, 0;
      while index < count
        invariant index <= count && ring != []
        invariant expected == DecodeInputs(Model(), ops, frame, count - index, previous, rest)
      {
        var decoded := ops.deserialize(previous, rest);
        if decoded.None? || |decoded.value.1| == |rest| {
          return false;
        }
        var bytes := decoded.value.0;
        if frame > ack {
          ring := ring[frame % |ring| := StoredInput(frame, true, bytes)];
          latest := bytes;
          ack := frame;
          hasLatest := true;
          stats := stats.(latestReceived := frame);
        }
        previous, rest := Some(bytes), decoded.value.1;
        frame := (frame + 1) % FRAMES;
        index := index + 1;
      }
      return true;
    }

    /** `process_packet_payload`. */
    method ProcessPacketPayload(ops: ComponentOps, capacity: nat, packet: BitString) returns (ok: bool)
      requires capacity > 0
      modifies this
      ensures (Model(), ok) == Process(old(Model()), ops, capacity, packet)
    {
      hide Read, ReadField, DecodeInputs;
      var header := ReadField(packet, 32);
      if header.None? {
        return false;
      }
      var baseline := header.value.0;
      var flag := ReadField(header.value.1, 1);
      if flag.None? {
        return false;
      }
      var full := flag.value.0 == 1;
      var explicit := ReadField(flag.value.1, if full then 32 else 0);
      if explicit.None? {
        return false;
      }
      var first := (baseline + 1) % FRAMES;
      if full {
        first := explicit.value.0;
      }
      var counted := ReadField(explicit.value.1, 5);
      if counted.None? || counted.value.0 > MAX_INPUTS {
        return false;
      }
      var count := counted.value.0;
      var previous := Some(Zeros(ops.size));
      if baseline > ack {
        ack := baseline;
      }
      if baseline != 0 && !full {
        previous := LookUpBaseline(ops.size, baseline);
        if previous.None? {
          return true;
        }
      }
      if first == 0 || count == 0 {
        return true;
      }
      if ring == [] {
        ring := EmptyRing(capacity);
      }
      ok := DecodeEach(ops, first, count, if full then None else previous, counted.value.1);
    }

    /** The search loop of `select_input_for_frame`: the last usable frame it passes is the newest. */
    method SearchWindow(begin: nat, due: nat, size: nat) returns (best: nat)
      requires begin > 0
      ensures best == Newest(ring, begin, due, size)
    {
      hide Newest, Usable;
      best := 0;
      var frame: nat := begin;
      NewestStep(ring, begin, begin - 1, size);
      while frame <= due
        invariant begin <= frame && (if begin <= due then frame <= due + 1 else frame == begin)
        invariant best == Newest(ring, begin, frame - 1, size)
      {
        NewestStep(ring, begin, frame, size);
        if UsableAt(frame, size) {
          best := frame;
        }
        frame := frame + 1;
      }
      NewestStep(ring, begin, due, size);
    }

    predicate UsableAt(frame: nat, size: nat): (u: bool)
      reads this
      ensures u == Usable(ring, frame, size)
    {
      if ring == [] then false
      else
        var input := ring[frame % |ring|];
        input.valid && input.frame == frame && |input.bytes| == size
    }

    method SelectInputForFrame(due: nat, size: nat) returns (bytes: Option<Bytes>)
      modifies this
      ensures (Model(), bytes) == Select(old(Model()), due, size)
    {
      hide Newest, WindowBegin;
      var best := FindInput(due, size);
      if best != 0 {
        bytes := ApplyInput(best, due);
      } else {
        if hasApplied && |applied| == size {
          bytes := Some(applied);
          stats := stats.(starvation := stats.starvation + 1, reused := stats.reused + 1);
        } else {
          bytes := None;
          stats := stats.(starvation := stats.starvation + 1);
        }
      }
    }

    /** The newest usable frame of the window, or zero. */
    method FindInput(due: nat, size: nat) returns (best: nat)
      ensures best == if ring == [] then 0 else Newest(ring, WindowBegin(Model(), due), due, size)
    {
      best := 0;
      if ring != [] {
        var windowBegin := if due > |ring| then due - |ring| + 1 else 1;
        best := SearchWindow(if appliedFrame + 1 > windowBegin then appliedFrame + 1 else windowBegin, due, size);
      }
    }

    method ApplyInput(best: nat, due: nat) returns (bytes: Option<Bytes>)
      requires ring != []
      modifies this
      ensures var was := old(Model());
              var input := was.ring[best % |was.ring|].bytes;
              && bytes == Some(input)
              && Model() == was.(applied := input, appliedFrame := best, hasApplied := true,
                                 stats := was.stats.(applied := was.stats.applied + 1, latestApplied := best,
                                                     starvation := was.stats.starvation + if best < due then 1 else 0))
    {
      applied := ring[best % |ring|].bytes;
      appliedFrame := best;
      hasApplied := true;
      stats := stats.(latestApplied := best, applied := stats.applied + 1);
      bytes := Some(applied);
      if best < due {
        stats := stats.(starvation := stats.starvation + 1);
      }
    }
  }
}
