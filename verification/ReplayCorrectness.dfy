/**
 End to end: a server runs passes over its registry, and frees slots between
 them, while a writer records; a session that replays a Full frame and the
 frames after it shows exactly what the server replicated when the last of
 them was written, but for slots freed between passes.
 */
module ReplayCorrectness {
  import opened Wrappers
  import opened SlotTable
  import opened World
  import opened Discovery
  import opened ReplayWire
  import opened ReplayWriting
  import opened ReplayCoverage
  import opened ReplaySession
  import opened ReplayFrames
  import opened ReplayLimits

  /**
   A recorded frame, the server state it was written from, and the slots that
   were pending, destroyed and lost then.
   */
  datatype Written = Written(
    frame: ReplayFrame, registry: Registry, table: Table, dirty: DirtyView, pending: seq<nat>, destroyed: seq<nat>, lost: set<nat>)

  /**
   `registry` is the state the next dirty view starts from.  `lost` holds the
   slots freed between passes that nothing written since, or pending, accounts for.
   */
  datatype Run = Run(
    registry: Registry, table: Table, initialized: bool, writer: WriterState, written: seq<Written>, lost: set<nat>)

  /** One server frame: its number, the registry after simulation, and the dirty view since the last frame. */
  datatype Input = Input(frame: nat, registry: Registry, dirty: DirtyView, everyone: seq<Entity>)

  /** A pass, or a slot freed between passes because its entity is gone or no longer marked. */
  datatype Step = Passed(input: Input) | Freed(slot: nat)

  function PassTable(settings: Settings, run: Run, input: Input): Option<Table>
    requires run.table.Valid()
  {
    Rediscover(run.table.(destroyed := []), run.initialized, input.registry, input.dirty, input.everyone, |settings.archetypes|)
  }

  function StillLost(lost: set<nat>, acc: WriterState): set<nat> {
    set s <- lost | s !in acc.pending && s !in acc.pendingDestroyed
  }

  function Recorded(settings: Settings, ws: WriterState, f: ServerFrame, frame: ReplayFrame, lost: set<nat>): Written {
    var acc := Accumulate(settings, ws, f);
    Written(frame, f.registry, f.table, f.dirty, acc.pending, acc.pendingDestroyed,
            if frame.kind.Full? then {} else StillLost(lost, acc))
  }

  function StateOf(w: Written): ServerFrame {
    ServerFrame(w.frame.frame, w.registry, w.table, w.dirty)
  }

  /** The frame was written whole: every slot it writes quantises, and its records can be counted. */
  ghost predicate Whole(settings: Settings, w: Written)
    requires settings.WellFormed()
  {
    Writable(settings, StateOf(w), w.frame.kind.Full?, w.pending, w.destroyed)
  }

  /** One pass: rediscovery, then the writer's turn.  Nothing when rediscovery throws. */
  function Pass(settings: Settings, options: Options, run: Run, input: Input): (next: Option<Run>)
    requires settings.WellFormed() && run.table.Valid()
    ensures next.Some? ==> next.value.table.Valid()
  {
    match PassTable(settings, run, input)
    case None => None
    case Some(t) =>
      var f := ServerFrame(input.frame, input.registry, t, input.dirty);
      var (ws, out) := Observe(settings, options, run.writer, f);
      if out.None? then Some(Run(input.registry, t, true, ws, run.written, StillLost(run.lost, ws)))
      else
        var w := Recorded(settings, run.writer, f, out.value, run.lost);
        Some(Run(input.registry, t, true, ws, run.written + [w], w.lost))
  }

  /** `deactivate_replicated_slot` outside a pass: the writer hears nothing of it. */
  function Free(run: Run, s: nat): (next: Run)
    requires run.table.Valid()
    ensures next.table.Valid()
  {
    if !run.table.Active(s) then run
    else
      FreeValid(run.table, s);
      run.(registry := Unmarked(run.registry, run.table.slots[s].entity), table := Deactivate(run.table, s),
           lost := if s in run.writer.pending then run.lost else run.lost + {s})
  }

  function After(settings: Settings, options: Options, run: Run, step: Step): (next: Option<Run>)
    requires settings.WellFormed() && run.table.Valid()
    ensures next.Some? ==> next.value.table.Valid()
  {
    match step
    case Passed(input) => Pass(settings, options, run, input)
    case Freed(s) => Some(Free(run, s))
  }

  function RunOf(settings: Settings, options: Options, run: Run, steps: seq<Step>): (next: Option<Run>)
    requires settings.WellFormed() && run.table.Valid()
    ensures next.Some? ==> next.value.table.Valid()
  {
    if steps == [] then Some(run)
    else
      match RunOf(settings, options, run, steps[..|steps| - 1])
      case None => None
      case Some(before) => After(settings, options, before, steps[|steps| - 1])
  }

  /** The registry keeps its contract in this pass. */
  ghost predicate Admissible(run: Run, input: Input) {
    && DistinctIndices(input.registry)
    && (if run.initialized then Faithful(run.registry, input.dirty, input.registry)
        else forall e :: e in input.everyone <==> ReplicatedAs(input.registry, e).Some?)
  }

  ghost predicate AllAdmissible(settings: Settings, options: Options, run: Run, steps: seq<Step>)
    requires settings.WellFormed() && run.table.Valid()
  {
    steps != [] ==>
      var init, last := steps[..|steps| - 1], steps[|steps| - 1];
      var before := RunOf(settings, options, run, init);
      && AllAdmissible(settings, options, run, init)
      && (before.Some? && last.Passed? ==> Admissible(before.value, last.input))
  }

  /** A writer that has not written yet, attached to a server that is new or already running. */
  ghost predicate Start(settings: Settings, run: Run) {
    && run.writer == Fresh && run.written == [] && run.lost == {}
    && ServerSound(settings, run)
  }

  ghost predicate ServerSound(settings: Settings, run: Run) {
    if run.initialized
    then run.table.Valid() && Synced(run.registry, run.table, |settings.archetypes|)
    else run.table == Empty
  }

  ghost function Before(written: seq<Written>, k: nat): Option<Written>
    requires k <= |written|
  {
    if k == 0 then None else Some(written[k - 1])
  }

  ghost predicate Distinct(xs: seq<nat>) {
    forall i, j | 0 <= i < j < |xs| :: xs[i] != xs[j]
  }

  ghost predicate Covers(settings: Settings, last: Written, r: Registry, t: Table, lost: set<nat>, acc: WriterState)
    requires settings.WellFormed()
  {
    PendingCovers(settings, last.registry, last.table, last.lost, r, t, lost, acc.pending, acc.pendingDestroyed)
  }

  /** How a frame is recorded: the bits of its slots, after the frame `prev`. */
  ghost predicate Entry(settings: Settings, prev: Option<Written>, w: Written)
    requires settings.WellFormed()
  {
    && Synced(w.registry, w.table, |settings.archetypes|)
    && (w.frame.kind.Full? ==> w.lost == {} && w.frame.payload == EncodePayload(FrameItems(settings, StateOf(w), true, [], [])))
    && (w.frame.kind.Delta? ==>
          && w.frame.payload == EncodePayload(FrameItems(settings, StateOf(w), false, w.pending, w.destroyed))
          && Distinct(w.pending) && prev.Some?
          && PendingCovers(settings, prev.value.registry, prev.value.table, prev.value.lost, w.registry, w.table, w.lost, w.pending, w.destroyed))
  }

  ghost predicate Linked(settings: Settings, written: seq<Written>)
    requires settings.WellFormed()
  {
    forall k | 0 <= k < |written| :: Entry(settings, Before(written, k), written[k])
  }

  ghost predicate WriterSound(settings: Settings, run: Run)
    requires settings.WellFormed()
  {
    && run.writer.hasWritten == (run.written != []) && Distinct(run.writer.pending)
    && (run.written != [] ==>
          run.initialized && Covers(settings, run.written[|run.written| - 1], run.registry, run.table, run.lost, run.writer))
  }

  // ------------------------------------------------------------ one pass

  lemma {:induction false} MarkMembers(pending: seq<nat>, marks: seq<nat>, slotCount: nat)
    requires forall i | 0 <= i < |pending| :: pending[i] < slotCount
    ensures forall s: int :: s in Mark(pending, marks, slotCount) <==> s in pending || (s in marks && s < slotCount)
  {
    if marks != [] {
      MarkMembers(pending, marks[..|marks| - 1], slotCount);
      assert marks == marks[..|marks| - 1] + [marks[|marks| - 1]];
    }
  }

  lemma {:induction false} MarkDistinct(pending: seq<nat>, marks: seq<nat>, slotCount: nat)
    requires Distinct(pending)
    ensures Distinct(Mark(pending, marks, slotCount))
  {
    if marks != [] {
      MarkDistinct(pending, marks[..|marks| - 1], slotCount);
    }
  }

  /** What is pending or destroyed after a pass: what was, and what the pass marks and destroys. */
  lemma AccumulatedMembers(settings: Settings, ws: WriterState, f: ServerFrame)
    requires forall i | 0 <= i < |ws.pending| :: ws.pending[i] < |f.table.slots|
    ensures var acc := Accumulate(settings, ws, f);
            && (forall s: int :: s in acc.pending <==> s in ws.pending || (s in DirtySlots(settings, f.table, f.dirty) && s < |f.table.slots|))
            && (forall s: int :: s in acc.pendingDestroyed <==> s in ws.pendingDestroyed || s in f.table.destroyed)
  {
    hide Mark, DirtySlots;
    MarkMembers(ws.pending, DirtySlots(settings, f.table, f.dirty), |f.table.slots|);
  }

  lemma InBounds(xs: seq<nat>, n: nat)
    requires forall x <- xs :: x < n
    ensures forall i | 0 <= i < |xs| :: xs[i] < n
  {
    forall i | 0 <= i < |xs| ensures xs[i] < n {
      assert xs[i] in xs;
    }
  }

  /** A pass keeps every slot that the session may show wrongly pending, destroyed or lost. */
  lemma PassKeepsCover(settings: Settings, last: Written, r: Registry, t: Table, lost: set<nat>, ws: WriterState, f: ServerFrame)
    requires settings.WellFormed() && settings.Tracks() && Faithful(r, f.dirty, f.registry)
    requires t.Valid() && t.destroyed == [] && f.table.Valid()
    requires Evolved(t, f.table, f.dirty.replicated.added + f.dirty.replicated.dirty)
    requires Covers(settings, last, r, t, lost, ws)
    ensures var acc := Accumulate(settings, ws, f); Covers(settings, last, f.registry, f.table, StillLost(lost, acc), acc)
  {
    hide ServerSlot, DirtySlots, Settings.WellFormed, Settings.Tracks, Faithful, Accumulate, Table.Valid;
    var acc := Accumulate(settings, ws, f);
    var r', t' := f.registry, f.table;
    assert |t.slots| <= |t'.slots|;
    AccumulatedMembers(settings, ws, f);
    forall x <- acc.pendingDestroyed ensures x < |t'.slots| {
      PendingBound(settings, last, r, t, lost, ws, x);
    }
    forall x <- acc.pending ensures x < |t'.slots| {
      PendingBound(settings, last, r, t, lost, ws, x);
    }
    InBounds(acc.pending, |t'.slots|);
    InBounds(acc.pendingDestroyed, |t'.slots|);
    forall s: int | s !in acc.pending && s !in acc.pendingDestroyed
      ensures s !in StillLost(lost, acc) ==>
                s !in last.lost && ServerSlot(settings, last.registry, last.table, s) == ServerSlot(settings, r', t', s)
      ensures s in StillLost(lost, acc) ==> !t'.Active(s)
    {
      PassCovers(settings, r, f.dirty, r', t, t', s);
      SlotExists(settings, r, t, r', t', s);
      if t'.Active(s) && !t.Active(s) {
        NewOccupantMarked(settings, f.dirty, t', s);
      }
    }
    forall s <- acc.pendingDestroyed | t'.Active(s) ensures s in acc.pending {
      PassCovers(settings, r, f.dirty, r', t, t', s);
      if !t.Active(s) {
        NewOccupantMarked(settings, f.dirty, t', s);
      }
    }
  }

  lemma PendingBound(settings: Settings, last: Written, r: Registry, t: Table, lost: set<nat>, ws: WriterState, x: nat)
    requires settings.WellFormed() && Covers(settings, last, r, t, lost, ws)
    ensures x in ws.pending || x in ws.pendingDestroyed ==> x < |t.slots|
  {
  }

  lemma SlotExists(settings: Settings, r: Registry, t: Table, r': Registry, t': Table, s: int)
    requires settings.WellFormed() && |t.slots| <= |t'.slots|
    ensures ServerSlot(settings, r, t, s) != ServerSlot(settings, r', t', s) ==> 0 <= s < |t'.slots|
  {
  }

  lemma PassServer(settings: Settings, run: Run, input: Input)
    requires settings.WellFormed() && ServerSound(settings, run) && run.table.Valid() && Admissible(run, input)
    ensures var t := PassTable(settings, run, input); t.Some? ==>
              && Synced(input.registry, t.value, |settings.archetypes|)
              && (run.initialized ==> Evolved(run.table.(destroyed := []), t.value, input.dirty.replicated.added + input.dirty.replicated.dirty))
  {
    hide Synced, Evolved, Faithful, DistinctIndices;
    var t0 := run.table.(destroyed := []);
    if run.initialized {
      assert Rediscover(t0, true, input.registry, input.dirty, input.everyone, |settings.archetypes|)
          == Rediscover(t0, true, input.registry, input.dirty, [], |settings.archetypes|);
      SyncedAnyway(run.registry, run.table, |settings.archetypes|);
      RediscoverEvolves(t0, input.dirty, input.registry, |settings.archetypes|);
      RediscoverSyncs(t0, run.registry, input.dirty, input.registry, |settings.archetypes|);
    } else {
      FirstDiscoverySyncs(input.registry, input.dirty, input.everyone, |settings.archetypes|);
    }
  }

  /** A slot freed between passes is lost to the writer, unless it is pending anyway. */
  lemma FreeKeepsCover(settings: Settings, last: Written, run: Run, s: nat)
    requires settings.WellFormed() && run.table.Valid() && run.table.Active(s)
    requires Synced(run.registry, run.table, |settings.archetypes|)
    requires Covers(settings, last, run.registry, run.table, run.lost, run.writer)
    ensures var next := Free(run, s); Covers(settings, last, next.registry, next.table, next.lost, next.writer)
  {
    hide ServerSlot, Table.Valid;
    var next := Free(run, s);
    forall x: int ensures x != s ==> ServerSlot(settings, next.registry, next.table, x) == ServerSlot(settings, run.registry, run.table, x)
      ensures x == s ==> ServerSlot(settings, next.registry, next.table, x).None? && ServerSlot(settings, run.registry, run.table, x).Some?
    {
      FreeSlots(settings, run.registry, run.table, s, x);
    }
  }

  lemma FreeSlots(settings: Settings, r: Registry, t: Table, s: nat, x: int)
    requires settings.WellFormed() && t.Active(s) && Synced(r, t, |settings.archetypes|)
    ensures var r', t' := Unmarked(r, t.slots[s].entity), Deactivate(t, s);
            if x == s then ServerSlot(settings, r', t', x).None? && ServerSlot(settings, r, t, x).Some?
            else ServerSlot(settings, r', t', x) == ServerSlot(settings, r, t, x)
  {
    var r', t' := Unmarked(r, t.slots[s].entity), Deactivate(t, s);
    if x != s && t.Active(x) {
      var a := settings.archetypes[t.slots[x].archetype];
      assert TagsOf(a, r', t.slots[x].entity) == TagsOf(a, r, t.slots[x].entity);
      assert ComponentsOf(a, r', t.slots[x].entity) == ComponentsOf(a, r, t.slots[x].entity);
    }
  }

  lemma FreeServer(settings: Settings, run: Run, s: nat)
    requires run.table.Valid() && ServerSound(settings, run)
    ensures ServerSound(settings, Free(run, s))
  {
    hide Synced, Table.Valid;
    if run.table.Active(s) {
      FreeValid(run.table, s);
      FreeSyncs(run.registry, run.table, |settings.archetypes|, s);
    }
  }

  /** What a recorded frame does to a session: a Full one to any, a Delta one to one that shows the last written state. */
  lemma EntryCarries(settings: Settings, prev: Option<Written>, w: Written, session: Session, cues: bool)
    requires settings.WellFormed() && Entry(settings, prev, w) && Whole(settings, w) && session.Valid(settings)
    requires w.frame.kind.Full? || (prev.Some? && Shows(settings, session, prev.value.registry, prev.value.table, prev.value.lost))
    ensures var a := ApplyPayload(settings, w.frame.kind, w.frame.payload, session, cues);
            a.ok && a.session.Valid(settings) && Shows(settings, a.session, w.registry, w.table, w.lost)
  {
    hide Settings.WellFormed, Session.Valid, ApplyPayload, EncodePayload, FrameItems, SessionSlot, ServerSlot, PendingCovers;
    if w.frame.kind.Full? {
      FullIgnoresPending(settings, StateOf(w), w.pending, w.destroyed);
      FullFrameEffect(settings, StateOf(w), session, cues);
    } else {
      DeltaFrameEffect(settings, StateOf(w), w.pending, w.destroyed, w.lost, prev.value.registry, prev.value.table, prev.value.lost, session, cues);
    }
  }

  lemma FullIgnoresPending(settings: Settings, f: ServerFrame, pending: seq<nat>, destroyed: seq<nat>)
    requires settings.WellFormed()
    ensures FrameItems(settings, f, true, pending, destroyed) == FrameItems(settings, f, true, [], [])
    ensures Writable(settings, f, true, pending, destroyed) ==> Writable(settings, f, true, [], [])
  {
  }

  /** A frame that is due is recorded as an entry after the last one. */
  lemma RecordedEntry(settings: Settings, options: Options, ws: WriterState, f: ServerFrame, prev: Option<Written>, lost: set<nat>)
    requires settings.WellFormed() && WriteDue(options, ws, f.frame) && Distinct(ws.pending)
    requires Synced(f.registry, f.table, |settings.archetypes|)
    requires var acc := Accumulate(settings, ws, f);
             ws.hasWritten ==> prev.Some? && Covers(settings, prev.value, f.registry, f.table, StillLost(lost, acc), acc)
    ensures var w := Recorded(settings, ws, f, Observe(settings, options, ws, f).1.value, lost);
            Entry(settings, prev, w) && forall s <- w.lost :: !f.table.Active(s)
  {
    hide Settings.WellFormed, EncodePayload, FrameItems, ServerSlot, Mark, DirtySlots, Synced, Distinct;
    var acc := Accumulate(settings, ws, f);
    FullIgnoresPending(settings, f, acc.pending, acc.pendingDestroyed);
    MarkDistinct(ws.pending, DirtySlots(settings, f.table, f.dirty), |f.table.slots|);
    assert StateOf(Recorded(settings, ws, f, Observe(settings, options, ws, f).1.value, lost)) == f;
  }

  lemma LinkedAppend(settings: Settings, written: seq<Written>, w: Written)
    requires settings.WellFormed() && Linked(settings, written) && Entry(settings, Before(written, |written|), w)
    ensures Linked(settings, written + [w])
  {
    hide Entry;
    var all := written + [w];
    forall k | 0 <= k < |all| ensures Entry(settings, Before(all, k), all[k]) {
      assert Before(all, k) == Before(written, k);
      if k < |written| {
        assert Entry(settings, Before(written, k), written[k]);
      }
    }
  }

  lemma NothingPending(settings: Settings, w: Written, acc: WriterState)
    requires settings.WellFormed() && acc.pending == [] && acc.pendingDestroyed == [] && forall s <- w.lost :: !w.table.Active(s)
    ensures Covers(settings, w, w.registry, w.table, w.lost, acc)
  {
    hide ServerSlot;
  }

  /** Writing makes the written state the last one, with nothing pending. */
  lemma WriteKeepsSound(settings: Settings, options: Options, run: Run, f: ServerFrame)
    requires settings.WellFormed() && WriterSound(settings, run) && Linked(settings, run.written) && WriteDue(options, run.writer, f.frame)
    requires f.table.Valid() && Synced(f.registry, f.table, |settings.archetypes|)
    requires var acc := Accumulate(settings, run.writer, f);
             run.written != [] ==> Covers(settings, run.written[|run.written| - 1], f.registry, f.table, StillLost(run.lost, acc), acc)
    ensures var (ws, out) := Observe(settings, options, run.writer, f);
            var w := Recorded(settings, run.writer, f, out.value, run.lost);
            var next := Run(f.registry, f.table, true, ws, run.written + [w], w.lost);
            WriterSound(settings, next) && Linked(settings, next.written)
  {
    hide Settings.WellFormed, Synced, Covers, Entry, Linked, Accumulate, EncodePayload, FrameItems, Table.Valid;
    var (ws, out) := Observe(settings, options, run.writer, f);
    var w := Recorded(settings, run.writer, f, out.value, run.lost);
    RecordedEntry(settings, options, run.writer, f, Before(run.written, |run.written|), run.lost);
    LinkedAppend(settings, run.written, w);
    NothingPending(settings, w, ws);
  }

  lemma PassWaits(settings: Settings, options: Options, ws: WriterState, f: ServerFrame)
    requires settings.WellFormed() && Distinct(ws.pending) && !WriteDue(options, ws, f.frame)
    ensures var (ws', out) := Observe(settings, options, ws, f);
            out.None? && ws' == Accumulate(settings, ws, f) && ws'.hasWritten == ws.hasWritten && Distinct(ws'.pending)
  {
    hide Mark, DirtySlots, Distinct;
    MarkDistinct(ws.pending, DirtySlots(settings, f.table, f.dirty), |f.table.slots|);
  }

  lemma PassKeepsCovers(settings: Settings, run: Run, f: ServerFrame)
    requires settings.WellFormed() && settings.Tracks() && run.table.Valid() && f.table.Valid()
    requires WriterSound(settings, run) && run.written != [] && Faithful(run.registry, f.dirty, f.registry)
    requires Evolved(run.table.(destroyed := []), f.table, f.dirty.replicated.added + f.dirty.replicated.dirty)
    ensures var acc := Accumulate(settings, run.writer, f);
            Covers(settings, run.written[|run.written| - 1], f.registry, f.table, StillLost(run.lost, acc), acc)
  {
    hide Settings.WellFormed, Settings.Tracks, Faithful, Evolved, Accumulate, Covers, StillLost;
    var last, t0 := run.written[|run.written| - 1], run.table.(destroyed := []);
    CoversAnyway(settings, last, run.registry, run.table, run.lost, run.writer);
    PassKeepsCover(settings, last, run.registry, t0, run.lost, run.writer, f);
  }

  lemma CoversAnyway(settings: Settings, last: Written, r: Registry, t: Table, lost: set<nat>, ws: WriterState)
    requires settings.WellFormed() && Covers(settings, last, r, t, lost, ws)
    ensures Covers(settings, last, r, t.(destroyed := []), lost, ws)
  {
    hide TagsOf, ComponentsOf;
    assert forall s: int :: ServerSlot(settings, r, t.(destroyed := []), s) == ServerSlot(settings, r, t, s);
  }

  ghost predicate Sound(settings: Settings, run: Run)
    requires settings.WellFormed()
  {
    ServerSound(settings, run) && WriterSound(settings, run) && Linked(settings, run.written)
  }

  /** Every step keeps the server, the writer and the recording sound. */
  lemma StepKeepsSound(settings: Settings, options: Options, run: Run, step: Step)
    requires settings.WellFormed() && settings.Tracks() && run.table.Valid() && Sound(settings, run)
    requires step.Passed? ==> Admissible(run, step.input)
    ensures var next := After(settings, options, run, step); next.Some? ==> Sound(settings, next.value)
  {
    hide Settings.WellFormed, Settings.Tracks, Faithful, Evolved, Covers, Accumulate, Linked, Synced, Observe, Rediscover, Recorded, StillLost, Distinct;
    match step
    case Freed(s) =>
      FreeServer(settings, run, s);
      if run.table.Active(s) && run.written != [] {
        FreeKeepsCover(settings, run.written[|run.written| - 1], run, s);
      }
    case Passed(input) =>
      PassServer(settings, run, input);
      var t := PassTable(settings, run, input);
      if t.Some? {
        var f := ServerFrame(input.frame, input.registry, t.value, input.dirty);
        if run.written != [] {
          PassKeepsCovers(settings, run, f);
        }
        if WriteDue(options, run.writer, input.frame) {
          WriteKeepsSound(settings, options, run, f);
          DueIsWritten(settings, options, run.writer, f);
        } else {
          PassWaits(settings, options, run.writer, f);
        }
      }
  }

  lemma DueIsWritten(settings: Settings, options: Options, ws: WriterState, f: ServerFrame)
    requires settings.WellFormed() && WriteDue(options, ws, f.frame)
    ensures Observe(settings, options, ws, f).1.Some?
  {
  }

  // ------------------------------------------------------------- whole runs

  lemma {:induction false} RunsAreSound(settings: Settings, options: Options, start: Run, steps: seq<Step>)
    requires settings.WellFormed() && settings.Tracks() && Start(settings, start) && start.table.Valid()
    requires AllAdmissible(settings, options, start, steps)
    ensures var end := RunOf(settings, options, start, steps); end.Some? ==> Sound(settings, end.value)
  {
    hide Settings.WellFormed, Settings.Tracks, ServerSound, Admissible, After, Table.Valid;
    if steps != [] {
      var init := steps[..|steps| - 1];
      RunsAreSound(settings, options, start, init);
      var before := RunOf(settings, options, start, init);
      if before.Some? {
        StepKeepsSound(settings, options, before.value, steps[|steps| - 1]);
      }
    }
  }

  /** Reading frames one after another. */
  function Replay(settings: Settings, session: Session, frames: seq<ReplayFrame>, cues: bool): Applied
    requires settings.WellFormed()
  {
    if frames == [] then Applied(true, session)
    else
      var before := Replay(settings, session, frames[..|frames| - 1], cues);
      var last := frames[|frames| - 1];
      if before.ok then ApplyPayload(settings, last.kind, last.payload, before.session, cues) else before
  }

  function Frames(written: seq<Written>): (frames: seq<ReplayFrame>)
    ensures |frames| == |written|
  {
    seq(|written|, k requires 0 <= k < |written| => written[k].frame)
  }

  lemma LastFrame(written: seq<Written>, i: nat, j: nat)
    requires i <= j < |written|
    ensures var frames := Frames(written)[i..j + 1];
            frames[..|frames| - 1] == Frames(written)[i..j] && frames[|frames| - 1] == written[j].frame
  {
    var all := Frames(written);
    assert all[i..j + 1] == all[i..j] + [all[j]];
  }

  /** Replaying a piece of a linked recording from a Full frame shows the server at its last frame, but for what is lost there. */
  lemma {:induction false} LinkedReplay(settings: Settings, written: seq<Written>, i: nat, j: nat, session: Session, cues: bool)
    requires settings.WellFormed() && Linked(settings, written) && session.Valid(settings)
    requires i <= j < |written| && written[i].frame.kind.Full? && forall k | i <= k <= j :: Whole(settings, written[k])
    ensures var a := Replay(settings, session, Frames(written)[i..j + 1], cues);
            a.ok && a.session.Valid(settings) && Shows(settings, a.session, written[j].registry, written[j].table, written[j].lost)
  {
    hide ApplyPayload, Settings.WellFormed, Session.Valid, Shows, Whole, Entry, Frames;
    var frames := Frames(written)[i..j + 1];
    var init := frames[..|frames| - 1];
    LastFrame(written, i, j);
    assert Entry(settings, Before(written, j), written[j]);
    if i < j {
      LinkedReplay(settings, written, i, j - 1, session, cues);
      assert Before(written, j) == Some(written[j - 1]);
    } else {
      assert Replay(settings, session, init, cues) == Applied(true, session);
    }
    EntryCarries(settings, Before(written, j), written[j], Replay(settings, session, init, cues).session, cues);
  }

  /**
   For every run of passes and of slots freed between them, every Full frame
   `i` and every later recorded frame `j`, if the frames from `i` to `j` were
   written whole, replaying them into any session succeeds and leaves it
   showing what the server replicated at frame `j`: the same slots, archetypes,
   tags, component presence and quantised values, whatever became of the frames
   before `i`; except that it still shows something in each slot lost by then.
   So it is right exactly when nothing is lost.  The first recorded frame is a
   Full one, so there is always such an `i`.
   */
  lemma ReplayReproducesServer(
    settings: Settings, options: Options, start: Run, steps: seq<Step>, i: nat, j: nat, session: Session, cues: bool)
    requires settings.WellFormed() && settings.Tracks() && Start(settings, start) && start.table.Valid()
    requires AllAdmissible(settings, options, start, steps)
    requires RunOf(settings, options, start, steps).Some?
    requires session.Valid(settings)
    ensures var written := RunOf(settings, options, start, steps).value.written;
            && (written != [] ==> written[0].frame.kind.Full?)
            && (i <= j < |written| && written[i].frame.kind.Full? && (forall k | i <= k <= j :: Whole(settings, written[k])) ==>
                  var a := Replay(settings, session, Frames(written)[i..j + 1], cues);
                  && a.ok && Shows(settings, a.session, written[j].registry, written[j].table, written[j].lost)
                  && (Agrees(settings, a.session, written[j].registry, written[j].table) <==> written[j].lost == {}))
  {
    hide Whole, Linked, WriterSound, ServerSound, Agrees, Shows, AllAdmissible, Replay, Settings.WellFormed;
    RunsAreSound(settings, options, start, steps);
    var written := RunOf(settings, options, start, steps).value.written;
    StartsFull(settings, written);
    if i <= j < |written| && written[i].frame.kind.Full? && (forall k | i <= k <= j :: Whole(settings, written[k])) {
      LinkedReplay(settings, written, i, j, session, cues);
      ShowsAll(settings, Replay(settings, session, Frames(written)[i..j + 1], cues).session, written[j].registry, written[j].table, written[j].lost);
    }
  }

  lemma StartsFull(settings: Settings, written: seq<Written>)
    requires settings.WellFormed() && Linked(settings, written)
    ensures written != [] ==> written[0].frame.kind.Full?
  {
    assert written != [] ==> Entry(settings, Before(written, 0), written[0]);
  }

  /**
   What is lost, in every run: a Full frame loses nothing, and a Delta frame
   exactly the slots that are free, were occupied or lost when the last frame
   was written, and are neither pending nor reported destroyed.
   */
  lemma LostExactly(settings: Settings, options: Options, start: Run, steps: seq<Step>, k: nat, s: nat)
    requires settings.WellFormed() && settings.Tracks() && Start(settings, start) && start.table.Valid()
    requires AllAdmissible(settings, options, start, steps)
    requires RunOf(settings, options, start, steps).Some? && k < |RunOf(settings, options, start, steps).value.written|
    ensures var written := RunOf(settings, options, start, steps).value.written;
            s in written[k].lost <==>
              && written[k].frame.kind.Delta? && k > 0 && (written[k - 1].table.Active(s) || s in written[k - 1].lost)
              && !written[k].table.Active(s) && s !in written[k].pending && s !in written[k].destroyed
  {
    hide RunOf, AllAdmissible, Start, ServerSound, WriterSound, ServerSlot, EncodePayload, FrameItems, Settings.WellFormed;
    RunsAreSound(settings, options, start, steps);
    var written := RunOf(settings, options, start, steps).value.written;
    assert Entry(settings, Before(written, k), written[k]);
    OccupiedShows(settings, written[k].registry, written[k].table, s);
    if k > 0 {
      assert Entry(settings, Before(written, k - 1), written[k - 1]);
      OccupiedShows(settings, written[k - 1].registry, written[k - 1].table, s);
    }
  }

  lemma OccupiedShows(settings: Settings, r: Registry, t: Table, s: nat)
    requires settings.WellFormed() && Synced(r, t, |settings.archetypes|)
    ensures ServerSlot(settings, r, t, s).Some? <==> t.Active(s)
  {
  }

  /** A run that frees no slot between passes loses none. */
  lemma {:induction false} NothingLost(settings: Settings, options: Options, start: Run, steps: seq<Step>)
    requires settings.WellFormed() && Start(settings, start) && start.table.Valid()
    requires forall step <- steps :: step.Passed?
    ensures var end := RunOf(settings, options, start, steps);
            end.Some? ==> end.value.lost == {} && forall w <- end.value.written :: w.lost == {}
  {
    hide Settings.WellFormed, ServerSound, Table.Valid, PassTable, Accumulate, Observe;
    if steps != [] {
      var init, last := steps[..|steps| - 1], steps[|steps| - 1];
      assert last in steps && forall step <- init :: step in steps;
      NothingLost(settings, options, start, init);
    }
  }

  /**
   And exactly: in every run, reading a recorded Full frame into any session
   gives the server's state if and only if every occupied slot quantised when
   it was written and there were not too many of them to count.
   */
  lemma RecordedFullIsExact(
    settings: Settings, options: Options, start: Run, steps: seq<Step>, i: nat, session: Session, cues: bool)
    requires settings.WellFormed() && settings.Tracks() && Start(settings, start) && start.table.Valid()
    requires AllAdmissible(settings, options, start, steps)
    requires RunOf(settings, options, start, steps).Some?
    requires session.Valid(settings)
    requires var written := RunOf(settings, options, start, steps).value.written;
             i < |written| && written[i].frame.kind.Full? && |written[i].table.slots| < 0xFFFF_FFFF
    ensures var w := RunOf(settings, options, start, steps).value.written[i];
            var a := ApplyPayload(settings, Full, w.frame.payload, session, cues);
            a.ok && Agrees(settings, a.session, w.registry, w.table) <==>
              && (forall s: nat | w.table.Active(s) :: Quantize(settings, w.registry, w.table.slots[s]).Some?)
              && |ReplicableSlots(StateOf(w), |w.table.slots|)| <= MAX_COUNT
  {
    hide WriterSound, ServerSound, Agrees, AllAdmissible, ApplyPayload, EncodePayload, FrameItems, Session.Valid, Quantize;
    hide Settings.WellFormed, ReplicableSlots, RunOf, PendingCovers;
    RunsAreSound(settings, options, start, steps);
    var written := RunOf(settings, options, start, steps).value.written;
    assert Entry(settings, Before(written, i), written[i]);
    FullFrameExact(settings, StateOf(written[i]), session, cues);
  }

  /**
   The same of a recorded Delta frame, read into a session that shows the last
   written state: if the pending slots from the first one on that did not
   quantise had changed, it gives the server's state if and only if there was
   no such slot and nothing is lost.
   */
  lemma RecordedDeltaIsExact(
    settings: Settings, options: Options, start: Run, steps: seq<Step>, k: nat, n: nat, session: Session, cues: bool)
    requires settings.WellFormed() && settings.Tracks() && Start(settings, start) && start.table.Valid()
    requires AllAdmissible(settings, options, start, steps)
    requires RunOf(settings, options, start, steps).Some?
    requires session.Valid(settings)
    requires var written := RunOf(settings, options, start, steps).value.written;
             && 0 < k < |written| && written[k].frame.kind.Delta? && Countable(written[k])
             && Shows(settings, session, written[k - 1].registry, written[k - 1].table, written[k - 1].lost)
             && ChangedFrom(settings, written[k], n, session)
    ensures var w := RunOf(settings, options, start, steps).value.written[k];
            var a := ApplyPayload(settings, Delta, w.frame.payload, session, cues);
            a.ok && Agrees(settings, a.session, w.registry, w.table) <==>
              (forall s <- w.pending | w.table.Active(s) :: Quantize(settings, w.registry, w.table.slots[s]).Some?) && w.lost == {}
  {
    hide WriterSound, ServerSound, AllAdmissible, ApplyPayload, EncodePayload, FrameItems, Session.Valid, Quantize, Shows, Due, Agrees;
    hide Settings.WellFormed, RunOf, PendingCovers, SessionSlot, ServerSlot, ChangedFrom, Countable;
    RunsAreSound(settings, options, start, steps);
    var written := RunOf(settings, options, start, steps).value.written;
    var prev, w := written[k - 1], written[k];
    assert Entry(settings, Before(written, k), w);
    EntryIsDue(settings, Before(written, k), w, n, session);
    DeltaHeadersExact(settings, StateOf(w), w.pending, w.destroyed, n, session, cues);
    RestIsRight(settings, prev, w, session);
  }

  /** Slot ids fit 32 bits and the records the 16-bit count. */
  ghost predicate Countable(w: Written) {
    |w.table.slots| < 0xFFFF_FFFF && |DestroyItems(w.destroyed)| + |w.pending| < MAX_COUNT
  }

  /** The first `n` pending slots quantise, and the others differ from what the session shows. */
  ghost predicate ChangedFrom(settings: Settings, w: Written, n: nat, session: Session)
    requires settings.WellFormed()
  {
    && n <= |w.pending| && (forall s <- w.pending[..n] | w.table.Active(s) :: Quantises(settings, StateOf(w), s))
    && (forall s <- w.pending[n..] | s !in w.destroyed :: ServerSlot(settings, w.registry, w.table, s) != SessionSlot(settings, session, s))
  }

  lemma EntryIsDue(settings: Settings, prev: Option<Written>, w: Written, n: nat, session: Session)
    requires settings.WellFormed() && Entry(settings, prev, w) && w.frame.kind.Delta? && Countable(w)
    requires ChangedFrom(settings, w, n, session)
    ensures Due(settings, StateOf(w), w.pending, w.destroyed, n, session)
  {
    hide Settings.WellFormed, SessionSlot, ServerSlot, EncodePayload, FrameItems, Quantize;
  }

  /** What the frame does not rewrite is right in the session exactly when nothing is lost. */
  lemma RestIsRight(settings: Settings, prev: Written, w: Written, session: Session)
    requires settings.WellFormed() && Entry(settings, Some(prev), w) && w.frame.kind.Delta?
    requires Shows(settings, session, prev.registry, prev.table, prev.lost)
    ensures (forall s: int | s !in w.pending ::
              ServerSlot(settings, w.registry, w.table, s) == if s in w.destroyed then None else SessionSlot(settings, session, s))
            <==> w.lost == {}
  {
    hide Settings.WellFormed, SessionSlot, ServerSlot, EncodePayload, FrameItems;
    forall s: int | s !in w.pending
      ensures ServerSlot(settings, w.registry, w.table, s) == (if s in w.destroyed then None else SessionSlot(settings, session, s)) <==> s !in w.lost
    {
      FreeSlot(settings, w.registry, w.table, s);
      assert if s in prev.lost then SessionSlot(settings, session, s).Some?
             else SessionSlot(settings, session, s) == ServerSlot(settings, prev.registry, prev.table, s);
    }
    if w.lost != {} {
      var s :| s in w.lost;
      assert s !in w.pending;
    }
  }
}
