/** A playback session: applying frames to the replay registry, and following the streamer's ring. */
module ReplayPlayback {
  import opened Wrappers
  import opened Bits
  import opened World
  import opened ReplayWire
  import opened ReplaySession
  import opened ReplayFrames
  import opened ReplayStreaming
  import opened ReplayCorrectness

  function Next32(frame: nat): nat {
    (frame + 1) % 0x1_0000_0000
  }

  class Playback {
    const settings: Settings
    var registry: map<nat, SessionEntity>
    var nextHandle: nat
    var entities: map<nat, nat>
    var frames: seq<ReplayFrame>
    var nextFrameIndex: nat
    var playbackFrame: nat
    var endFrame: nat
    var active: bool
    ghost var seed: Session

    ghost function State(): Session
      reads this
    {
      Session(registry, nextHandle, entities)
    }

    /** While active, every listed frame before `nextFrameIndex` has been applied to the seed, once and in order. */
    ghost predicate Valid()
      reads this
    {
      && settings.WellFormed()
      && (active ==>
            && nextFrameIndex <= |frames| && frames != []
            && Increasing(frames)
            && (forall k | 0 <= k < |frames| :: frames[k].frame <= endFrame)
            && Replay(settings, seed, frames[..nextFrameIndex], true) == Applied(true, State()))
    }

    /** The list is a piece of the recording `written` that begins at its Full frame `i`, and the seed came from that frame. */
    ghost predicate Follows(written: seq<Written>, i: nat)
      reads this
    {
      active && Piece(settings, frames, seed, written, i)
    }

    /** The tag loop of `apply_tags`. */
    static method FollowTags(a: Archetype, tags: set<nat>, mask: BitString) returns (out: set<nat>)
      requires a.WellFormed() && |mask| == 64
      ensures out == ApplyTags(a, tags, mask)
    {
      out := tags;
      for i := 0 to |a.tags|
        invariant forall t :: t in out <==>
            (t in tags && (forall k | 0 <= k < i :: a.tags[k] != t)) || (exists k :: 0 <= k < i && a.tags[k] == t && mask[k])
      {
        if mask[i] {
          out := out + {a.tags[i]};
        } else {
          out := out - {a.tags[i]};
        }
      }
    }

    /** The component loop of `apply_components`. */
    static method PushComponents(a: Archetype, bits: BitString, components: map<nat, Bytes>, count: nat)
      returns (ok: bool, rest: BitString, out: map<nat, Bytes>)
      requires |a.components| == |a.ops|
      ensures ComponentCursor(ok, rest, out) == ReadComponents(a, ComponentCursor(true, bits, components), count)
    {
      ok, rest, out := true, bits, components;
      ghost var start := ComponentCursor(true, bits, components);
      for k := 0 to count
        invariant ok && ComponentCursor(ok, rest, out) == ReadComponents(a, start, k)
      {
        var after := ReadComponent(a, ComponentCursor(true, rest, out));
        ok, rest, out := after.ok, after.rest, after.components;
        if !ok {
          FailureStays(a, start, k + 1, count);
          return;
        }
      }
    }

    /** The removal loop of `apply_components`. */
    static method RemoveAbsent(a: Archetype, components: map<nat, Bytes>, present: BitString) returns (out: map<nat, Bytes>)
      requires a.WellFormed() && |present| == 64
      ensures out == DropAbsent(a, components, present)
    {
      out := components;
      for i := 0 to |a.components|
        invariant out == map c <- components | forall k | 0 <= k < i && a.components[k] == c :: present[k] :: components[c]
      {
        if !present[i] {
          out := out - {a.components[i]};
        }
      }
    }

    static lemma {:induction false} FailureStays(a: Archetype, c: ComponentCursor, k: nat, count: nat)
      requires |a.components| == |a.ops| && k <= count && !ReadComponents(a, c, k).ok
      ensures ReadComponents(a, c, count) == ReadComponents(a, c, k)
    {
      if k < count {
        FailureStays(a, c, k, count - 1);
      }
    }

    lemma {:induction false} RecordFailureStays(kind: FrameKind, c: Cursor, k: nat, count: nat)
      requires settings.WellFormed() && k <= count && !ReadRecords(settings, kind, c, k).ok
      ensures ReadRecords(settings, kind, c, count) == ReadRecords(settings, kind, c, k)
    {
      hide ReadRecord, Settings.WellFormed;
      if k < count {
        RecordFailureStays(kind, c, k, count - 1);
      }
    }

    method DestroyEntity(id: nat)
      modifies this`registry, this`entities
      ensures State() == old(State()).Remove(id)
    {
      if id in entities {
        registry := registry - {entities[id]};
        entities := entities - {id};
      }
    }

    method EntityForReplayId(id: nat) returns (h: nat)
      modifies this`registry, this`entities, this`nextHandle
      ensures State() == old(State()).Ensure(id) && id in entities && h == entities[id] && h in registry
    {
      if id in entities && entities[id] in registry {
        return entities[id];
      }
      h := nextHandle;
      registry := registry[h := SessionEntity(None, {}, map[])];
      nextHandle := nextHandle + 1;
      entities := entities[id := h];
    }

    /** An entity record after its fixed fields. */
    method ApplyEntity(bits: BitString, id: nat, archetype: nat, tagMask: BitString, present: BitString, ghost listed: set<nat>)
      returns (ok: bool, rest: BitString)
      requires settings.WellFormed() && archetype < |settings.archetypes| && |tagMask| == |present| == 64
      modifies this`registry, this`entities, this`nextHandle
      ensures Cursor(ok, rest, State(), listed)
              == ReadEntity(settings, Cursor(true, bits, old(State()), listed), id, archetype, tagMask, present)
    {
      hide ApplyTags, DropAbsent, ReadComponents;
      var a := settings.archetypes[archetype];
      var h := EntityForReplayId(id);
      var tags := FollowTags(a, registry[h].tags, tagMask);
      registry := registry[h := registry[h].(archetype := Some(archetype), tags := tags)];
      rest := bits;
      match ReadField(bits, 16) {
        case None =>
          ok := false;
        case Some((count, after)) =>
          var components;
          ok, rest, components := PushComponents(a, after, registry[h].components, count);
          if ok {
            components := RemoveAbsent(a, components, present);
          } else {
            rest := bits;
          }
          registry := registry[h := registry[h].(components := components)];
      }
    }

    /** One round of the record loop of `apply_frame`. */
    method ApplyRecord(kind: FrameKind, bits: BitString, listed: set<nat>) returns (ok: bool, rest: BitString, listed': set<nat>)
      requires settings.WellFormed()
      modifies this`registry, this`entities, this`nextHandle
      ensures Cursor(ok, rest, State(), listed') == ReadRecord(settings, kind, Cursor(true, bits, old(State()), listed))
    {
      hide ReadEntity, Session.Ensure;
      ok, rest, listed' := false, bits, listed;
      match Read(bits, 1) {
        case None => return;
        case Some((destroy, bits1)) =>
          match ReadField(bits1, 32) {
            case None => return;
            case Some((id, bits2)) =>
              rest := bits2;
              if destroy[0] {
                DestroyEntity(id);
                ok := true;
                return;
              }
              if kind.Full? {
                listed' := listed + {id};
              }
              match ReadField(bits2, 32) {
                case None => return;
                case Some((archetype, bits3)) =>
                  match Read(bits3, 64) {
                    case None => return;
                    case Some((tagMask, bits4)) =>
                      match Read(bits4, 64) {
                        case None => return;
                        case Some((present, bits5)) =>
                          if archetype >= |settings.archetypes| || id == 0 {
                            return;
                          }
                          ok, rest := ApplyEntity(bits5, id, archetype, tagMask, present, listed');
                      }
                  }
              }
          }
      }
    }

    /** The stale pass of a Full frame, one id at a time. */
    method RemoveStale(listed: set<nat>)
      modifies this`registry, this`entities
      ensures State() == DropStale(old(State()), listed)
    {
      var stale := set id <- entities | id !in listed;
      ghost var all, done := stale, {};
      while stale != {}
        invariant stale + done == all && stale !! done
        invariant entities == old(entities) - done
        invariant registry == old(registry) - set id <- done :: old(entities)[id]
        invariant nextHandle == old(nextHandle)
        decreases stale
      {
        var id :| id in stale;
        DestroyEntity(id);
        stale, done := stale - {id}, done + {id};
      }
    }

    /** `apply_frame`. */
    method ApplyFrame(frame: ReplayFrame, cues: bool) returns (ok: bool)
      requires settings.WellFormed()
      modifies this`registry, this`entities, this`nextHandle
      ensures Applied(ok, State()) == ApplyPayload(settings, frame.kind, frame.payload, old(State()), cues)
    {
      hide ReadRecord, DropStale;
      match ReadField(frame.payload, 16) {
        case None => ok := false;
        case Some((count, bits)) =>
          ghost var start := Cursor(true, bits, State(), {});
          var rest, listed := bits, {};
          ok := true;
          for k := 0 to count
            invariant ok && Cursor(ok, rest, State(), listed) == ReadRecords(settings, frame.kind, start, k)
          {
            ok, rest, listed := ApplyRecord(frame.kind, rest, listed);
            if !ok {
              RecordFailureStays(frame.kind, start, k + 1, count);
              return;
            }
          }
          if frame.kind.Full? {
            RemoveStale(listed);
          }
          ok := cues ==> rest != [] && !rest[0];
      }
    }

    /**
     `begin_session`: the list starts at the latest Full frame at or before
     the preroll target and holds the frames from there up to the end frame;
     the first of them has been applied.  `serverReady` is the answer of the
     server's frame setter.  When the ring holds a piece of a sound recording,
     from its frame `lo` on, the session follows that recording.
     */
    method BeginSession(streamer: ReplayStreamer, focus: nat, serverReady: bool, ghost written: seq<Written>, ghost lo: nat)
      returns (ok: bool, ghost start: nat)
      requires Valid() && streamer.Valid() && Increasing(streamer.Contents())
      modifies this
      ensures Valid() && ok == active
      ensures ok ==>
                && endFrame == (focus + streamer.options.tail) % 0x1_0000_0000
                && nextFrameIndex == 0 && playbackFrame == frames[0].frame
                && StartsAt(streamer.Contents(), start, streamer.Target(focus)) && UpTo(streamer.Contents(), start, endFrame, frames)
                && Applied(true, seed) == ApplyPayload(settings, frames[0].kind, frames[0].payload, Session(old(registry), old(nextHandle), map[]), false)
      ensures ok && Recording(settings, written, streamer.Contents(), lo) && Fresh(old(registry), old(nextHandle)) ==>
                Follows(written, lo + start)
    {
      hide ApplyPayload, Ring, Replay, StartsAt, UpTo, Increasing, Settings.WellFormed, Piece, Recording, Fresh;
      ok := false;
      var first := streamer.FindStartFrame(focus);
      start := first;
      entities, frames, nextFrameIndex, playbackFrame, active := map[], [], 0, 0, false;
      if streamer.count == 0 || first >= streamer.count {
        return;
      }
      endFrame := (focus + streamer.options.tail) % 0x1_0000_0000;
      ok := LoadFrames(streamer, first);
      active := ok && serverReady && playbackFrame != 0;
      if !active {
        ok, entities, frames := false, map[], [];
        return;
      }
      NothingReplayed(settings, seed, frames);
      if Recording(settings, written, streamer.Contents(), lo) && Fresh(old(registry), old(nextHandle)) {
        FollowsFromStart(settings, streamer.Contents(), start, streamer.Target(focus), endFrame, frames, written, lo,
                         seed, old(registry), old(nextHandle));
      }
    }

    /** The part of `begin_session` that copies the frames and applies the first of them. */
    method LoadFrames(streamer: ReplayStreamer, first: nat) returns (ok: bool)
      requires settings.WellFormed() && streamer.Valid() && first < streamer.count && Increasing(streamer.Contents())
      modifies this`registry, this`entities, this`nextHandle, this`frames, this`seed, this`playbackFrame
      ensures UpTo(streamer.Contents(), first, endFrame, frames) && Increasing(frames) && forall k | 0 <= k < |frames| :: frames[k].frame <= endFrame
      ensures ok ==>
                && frames != [] && playbackFrame == frames[0].frame && seed == State()
                && Applied(true, seed) == ApplyPayload(settings, frames[0].kind, frames[0].payload, old(State()), false)
    {
      hide ApplyPayload, Ring, Settings.WellFormed;
      frames := streamer.CopyUpTo(first, endFrame);
      UpToIncreasing(streamer.Contents(), first, endFrame, frames);
      ok := false;
      if frames != [] {
        ok := ApplyFrame(frames[0], false);
        seed := State();
        playbackFrame := frames[0].frame;
      }
    }

    /** `append_available_frames`. */
    method AppendAvailableFrames(streamer: ReplayStreamer)
      requires Valid() && active && streamer.Valid() && Increasing(streamer.Contents())
      modifies this`frames
      ensures Valid()
      ensures frames == old(frames) + Available(streamer.Contents(), old(frames)[|old(frames)| - 1].frame, endFrame)
    {
      hide ApplyPayload, Ring, Replay, Available;
      var last := frames[|frames| - 1].frame;
      var added := streamer.CollectAvailable(last, endFrame);
      AvailableFrames(streamer.Contents(), last, endFrame);
      forall k | 0 <= k < |added| ensures last < added[k].frame <= endFrame {
        assert added[k] in added;
      }
      assert (frames + added)[..nextFrameIndex] == frames[..nextFrameIndex];
      frames := frames + added;
    }

    /**
     `tick_session`: after a tick that succeeds, every listed frame up to the
     playback frame has been applied and no later one has.  `serverReady` is
     the answer of the server's frame advance.  A tick that fails leaves the
     frames before the one that could not be applied, and what could be read of
     that one.  While the ring still holds the next frame of the recording the
     session follows, from its frame `lo` on, the session goes on following it.
     */
    method TickSession(streamer: ReplayStreamer, serverReady: bool, ghost written: seq<Written>, ghost i: nat, ghost lo: nat)
      returns (ok: bool)
      requires Valid() && streamer.Valid() && Increasing(streamer.Contents())
      modifies this
      ensures Valid() && (ok ==> active)
      ensures ok ==>
                && old(active) && seed == old(seed) && endFrame == old(endFrame)
                && frames == old(frames) + Available(streamer.Contents(), old(frames)[|old(frames)| - 1].frame, endFrame)
                && playbackFrame == Next32(old(playbackFrame))
                && (forall k | 0 <= k < |frames| ::
                      if k < nextFrameIndex then k < old(nextFrameIndex) || frames[k].frame <= old(playbackFrame)
                      else frames[k].frame > old(playbackFrame))
      ensures !ok && old(active) ==>
                && seed == old(seed) && playbackFrame == old(playbackFrame) && old(nextFrameIndex) <= nextFrameIndex <= |frames|
                && frames == old(frames) + Available(streamer.Contents(), old(frames)[|old(frames)| - 1].frame, endFrame)
                && (|| Applied(true, State()) == Replay(settings, seed, frames[..nextFrameIndex], true)
                    || (nextFrameIndex < |frames| && Applied(false, State()) == Replay(settings, seed, frames[..nextFrameIndex + 1], true)))
      ensures ok && old(Follows(written, i)) && Recording(settings, written, streamer.Contents(), lo)
              && lo <= i + |old(frames)| <= lo + |streamer.Contents()|
              ==> Follows(written, i)
    {
      hide ApplyPayload, Ring, Available, Replay, Settings.WellFormed, Piece, Recording, Increasing;
      if !active {
        return false;
      }
      AppendAvailableFrames(streamer);
      if old(Follows(written, i)) && Recording(settings, written, streamer.Contents(), lo)
         && lo <= i + |old(frames)| <= lo + |streamer.Contents()| {
        StillFollows(settings, streamer.Contents(), old(frames), frames, endFrame, seed, written, i, lo);
      }
      if playbackFrame == 0 || playbackFrame > endFrame {
        active := false;
        return false;
      }
      var applied := ApplyDueFrames();
      if !applied || !serverReady {
        active := false;
        return false;
      }
      playbackFrame := Next32(playbackFrame);
      ok := true;
    }

    /** The loop of `tick_session`. */
    method ApplyDueFrames() returns (ok: bool)
      requires Valid() && active
      modifies this`registry, this`entities, this`nextHandle, this`nextFrameIndex
      ensures old(nextFrameIndex) <= nextFrameIndex <= |frames|
      ensures ok ==>
                && Valid()
                && (forall k | old(nextFrameIndex) <= k < nextFrameIndex :: frames[k].frame <= playbackFrame)
                && (forall k | nextFrameIndex <= k < |frames| :: frames[k].frame > playbackFrame)
      ensures !ok ==> nextFrameIndex < |frames| && Applied(false, State()) == Replay(settings, seed, frames[..nextFrameIndex + 1], true)
    {
      hide ApplyPayload, Replay, Settings.WellFormed;
      while nextFrameIndex < |frames| && frames[nextFrameIndex].frame <= playbackFrame
        invariant Valid() && old(nextFrameIndex) <= nextFrameIndex <= |frames|
        invariant forall k | old(nextFrameIndex) <= k < nextFrameIndex :: frames[k].frame <= playbackFrame
        decreases |frames| - nextFrameIndex
      {
        OneMoreReplayed(settings, seed, frames, nextFrameIndex);
        var applied := ApplyFrame(frames[nextFrameIndex], true);
        if !applied {
          return false;
        }
        nextFrameIndex := nextFrameIndex + 1;
      }
      ok := true;
    }
  }

  /** A sound recording whose frames, from `lo` on, are what the ring holds. */
  ghost predicate Recording(settings: Settings, written: seq<Written>, c: seq<ReplayFrame>, lo: nat)
    requires settings.WellFormed()
  {
    Linked(settings, written) && Increasing(Frames(written)) && lo + |c| <= |written| && c == Frames(written)[lo..lo + |c|]
  }

  ghost predicate Fresh(registry: map<nat, SessionEntity>, next: nat) {
    forall h <- registry :: h < next
  }

  /** The seed is what reading the Full frame `w` made of `base`. */
  ghost predicate Seeds(settings: Settings, seed: Session, w: Written, base: Session)
    requires settings.WellFormed()
  {
    base.Valid(settings) && Applied(true, seed) == ApplyPayload(settings, Full, w.frame.payload, base, false)
  }

  ghost predicate Piece(settings: Settings, frames: seq<ReplayFrame>, seed: Session, written: seq<Written>, i: nat) {
    && settings.WellFormed() && Linked(settings, written) && Increasing(Frames(written))
    && frames != [] && i + |frames| <= |written| && frames == Frames(written)[i..i + |frames|]
    && written[i].frame.kind.Full? && exists base: Session :: Seeds(settings, seed, written[i], base)
  }

  lemma FollowsFromStart(settings: Settings, c: seq<ReplayFrame>, start: nat, target: nat, end: nat, frames: seq<ReplayFrame>,
                         written: seq<Written>, lo: nat, seed: Session, registry: map<nat, SessionEntity>, next: nat)
    requires settings.WellFormed() && Recording(settings, written, c, lo) && Fresh(registry, next)
    requires StartsAt(c, start, target) && UpTo(c, start, end, frames) && frames != []
    requires Applied(true, seed) == ApplyPayload(settings, frames[0].kind, frames[0].payload, Session(registry, next, map[]), false)
    ensures Piece(settings, frames, seed, written, lo + start)
  {
    hide ApplyPayload, Settings.WellFormed, Linked, Increasing, Frames;
    PieceOfPiece(Frames(written), c, lo, start, frames);
    FrameOf(written, lo + start);
    assert Seeds(settings, seed, written[lo + start], Session(registry, next, map[]));
  }

  lemma PieceOfPiece(all: seq<ReplayFrame>, c: seq<ReplayFrame>, lo: nat, start: nat, frames: seq<ReplayFrame>)
    requires lo + |c| <= |all| && c == all[lo..lo + |c|] && start + |frames| <= |c| && frames == c[start..start + |frames|]
    ensures frames == all[lo + start..lo + start + |frames|] && forall k | 0 <= k < |frames| :: frames[k] == all[lo + start + k]
  {
    forall k | 0 <= k < |frames| ensures frames[k] == all[lo + start + k] {
      assert frames[k] == c[start + k];
    }
  }

  lemma FrameOf(written: seq<Written>, i: nat)
    requires i < |written|
    ensures Frames(written)[i] == written[i].frame
  {
  }

  lemma StillFollows(settings: Settings, c: seq<ReplayFrame>, before: seq<ReplayFrame>, frames: seq<ReplayFrame>, end: nat, seed: Session,
                     written: seq<Written>, i: nat, lo: nat)
    requires settings.WellFormed() && Piece(settings, before, seed, written, i)
    requires Recording(settings, written, c, lo) && lo <= i + |before| <= lo + |c|
    requires frames == before + Available(c, before[|before| - 1].frame, end)
    ensures Piece(settings, frames, seed, written, i)
  {
    hide Available, Increasing, Settings.WellFormed, Linked, Seeds;
    var next, pushes := i + |before|, Frames(written);
    AppendsWithoutGap(pushes, lo, next, lo + |c|, end);
    assert before[|before| - 1] == pushes[next - 1];
    var a := Available(c, before[|before| - 1].frame, end);
    assert frames == pushes[i..next] + pushes[next..next + |a|];
  }

  /**
   Recording, ring and playback together: a session that follows a sound
   recording, as one does from `begin_session` through any number of ticks
   while the ring keeps up, shows exactly what the server replicated at the
   last frame applied, unless slots were lost by then, which it still shows
   something in.  After a tick that frame is the last listed one up to the
   playback frame; before the first it is the Full frame the session began with.
   */
  lemma PlaybackShowsServer(p: Playback, written: seq<Written>, i: nat)
    requires p.Valid() && p.Follows(written, i)
    requires forall k | i <= k < i + (if p.nextFrameIndex == 0 then 1 else p.nextFrameIndex) :: Whole(p.settings, written[k])
    ensures var at := written[if p.nextFrameIndex == 0 then i else i + p.nextFrameIndex - 1];
            && Shows(p.settings, p.State(), at.registry, at.table, at.lost)
            && (Agrees(p.settings, p.State(), at.registry, at.table) <==> at.lost == {})
  {
    hide ApplyPayload, Settings.WellFormed, Session.Valid, Shows, Agrees, Whole, Linked, Increasing, Replay;
    var base: Session :| Seeds(p.settings, p.seed, written[i], base);
    PieceShowsServer(p.settings, written, i, |p.frames|, p.nextFrameIndex, base, p.seed);
    var at := written[if p.nextFrameIndex == 0 then i else i + p.nextFrameIndex - 1];
    ShowsAll(p.settings, p.State(), at.registry, at.table, at.lost);
  }

  /** On values: after `k` frames of a piece of the recording; the seed alone already shows the first. */
  lemma PieceShowsServer(settings: Settings, written: seq<Written>, i: nat, n: nat, k: nat, base: Session, seed: Session)
    requires settings.WellFormed() && Linked(settings, written)
    requires 1 <= n && i + n <= |written| && k <= n && written[i].frame.kind.Full?
    requires forall m | i <= m < i + (if k == 0 then 1 else k) :: Whole(settings, written[m])
    requires Seeds(settings, seed, written[i], base)
    ensures var frames := Frames(written)[i..i + n];
            var a := Replay(settings, seed, frames[..k], true);
            var at := written[if k == 0 then i else i + k - 1];
            a.ok && Shows(settings, a.session, at.registry, at.table, at.lost)
  {
    hide ApplyPayload, Settings.WellFormed, Session.Valid, Shows, Whole, Linked, Seeds, Replay;
    SeedShows(settings, written, i, base, seed);
    var frames := Frames(written)[i..i + n];
    if k == 0 {
      NothingReplayed(settings, seed, frames);
    } else {
      PieceOf(Frames(written), i, n, k);
      LinkedReplay(settings, written, i, i + k - 1, seed, true);
    }
  }

  lemma PieceOf(frames: seq<ReplayFrame>, i: nat, n: nat, k: nat)
    requires i + n <= |frames| && 1 <= k <= n
    ensures frames[i..i + n][..k] == frames[i..i + k - 1 + 1]
  {
  }

  lemma SeedShows(settings: Settings, written: seq<Written>, i: nat, base: Session, seed: Session)
    requires settings.WellFormed() && Linked(settings, written) && i < |written| && written[i].frame.kind.Full?
    requires Whole(settings, written[i]) && Seeds(settings, seed, written[i], base)
    ensures seed.Valid(settings) && Shows(settings, seed, written[i].registry, written[i].table, written[i].lost)
  {
    hide ApplyPayload, Settings.WellFormed, Session.Valid, Shows, Whole, Entry;
    assert Entry(settings, Before(written, i), written[i]);
    EntryCarries(settings, Before(written, i), written[i], base, false);
  }

  lemma NothingReplayed(settings: Settings, seed: Session, frames: seq<ReplayFrame>)
    requires settings.WellFormed()
    ensures Replay(settings, seed, frames[..0], true) == Applied(true, seed)
  {
    assert frames[..0] == [];
  }

  lemma OneMoreReplayed(settings: Settings, seed: Session, frames: seq<ReplayFrame>, k: nat)
    requires settings.WellFormed() && k < |frames|
    ensures var before := Replay(settings, seed, frames[..k], true);
            before.ok ==> Replay(settings, seed, frames[..k + 1], true)
                          == ApplyPayload(settings, frames[k].kind, frames[k].payload, before.session, true)
  {
    hide ApplyPayload;
    assert frames[..k + 1][..k] == frames[..k];
  }
}
