/**
 The chain from a run to its playback: what the ring holds is always a piece of
 the run's recording, and a session that follows the recording goes on
 following it as the run goes on.
 */
module ReplayChain {
  import opened SlotTable
  import opened World
  import opened ReplayWire
  import opened ReplayWriting
  import opened ReplayStreaming
  import opened ReplayCorrectness
  import opened ReplayPlayback

  /** What a ring for `limit` frames holds after these pushes; zero is no limit. */
  function Streamed(pushes: seq<ReplayFrame>, limit: nat): seq<ReplayFrame> {
    if limit == 0 then pushes else Latest(pushes, limit)
  }

  /** As `ReplayStreamer.PushFrame` leaves its contents. */
  lemma PushStreams(pushes: seq<ReplayFrame>, f: ReplayFrame, limit: nat)
    ensures Streamed(pushes + [f], limit)
            == if limit == 0 then Streamed(pushes, limit) + [f] else Latest(Streamed(pushes, limit) + [f], limit)
  {
    if 0 < limit < |pushes| {
      assert (pushes[|pushes| - limit..] + [f])[1..] == (pushes + [f])[|pushes| + 1 - limit..];
    }
  }

  /** The server numbers its frames upwards. */
  ghost predicate Ascending(steps: seq<Step>) {
    forall i, j | 0 <= i < j < |steps| && steps[i].Passed? && steps[j].Passed? :: steps[i].input.frame < steps[j].input.frame
  }

  ghost predicate Numbered(steps: seq<Step>, n: nat) {
    exists i :: 0 <= i < |steps| && steps[i].Passed? && steps[i].input.frame == n
  }

  /** What one step adds to the recording: at most one frame, with the number of the pass. */
  lemma StepRecords(settings: Settings, options: Options, run: Run, step: Step)
    requires settings.WellFormed() && run.table.Valid()
    ensures var next := After(settings, options, run, step); next.Some? ==>
              || next.value.written == run.written
              || (step.Passed? && exists w: Written :: next.value.written == run.written + [w] && w.frame.frame == step.input.frame)
  {
    hide Settings.WellFormed, Table.Valid, PassTable, Accumulate, FrameItems, EncodePayload, Deactivate, StillLost;
    if step.Passed? {
      var t := PassTable(settings, run, step.input);
      if t.Some? {
        var f := ServerFrame(step.input.frame, step.input.registry, t.value, step.input.dirty);
        var (ws, out) := Observe(settings, options, run.writer, f);
        if out.Some? {
          var w := Recorded(settings, run.writer, f, out.value, run.lost);
          assert After(settings, options, run, step).value.written == run.written + [w] && w.frame.frame == step.input.frame;
        }
      }
    }
  }

  lemma OneMoreNumbered(init: seq<Step>, last: Step, written: seq<Written>, w: Written)
    requires Ascending(init + [last]) && last.Passed? && w.frame.frame == last.input.frame
    requires Increasing(Frames(written)) && forall v <- written :: Numbered(init, v.frame.frame)
    ensures Increasing(Frames(written + [w])) && forall v <- written + [w] :: Numbered(init + [last], v.frame.frame)
  {
    var steps, all := init + [last], written + [w];
    assert steps[|init|] == last;
    forall v <- all ensures Numbered(steps, v.frame.frame) && (v in written ==> v.frame.frame < w.frame.frame) {
      if v in written {
        var i :| 0 <= i < |init| && init[i].Passed? && init[i].input.frame == v.frame.frame;
        assert steps[i] == init[i];
      }
    }
    forall i, j | 0 <= i < j < |all| ensures Frames(all)[i].frame < Frames(all)[j].frame {
      assert all[i] == written[i] && written[i] in all;
      if j < |written| {
        assert Frames(written)[i].frame < Frames(written)[j].frame;
      }
    }
  }

  lemma StillNumbered(init: seq<Step>, last: Step, written: seq<Written>)
    requires forall v <- written :: Numbered(init, v.frame.frame)
    ensures forall v <- written :: Numbered(init + [last], v.frame.frame)
  {
    forall v <- written ensures Numbered(init + [last], v.frame.frame) {
      var i :| 0 <= i < |init| && init[i].Passed? && init[i].input.frame == v.frame.frame;
      assert (init + [last])[i] == init[i];
    }
  }

  /** The recorded frames carry numbers of passes, in increasing order. */
  lemma {:induction false} RecordingIncreases(settings: Settings, options: Options, start: Run, steps: seq<Step>)
    requires settings.WellFormed() && start.table.Valid() && start.written == [] && Ascending(steps)
    ensures var end := RunOf(settings, options, start, steps);
            end.Some? ==> Increasing(Frames(end.value.written)) && forall w <- end.value.written :: Numbered(steps, w.frame.frame)
  {
    hide Settings.WellFormed, Table.Valid, After, Numbered, Increasing, Frames;
    if steps == [] {
      NoFrames();
    } else {
      var init, last := steps[..|steps| - 1], steps[|steps| - 1];
      assert steps == init + [last];
      AscendingInit(steps);
      RecordingIncreases(settings, options, start, init);
      var before := RunOf(settings, options, start, init);
      if before.Some? {
        StepRecords(settings, options, before.value, last);
        var next := After(settings, options, before.value, last);
        if next.Some? && next.value.written != before.value.written {
          var w: Written :| next.value.written == before.value.written + [w] && w.frame.frame == last.input.frame;
          OneMoreNumbered(init, last, before.value.written, w);
        } else {
          StillNumbered(init, last, before.value.written);
        }
      }
    }
  }

  lemma NoFrames()
    ensures Increasing(Frames([]))
  {
  }

  lemma AscendingInit(steps: seq<Step>)
    requires Ascending(steps) && steps != []
    ensures Ascending(steps[..|steps| - 1])
  {
  }

  /**
   Whatever the run, the ring that was pushed each recorded frame holds a piece
   of a sound recording of increasing frames, ending at its last one.  That is
   what `Playback.BeginSession` and `Playback.TickSession` ask of the ring.
   */
  lemma RingHoldsRecording(settings: Settings, options: Options, start: Run, steps: seq<Step>, limit: nat)
    requires settings.WellFormed() && settings.Tracks() && Start(settings, start) && start.table.Valid()
    requires AllAdmissible(settings, options, start, steps) && Ascending(steps)
    requires RunOf(settings, options, start, steps).Some?
    ensures var written := RunOf(settings, options, start, steps).value.written;
            var c := Streamed(Frames(written), limit);
            Increasing(c) && |c| <= |written| && Recording(settings, written, c, |written| - |c|)
  {
    hide Settings.WellFormed, Settings.Tracks, Table.Valid, ServerSound, WriterSound, AllAdmissible, RunOf, Linked, Ascending, Numbered;
    RunsAreSound(settings, options, start, steps);
    RecordingIncreases(settings, options, start, steps);
  }

  /** The recording of a longer run begins with that of the shorter one. */
  lemma {:induction false} RecordingGrows(settings: Settings, options: Options, start: Run, steps: seq<Step>, more: seq<Step>)
    requires settings.WellFormed() && start.table.Valid() && RunOf(settings, options, start, steps + more).Some?
    ensures RunOf(settings, options, start, steps).Some?
    ensures RunOf(settings, options, start, steps).value.written <= RunOf(settings, options, start, steps + more).value.written
  {
    hide Settings.WellFormed, Table.Valid, After;
    if more == [] {
      assert steps + more == steps;
    } else {
      var init, last := more[..|more| - 1], more[|more| - 1];
      assert (steps + more)[..|steps + more| - 1] == steps + init;
      RecordingGrows(settings, options, start, steps, init);
      StepRecords(settings, options, RunOf(settings, options, start, steps + init).value, last);
    }
  }

  /** So a session that follows the recording of a run still follows it, whatever more the run records. */
  lemma RunIsFollowed(p: Playback, options: Options, start: Run, steps: seq<Step>, more: seq<Step>, i: nat)
    requires p.settings.WellFormed() && p.settings.Tracks() && Start(p.settings, start) && start.table.Valid()
    requires AllAdmissible(p.settings, options, start, steps + more) && Ascending(steps + more)
    requires RunOf(p.settings, options, start, steps).Some? && RunOf(p.settings, options, start, steps + more).Some?
    requires p.Follows(RunOf(p.settings, options, start, steps).value.written, i)
    ensures p.Follows(RunOf(p.settings, options, start, steps + more).value.written, i)
  {
    hide Settings.WellFormed, Settings.Tracks, Table.Valid, ServerSound, WriterSound, AllAdmissible, RunOf, Linked, Ascending, Seeds, Increasing, Numbered;
    var settings := p.settings;
    RecordingGrows(settings, options, start, steps, more);
    RunsAreSound(settings, options, start, steps + more);
    RecordingIncreases(settings, options, start, steps + more);
    PieceGrows(p.frames, RunOf(settings, options, start, steps).value.written, RunOf(settings, options, start, steps + more).value.written, i);
  }

  lemma PieceGrows(frames: seq<ReplayFrame>, written: seq<Written>, written': seq<Written>, i: nat)
    requires written <= written' && i + |frames| <= |written|
    ensures Frames(written')[i..i + |frames|] == Frames(written)[i..i + |frames|]
  {
  }
}
