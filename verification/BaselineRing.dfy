/**
 A client entity's remembered baselines: a ring indexed by frame, and one
 entry set aside for the frame the server was last seen to refer to.
 */
module BaselineRings {
  import opened Wrappers
  import opened FrameLayouts

  const HISTORY := 64

  datatype Remembered = Remembered(frame: nat, valid: bool, data: Frame)

  const Blank := Remembered(0, false, Frame([], [], []))

  datatype Baselines = Baselines(history: seq<Remembered>, pinned: Remembered, referenced: Option<nat>)

  const NoBaselines := Baselines([], Blank, None)

  function Sized(b: Baselines): Baselines {
    if |b.history| != HISTORY then b.(history := seq(HISTORY, _ => Blank)) else b
  }

  /** Where in the ring a frame goes. */
  function Place(frame: nat): (at: nat)
    ensures at < HISTORY
  {
    frame % HISTORY
  }

  /** `protect_referenced_baseline`. */
  function Protect(b: Baselines, frame: nat): Baselines {
    b.(referenced := Some(frame))
  }

  /** `remember_baseline`: an entry about to be overwritten is set aside first when it is the referenced one. */
  function Remember(b: Baselines, frame: nat, data: Frame): Baselines {
    var s := Sized(b);
    var at := Place(frame);
    var was := s.history[at];
    s.(history := s.history[at := Remembered(frame, true, data)],
       pinned := if s.referenced.Some? && was.valid && was.frame == s.referenced.value then was else s.pinned)
  }

  predicate InHistory(b: Baselines, frame: nat) {
    |b.history| == HISTORY && b.history[Place(frame)].valid && b.history[Place(frame)].frame == frame
  }

  /** `find_baseline`: the ring's entry, else the one set aside. */
  function Find(b: Baselines, frame: nat): Option<Frame> {
    if InHistory(b, frame) then Some(b.history[Place(frame)].data)
    else if b.pinned.valid && b.pinned.frame == frame then Some(b.pinned.data)
    else None
  }

  /** No later frame was remembered in the place of `frame`. */
  ghost predicate Uncovered(log: map<nat, Frame>, frame: nat) {
    forall g <- log | g > frame :: Place(g) != Place(frame)
  }

  /**
   `log` is everything remembered, `newest` the last of it: the ring holds the
   latest frame of each place, and the entry set aside is one of the log.
   */
  ghost predicate Sound(b: Baselines, newest: nat, log: map<nat, Frame>) {
    && (b.history == [] || |b.history| == HISTORY)
    && (forall i | 0 <= i < |b.history| && b.history[i].valid ::
          var e := b.history[i]; Place(e.frame) == i && e.frame in log && e.data == log[e.frame])
    && (b.pinned.valid ==> b.pinned.frame in log && b.pinned.data == log[b.pinned.frame])
    && (forall f <- log :: f <= newest && (InHistory(b, f) <==> Uncovered(log, f)))
  }

  lemma SamePlace(f: nat, g: nat)
    requires f < g && Place(f) == Place(g)
    ensures f + HISTORY <= g
  {
  }

  lemma PlaceAfter(b: Baselines, newest: nat, log: map<nat, Frame>, frame: nat, data: Frame, f: nat)
    requires Sound(b, newest, log) && frame > newest && f in log[frame := data]
    ensures InHistory(Remember(b, frame, data), f) <==> Uncovered(log[frame := data], f)
  {
    hide Place;
    var log' := log[frame := data];
    if f == frame {
      assert forall g <- log' :: g <= frame;
    } else if Place(f) == Place(frame) {
      assert frame in log' && frame > f;
    } else {
      assert InHistory(Remember(b, frame, data), f) == InHistory(b, f);
      UncoveredStill(log, frame, data, f);
    }
  }

  /** A frame that goes to another place covers nothing here. */
  lemma UncoveredStill(log: map<nat, Frame>, frame: nat, data: Frame, f: nat)
    requires Place(f) != Place(frame)
    ensures Uncovered(log[frame := data], f) <==> Uncovered(log, f)
  {
    hide Place;
    assert forall g :: g in log[frame := data] <==> g in log || g == frame;
  }

  /** Remembering a later frame keeps the ring and the log in step. */
  lemma RememberSound(b: Baselines, newest: nat, log: map<nat, Frame>, frame: nat, data: Frame)
    requires Sound(b, newest, log) && frame > newest
    ensures Sound(Remember(b, frame, data), frame, log[frame := data])
  {
    hide Uncovered, InHistory;
    forall f <- log[frame := data]
      ensures f <= frame && (InHistory(Remember(b, frame, data), f) <==> Uncovered(log[frame := data], f))
    {
      PlaceAfter(b, newest, log, frame, data, f);
    }
  }

  /** While `frame` is the referenced one and can be found, remembering a later frame keeps its bytes. */
  lemma RememberKeepsReferenced(b: Baselines, newest: nat, log: map<nat, Frame>, frame: nat, data: Frame, kept: nat)
    requires Sound(b, newest, log) && frame > newest && b.referenced == Some(kept) && Find(b, kept).Some?
    ensures Find(Remember(b, frame, data), kept) == Find(b, kept) && Remember(b, frame, data).referenced == b.referenced
  {
    hide Uncovered, Place;
    FoundExactly(b, newest, log, kept);
    assert kept != frame;
    if InHistory(b, kept) && Place(kept) == Place(frame) {
      assert b.history[Place(frame)].frame == kept;
    } else if !InHistory(b, kept) {
      assert !InHistory(Remember(b, frame, data), kept);
    }
  }

  datatype Entry = Entry(frame: nat, data: Frame)

  ghost predicate Increasing(newest: nat, entries: seq<Entry>) {
    (forall i | 0 <= i < |entries| :: entries[i].frame > newest)
    && (forall i, j | 0 <= i < j < |entries| :: entries[i].frame < entries[j].frame)
  }

  function RememberAll(b: Baselines, entries: seq<Entry>): Baselines {
    if entries == [] then b
    else Remember(RememberAll(b, entries[..|entries| - 1]), entries[|entries| - 1].frame, entries[|entries| - 1].data)
  }

  function Logged(log: map<nat, Frame>, entries: seq<Entry>): map<nat, Frame> {
    if entries == [] then log
    else Logged(log, entries[..|entries| - 1])[entries[|entries| - 1].frame := entries[|entries| - 1].data]
  }

  function Newest(newest: nat, entries: seq<Entry>): nat {
    if entries == [] then newest else entries[|entries| - 1].frame
  }

  /**
   The main result: however many later frames are remembered, the referenced
   baseline stays findable with its bytes, and a remembered frame is found
   exactly while no later one took its place or it was set aside; so every
   frame less than one ring behind the newest is.
   */
  lemma {:induction false} BaselinesSurvive(b: Baselines, newest: nat, log: map<nat, Frame>, entries: seq<Entry>)
    requires Sound(b, newest, log) && Increasing(newest, entries)
    ensures Sound(RememberAll(b, entries), Newest(newest, entries), Logged(log, entries))
    ensures b.referenced.Some? && Find(b, b.referenced.value).Some? ==>
              Find(RememberAll(b, entries), b.referenced.value) == Find(b, b.referenced.value)
    ensures RememberAll(b, entries).referenced == b.referenced
    ensures forall f <- Logged(log, entries) | Newest(newest, entries) < f + HISTORY ::
              Find(RememberAll(b, entries), f) == Some(Logged(log, entries)[f])
    ensures forall f: nat :: Find(RememberAll(b, entries), f).Some? <==>
              || (f in Logged(log, entries) && Uncovered(Logged(log, entries), f))
              || (RememberAll(b, entries).pinned.valid && RememberAll(b, entries).pinned.frame == f)
  {
    if entries != [] {
      hide Sound;
      var init, last := entries[..|entries| - 1], entries[|entries| - 1];
      BaselinesSurvive(b, newest, log, init);
      assert Newest(newest, init) < last.frame;
      RememberSound(RememberAll(b, init), Newest(newest, init), Logged(log, init), last.frame, last.data);
      if b.referenced.Some? && Find(b, b.referenced.value).Some? {
        RememberKeepsReferenced(RememberAll(b, init), Newest(newest, init), Logged(log, init), last.frame, last.data, b.referenced.value);
      }
    }
    WindowFound(RememberAll(b, entries), Newest(newest, entries), Logged(log, entries));
    forall f: nat
      ensures Find(RememberAll(b, entries), f).Some? <==>
                || (f in Logged(log, entries) && Uncovered(Logged(log, entries), f))
                || (RememberAll(b, entries).pinned.valid && RememberAll(b, entries).pinned.frame == f)
    {
      FoundExactly(RememberAll(b, entries), Newest(newest, entries), Logged(log, entries), f);
    }
  }

  /** A remembered frame is found exactly while no later one took its place, or it is the one set aside. */
  lemma FoundExactly(b: Baselines, newest: nat, log: map<nat, Frame>, f: nat)
    requires Sound(b, newest, log)
    ensures Find(b, f).Some? <==> (f in log && Uncovered(log, f)) || (b.pinned.valid && b.pinned.frame == f)
    ensures Find(b, f).Some? ==> f in log && Find(b, f) == Some(log[f])
  {
    hide Uncovered;
  }

  lemma RecentUncovered(newest: nat, log: map<nat, Frame>, f: nat)
    requires f in log && newest < f + HISTORY && forall g <- log :: g <= newest
    ensures Uncovered(log, f)
  {
    forall g <- log | g > f ensures Place(g) != Place(f) {
      if Place(g) == Place(f) {
        SamePlace(f, g);
      }
    }
  }

  lemma WindowFound(b: Baselines, newest: nat, log: map<nat, Frame>)
    requires Sound(b, newest, log)
    ensures forall f <- log | newest < f + HISTORY :: Find(b, f) == Some(log[f])
  {
    forall f <- log | newest < f + HISTORY ensures Find(b, f) == Some(log[f]) {
      RecentUncovered(newest, log, f);
      FoundExactly(b, newest, log, f);
    }
  }

  class BaselineHistory {
    var history: seq<Remembered>
    var pinned: Remembered
    var referencedFrame: nat
    var hasReferenced: bool

    function Model(): Baselines
      reads this
    {
      Baselines(history, pinned, if hasReferenced then Some(referencedFrame) else None)
    }

    constructor ()
      ensures Model() == NoBaselines
    {
      history, pinned, referencedFrame, hasReferenced := [], Blank, 0, false;
    }

    method ProtectReferencedBaseline(frame: nat)
      modifies this
      ensures Model() == Protect(old(Model()), frame)
    {
      referencedFrame, hasReferenced := frame, true;
    }

    method RememberBaseline(frame: nat, data: Frame)
      modifies this
      ensures Model() == Remember(old(Model()), frame, data)
    {
      if |history| != HISTORY {
        history := seq(HISTORY, _ => Blank);
      }
      var at := Place(frame);
      if hasReferenced && history[at].valid && history[at].frame == referencedFrame {
        var aside := pinned;
        pinned := history[at];
        history := history[at := aside];
      }
      history := history[at := Remembered(frame, true, data)];
    }

    method FindBaseline(frame: nat) returns (data: Option<Frame>)
      ensures data == Find(Model(), frame)
    {
      if |history| == HISTORY {
        var entry := history[Place(frame)];
        if entry.valid && entry.frame == frame {
          return Some(entry.data);
        }
      }
      if pinned.valid && pinned.frame == frame {
        return Some(pinned.data);
      }
      return None;
    }
  }
}
