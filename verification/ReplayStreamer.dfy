/**
 The replay streamer: a ring of the most recent frames, and playback sessions
 that start at a Full frame and follow the ring.
 */
module ReplayStreaming {
  import opened ReplayWire

  const NO_FRAME := ReplayFrame(0, Full, [])

  /** The last `limit` elements. */
  function Latest(frames: seq<ReplayFrame>, limit: nat): seq<ReplayFrame> {
    if |frames| <= limit then frames else frames[|frames| - limit..]
  }

  ghost predicate Increasing(frames: seq<ReplayFrame>) {
    forall i, j | 0 <= i < j < |frames| :: frames[i].frame < frames[j].frame
  }

  predicate Startable(f: ReplayFrame, target: nat) {
    f.kind.Full? && f.frame <= target
  }

  /** `frames` are the stored frames from `start` on, up to the first one past `end`. */
  ghost predicate UpTo(c: seq<ReplayFrame>, start: nat, end: nat, frames: seq<ReplayFrame>) {
    && start + |frames| <= |c|
    && frames == c[start..start + |frames|]
    && (forall k | 0 <= k < |frames| :: frames[k].frame <= end)
    && (start + |frames| < |c| ==> c[start + |frames|].frame > end)
  }

  /** `start` is the latest Full frame at or before `target`. */
  ghost predicate StartsAt(c: seq<ReplayFrame>, start: nat, target: nat) {
    && start < |c| && Startable(c[start], target)
    && forall i | start < i < |c| :: !Startable(c[i], target)
  }

  /** What `append_available_frames` adds after frame `last`. */
  function Available(frames: seq<ReplayFrame>, last: nat, end: nat): seq<ReplayFrame> {
    if frames == [] then []
    else
      var before := Available(frames[..|frames| - 1], last, end);
      var f := frames[|frames| - 1];
      var newest := if before == [] then last else before[|before| - 1].frame;
      if f.frame <= newest || f.frame > end then before else before + [f]
  }

  /** A ring index.  Positions never run more than once around the ring. */
  function Wrap(k: nat, n: nat): (r: nat)
    requires 0 < n
    ensures k < 2 * n ==> r == if k < n then k else k - n
    ensures r < n
  {
    WrapOnce(k, n);
    k % n
  }

  lemma WrapOnce(k: nat, n: nat)
    requires 0 < n
    ensures k < n ==> k % n == k
    ensures n <= k < 2 * n ==> k % n == k - n
  {
    if n <= k < 2 * n {
      var q, r := k / n, k % n;
      assert k == n * q + r;
    }
  }

  /** The stored frames, oldest first. */
  function Ring(frames: seq<ReplayFrame>, head: nat, count: nat): (c: seq<ReplayFrame>)
    requires count <= |frames|
    ensures |c| == count && forall i | 0 <= i < count :: c[i] == frames[Wrap(head + i, |frames|)]
  {
    seq(count, i requires 0 <= i < count => frames[Wrap(head + i, |frames|)])
  }

  lemma RingGrows(frames: seq<ReplayFrame>, count: nat, frame: ReplayFrame)
    requires count < |frames|
    ensures Wrap(count, |frames|) == count
    ensures Ring(frames[count := frame], 0, count + 1) == Ring(frames, 0, count) + [frame]
  {
    var l, r := Ring(frames[count := frame], 0, count + 1), Ring(frames, 0, count) + [frame];
    forall i | 0 <= i < count + 1 ensures l[i] == r[i] {
      WrapOnce(i, |frames|);
    }
  }

  lemma RingIsAll(frames: seq<ReplayFrame>)
    ensures Ring(frames, 0, |frames|) == frames
  {
    forall i | 0 <= i < |frames| ensures Ring(frames, 0, |frames|)[i] == frames[i] {
      WrapOnce(i, |frames|);
    }
  }

  lemma RingTurns(frames: seq<ReplayFrame>, head: nat, frame: ReplayFrame)
    requires head < |frames|
    ensures var n := |frames|;
            && Wrap(head + n, n) == head
            && Ring(frames[head := frame], Wrap(head + 1, n), n) == (Ring(frames, head, n) + [frame])[1..]
  {
    var n := |frames|;
    WrapOnce(head + n, n);
    WrapOnce(head + 1, n);
    var l, r := Ring(frames[head := frame], Wrap(head + 1, n), n), Ring(frames, head, n) + [frame];
    forall i | 0 <= i < n ensures l[i] == r[i + 1] {
      WrapOnce(Wrap(head + 1, n) + i, n);
      WrapOnce(head + (i + 1), n);
    }
  }

  datatype StreamerOptions = StreamerOptions(maxFrames: nat, preroll: nat, tail: nat)

  class ReplayStreamer {
    const options: StreamerOptions
    var frames: seq<ReplayFrame>
    var head: nat
    var count: nat

    ghost predicate Valid()
      reads this
    {
      && count <= |frames|
      && (if options.maxFrames == 0 then head == 0 && count == |frames|
          else |frames| == options.maxFrames && head < |frames| && (count < |frames| ==> head == 0))
    }

    ghost function Contents(): (c: seq<ReplayFrame>)
      requires Valid()
      reads this
      ensures |c| == count
    {
      Ring(frames, head, count)
    }

    constructor (options: StreamerOptions)
      ensures Valid() && Contents() == [] && this.options == options
    {
      this.options := options;
      frames := seq(options.maxFrames, _ => NO_FRAME);
      head, count := 0, 0;
    }

    method Clear()
      requires Valid()
      modifies this
      ensures Valid() && Contents() == []
    {
      if options.maxFrames == 0 {
        frames := [];
      }
      head, count := 0, 0;
    }

    /** The ring holds the last `maxFrames` pushes, or every push when it is unbounded. */
    method PushFrame(frame: ReplayFrame)
      requires Valid()
      modifies this
      ensures Valid()
      ensures Contents() == if options.maxFrames == 0 then old(Contents()) + [frame]
                            else Latest(old(Contents()) + [frame], options.maxFrames)
    {
      hide Ring, Wrap;
      if options.maxFrames == 0 {
        RingIsAll(frames);
        RingIsAll(frames + [frame]);
        frames := frames + [frame];
        count := |frames|;
        return;
      }
      var n := |frames|;
      var index := Wrap(head + count, n);
      if count < n {
        RingGrows(frames, count, frame);
        frames := frames[index := frame];
        count := count + 1;
      } else {
        RingTurns(frames, head, frame);
        assert |Contents() + [frame]| - options.maxFrames == 1;
        frames := frames[index := frame];
        head := Wrap(head + 1, n);
      }
    }

    method FrameAt(index: nat) returns (f: ReplayFrame)
      requires Valid() && index < count
      ensures f == Contents()[index]
    {
      f := frames[Wrap(head + index, |frames|)];
    }

    /** The copy loop of `begin_session`. */
    method CopyUpTo(start: nat, end: nat) returns (copied: seq<ReplayFrame>)
      requires Valid() && start < count
      ensures UpTo(Contents(), start, end, copied)
    {
      hide Ring;
      ghost var c := Contents();
      copied := [];
      for index := start to count
        invariant copied == c[start..index] && forall k | 0 <= k < |copied| :: copied[k].frame <= end
      {
        var f := FrameAt(index);
        if f.frame > end {
          break;
        }
        copied := copied + [f];
      }
    }

    /** The loop of `append_available_frames`. */
    method CollectAvailable(last: nat, end: nat) returns (added: seq<ReplayFrame>)
      requires Valid()
      ensures added == Available(Contents(), last, end)
    {
      hide Ring, Available;
      ghost var c := Contents();
      var newest := last;
      added := [];
      NoneAvailable(c[..0], last, end);
      for index := 0 to count
        invariant added == Available(c[..index], last, end)
        invariant newest == if added == [] then last else added[|added| - 1].frame
      {
        var f := FrameAt(index);
        SliceGrows(c, 0, index + 1);
        AvailableStep(c[..index], f, last, end);
        if f.frame <= newest || f.frame > end {
          continue;
        }
        added, newest := added + [f], f.frame;
      }
      assert c[..|c|] == c;
    }

    function Target(focus: nat): nat {
      if focus > options.preroll then focus - options.preroll else 1
    }

    /** The latest Full frame at or before the preroll target, or `count` when there is none. */
    method FindStartFrame(focus: nat) returns (start: nat)
      requires Valid()
      ensures start <= count
      ensures start < count ==> StartsAt(Contents(), start, Target(focus))
      ensures start == count ==> forall i | 0 <= i < count :: !Startable(Contents()[i], Target(focus))
    {
      var target := Target(focus);
      start := count;
      for index := 0 to count
        invariant start <= count
        invariant start < count ==> start < index && Startable(Contents()[start], target)
        invariant forall i | 0 <= i < index && Startable(Contents()[i], target) :: i <= start < count
      {
        var f := FrameAt(index);
        if Startable(f, target) {
          start := index;
        }
      }
    }
  }

  lemma UpToIncreasing(c: seq<ReplayFrame>, start: nat, end: nat, frames: seq<ReplayFrame>)
    requires Increasing(c) && UpTo(c, start, end, frames)
    ensures Increasing(frames) && forall k | 0 <= k < |frames| :: frames[k].frame <= end
  {
  }

  /** On a ring of increasing frames, the frames added are exactly the stored ones after `last` up to `end`, in order. */
  lemma {:induction false} AvailableFrames(c: seq<ReplayFrame>, last: nat, end: nat)
    requires Increasing(c)
    ensures Increasing(Available(c, last, end))
    ensures forall f :: f in Available(c, last, end) <==> f in c && last < f.frame <= end
  {
    if c != [] {
      hide Available;
      var init, f := c[..|c| - 1], c[|c| - 1];
      assert c == init + [f];
      InitIncreasing(c);
      AvailableFrames(init, last, end);
      AvailableStep(init, f, last, end);
      NextAvailable(init, f, Available(init, last, end), last, end);
    }
  }

  lemma InitIncreasing(c: seq<ReplayFrame>)
    requires Increasing(c) && c != []
    ensures Increasing(c[..|c| - 1])
  {
  }

  lemma NextAvailable(c: seq<ReplayFrame>, f: ReplayFrame, before: seq<ReplayFrame>, last: nat, end: nat)
    requires Increasing(c + [f]) && Increasing(before) && forall g :: g in before <==> g in c && last < g.frame <= end
    ensures var newest := if before == [] then last else before[|before| - 1].frame;
            var after := if f.frame <= newest || f.frame > end then before else before + [f];
            Increasing(after) && forall g :: g in after <==> g in c + [f] && last < g.frame <= end
  {
    AppendIncreasing(before, c, f);
    if before != [] {
      assert before[|before| - 1] in before;
    }
    forall g ensures g in c + [f] <==> g in c || g == f {
    }
  }

  lemma AppendIncreasing(before: seq<ReplayFrame>, c: seq<ReplayFrame>, f: ReplayFrame)
    requires Increasing(before) && (forall g <- before :: g in c) && Increasing(c + [f])
    ensures Increasing(before + [f]) && forall g <- before :: g.frame < f.frame
  {
    forall g <- before ensures g.frame < f.frame {
      var k :| 0 <= k < |c| && c[k] == g;
      assert (c + [f])[k] == g && (c + [f])[|c|] == f;
    }
  }

  /** `a` is the piece of the pushes from `next` on that `end` allows, as far as `hi`. */
  ghost predicate Gapless(pushes: seq<ReplayFrame>, next: nat, hi: nat, a: seq<ReplayFrame>, end: nat)
    requires hi <= |pushes|
  {
    && next + |a| <= hi && a == pushes[next..next + |a|]
    && (next + |a| < hi ==> pushes[next + |a|].frame > end)
  }

  lemma {:induction false} GaplessAvailable(pushes: seq<ReplayFrame>, lo: nat, next: nat, hi: nat, end: nat)
    requires Increasing(pushes) && lo <= next <= hi <= |pushes| && 0 < next
    ensures Gapless(pushes, next, hi, Available(pushes[lo..hi], pushes[next - 1].frame, end), end)
    decreases hi
  {
    hide Available, Increasing, Gapless;
    var last := pushes[next - 1].frame;
    if next == hi {
      NoGap(pushes, next, end);
      OlderFrames(pushes, lo, next);
      NothingNewer(pushes[lo..hi], last, end);
    } else {
      GaplessAvailable(pushes, lo, next, hi - 1, end);
      AvailableStep(pushes[lo..hi - 1], pushes[hi - 1], last, end);
      SliceGrows(pushes, lo, hi);
      OneMoreAppended(pushes, next, hi, Available(pushes[lo..hi - 1], last, end), end);
    }
  }

  /** While the ring still holds the successor of the last listed frame, the list stays a gapless piece of all pushes. */
  lemma AppendsWithoutGap(pushes: seq<ReplayFrame>, lo: nat, next: nat, hi: nat, end: nat)
    requires Increasing(pushes) && lo <= next <= hi <= |pushes| && 0 < next
    ensures var a := Available(pushes[lo..hi], pushes[next - 1].frame, end);
            next + |a| <= hi && a == pushes[next..next + |a|]
            && (next + |a| < hi ==> pushes[next + |a|].frame > end)
  {
    hide Available, Increasing;
    GaplessAvailable(pushes, lo, next, hi, end);
  }

  lemma NoGap(pushes: seq<ReplayFrame>, next: nat, end: nat)
    requires next <= |pushes|
    ensures Gapless(pushes, next, next, [], end)
  {
  }

  lemma SliceGrows(c: seq<ReplayFrame>, lo: nat, hi: nat)
    requires lo < hi <= |c|
    ensures c[lo..hi] == c[lo..hi - 1] + [c[hi - 1]]
  {
  }

  lemma NoneAvailable(c: seq<ReplayFrame>, last: nat, end: nat)
    requires c == []
    ensures Available(c, last, end) == []
  {
  }

  lemma OlderFrames(pushes: seq<ReplayFrame>, lo: nat, next: nat)
    requires Increasing(pushes) && lo <= next <= |pushes| && 0 < next
    ensures forall k | 0 <= k < next - lo :: pushes[lo..next][k].frame <= pushes[next - 1].frame
  {
  }

  lemma OneMoreAppended(pushes: seq<ReplayFrame>, next: nat, hi: nat, before: seq<ReplayFrame>, end: nat)
    requires Increasing(pushes) && 0 < next < hi <= |pushes| && Gapless(pushes, next, hi - 1, before, end)
    ensures var f, newest := pushes[hi - 1], if before == [] then pushes[next - 1].frame else before[|before| - 1].frame;
            Gapless(pushes, next, hi, if f.frame <= newest || f.frame > end then before else before + [f], end)
  {
    var m := next + |before|;
    assert before != [] ==> before[|before| - 1] == pushes[m - 1];
    if m == hi - 1 {
      assert before + [pushes[hi - 1]] == pushes[next..hi];
    }
  }

  lemma AvailableStep(c: seq<ReplayFrame>, f: ReplayFrame, last: nat, end: nat)
    ensures var before := Available(c, last, end);
            var newest := if before == [] then last else before[|before| - 1].frame;
            Available(c + [f], last, end) == if f.frame <= newest || f.frame > end then before else before + [f]
  {
    assert (c + [f])[..|c|] == c;
  }

  lemma {:induction false} NothingNewer(c: seq<ReplayFrame>, last: nat, end: nat)
    requires forall k | 0 <= k < |c| :: c[k].frame <= last
    ensures Available(c, last, end) == []
  {
    if c != [] {
      NothingNewer(c[..|c| - 1], last, end);
    }
  }
}
