/** A buffered entity's state as the client updates it in place. */
module BufferedEntities {
  import opened Wrappers
  import opened Bits
  import opened World
  import opened FrameLayouts
  import opened BufferedApplies
  import opened BufferedRuns

  class BufferedEntity {
    var local: Option<Local>
    var appliedMask: BitString
    var lastApplied: nat
    var ring: seq<Option<Sample>>
    var baseline: Frame
    var frame: nat
    ghost var written: map<nat, Sample>

    ghost function Model(): Buffer
      reads this
    {
      Buffer(Entity(local, appliedMask, lastApplied), ring, baseline, frame, written)
    }

    constructor ()
      ensures Model() == NoBuffer
    {
      local, appliedMask, lastApplied, ring, baseline, frame, written := None, Clear(), 0, [], Cleared, 0, map[];
    }

    static method RemoveMissingRegistryComponents(components: map<nat, Bytes>, previous: BitString, next: BitString, count: nat)
      returns (left: map<nat, Bytes>)
      requires |previous| == |next| == MASK && count <= MASK
      ensures left == RemoveMissing(components, previous, next, count)
    {
      left := components;
      var i := 0;
      while i < count
        invariant i <= count && left == RemoveMissing(components, previous, next, i)
      {
        if previous[i] && !next[i] {
          left := left - {i};
        }
        i := i + 1;
      }
    }

    /** The loop over the present components, and the pushes into the registry. */
    static method PushPresentComponents(sizes: seq<nat>, components: map<nat, Bytes>, f: Frame, mask: BitString)
      returns (pushed: map<nat, Bytes>)
      requires Shaped(sizes, f) && |mask| == MASK
      ensures pushed == Push(sizes, components, f, mask, |sizes|)
    {
      pushed := components;
      var i := 0;
      while i < |sizes|
        invariant i <= |sizes| && pushed == Push(sizes, components, f, mask, i)
      {
        var bytes := Get(sizes, f, i);
        if mask[i] && bytes.Some? {
          pushed := pushed[i := bytes.value];
        }
        i := i + 1;
      }
    }

    method ApplyRegistryFrame(cfg: Config, f: Frame, mask: BitString)
      requires Shaped(cfg.sizes, f) && cfg.tags <= MASK && |mask| == |appliedMask| == MASK
      modifies `local
      ensures local == Some(ApplyFrame(cfg.sizes, cfg.tags, old(local), f, mask, appliedMask))
    {
      if local.None? {
        local := Some(Local([], map[]));
      }
      var components := RemoveMissingRegistryComponents(local.value.components, appliedMask, f.present, |cfg.sizes|);
      components := PushPresentComponents(cfg.sizes, components, f, mask);
      local := Some(Local(f.tags[..cfg.tags], components));
    }

    /** `apply_buffered_sample` for a sample of the frame buffer. */
    method ApplyBufferedSample(cfg: Config, s: Sample)
      requires cfg.tags <= MASK && |appliedMask| == MASK && (s.present ==> Shaped(cfg.sizes, s.data) && |s.mask| == MASK)
      modifies `local, `appliedMask, `lastApplied
      ensures Model() == old(Model()).(entity := Apply(cfg.sizes, cfg.tags, old(Model()).entity, s))
    {
      if !s.present {
        local, appliedMask, lastApplied := None, Clear(), s.frame;
        return;
      }
      var mask := s.data.present;
      if lastApplied + 1 == s.frame {
        mask := s.mask;
      }
      ApplyRegistryFrame(cfg, s.data, mask);
      appliedMask, lastApplied := s.data.present, s.frame;
    }

    /** The component loop of `write_buffered_frame` for a frame between two updates. */
    method Interpolate(cfg: Config, to: Option<Frame>, alpha: real) returns (f: Frame)
      requires cfg.WellFormed() && |baseline.tags| == MASK
      ensures f == Between(cfg, baseline, to, alpha, |cfg.sizes|)
    {
      f := Init(cfg.sizes).(tags := baseline.tags);
      var i := 0;
      while i < |cfg.sizes|
        invariant i <= |cfg.sizes| && f == Between(cfg, baseline, to, alpha, i)
      {
        var previous := Get(cfg.sizes, baseline, i);
        if previous.Some? {
          var value := previous.value;
          if to.Some? {
            var next := Get(cfg.sizes, to.value, i);
            if next.Some? && cfg.smooth[i] {
              value := cfg.blend(i, previous.value, next.value, alpha);
            }
          }
          f := Put(cfg.sizes, f, i, value);
        }
        i := i + 1;
      }
    }

    method WriteBufferedFrame(cfg: Config, current: nat, present: bool, target: nat, decoded: Option<Frame>)
      requires cfg.WellFormed() && current > 0 && (ring == [] || |ring| == cfg.capacity) && |baseline.tags| == MASK
      requires frame == 0 || frame < target
      requires decoded.Some? ==> Shaped(cfg.sizes, decoded.value)
      modifies `ring, `written
      ensures Model() == Write(cfg, old(Model()), current, present, Content(cfg, baseline, frame, current, target, decoded))
    {
      hide Changed, Between, Get, Init, Shaped, View;
      if ring == [] {
        ring := seq(cfg.capacity, _ => None);
      }
      ghost var grown := ring;
      var slot := current % cfg.capacity;
      var sample := Sample(current, false, Clear(), Init(cfg.sizes));
      ring := ring[slot := Some(sample)];
      if present {
        var data := BufferedContent(cfg, current, target, decoded);
        ContentShaped(cfg, baseline, frame, current, target, decoded);
        var before := View(ring, current - 1);
        var mask := data.present;
        if before.Some? && before.value.present {
          mask := ChangedPresentComponentMask(cfg.sizes, before.value.data, data);
        }
        sample := Sample(current, true, mask, data);
        ring := ring[slot := Some(sample)];
        assert ring == grown[slot := Some(sample)];
      }
      written := written[current := sample];
    }

    /** The frame's content: the update's own, nothing before the first update, a blend on the way to a later one. */
    method BufferedContent(cfg: Config, current: nat, target: nat, decoded: Option<Frame>) returns (data: Frame)
      requires cfg.WellFormed() && |baseline.tags| == MASK && (frame == 0 || frame < target)
      requires decoded.Some? ==> Shaped(cfg.sizes, decoded.value)
      ensures data == Content(cfg, baseline, frame, current, target, decoded)
    {
      hide Between, Get, Init, Shaped;
      if current == target && decoded.Some? {
        data := decoded.value;
      } else if frame == 0 {
        data := Init(cfg.sizes);
      } else {
        data := Interpolate(cfg, decoded, (current - frame) as real / (target - frame) as real);
      }
    }

    method FillBufferedFrames(cfg: Config, target: nat, decoded: Option<Frame>) returns (ok: bool)
      requires cfg.WellFormed() && 0 < target && (ring == [] || |ring| == cfg.capacity) && |baseline.tags| == MASK
      requires decoded.Some? ==> Shaped(cfg.sizes, decoded.value)
      modifies `ring, `written
      ensures (Model(), ok) == Fill(cfg, old(Model()), target, decoded)
    {
      hide Write, Content, Shaped;
      if frame != 0 && target <= frame {
        return false;
      }
      var fromPresent := local.Some? || (frame != 0 && exists p <- baseline.present :: p);
      var current := if frame != 0 then frame + 1 else target;
      ghost var filled := FillFrom(cfg, Model(), fromPresent, current, target, decoded);
      while current <= target
        invariant 0 < current && (ring == [] || |ring| == cfg.capacity)
        invariant FillFrom(cfg, Model(), fromPresent, current, target, decoded) == filled
        decreases target + 1 - current
      {
        WriteKeepsRing(cfg, Model(), current, if current == target then decoded.Some? else fromPresent,
                       Content(cfg, baseline, frame, current, target, decoded));
        WriteBufferedFrame(cfg, current, if current == target then decoded.Some? else fromPresent, target, decoded);
        current := current + 1;
      }
      return true;
    }
  }

  lemma WriteKeepsRing(cfg: Config, b: Buffer, frame: nat, present: bool, data: Frame)
    requires cfg.WellFormed() && frame > 0 && (b.ring == [] || |b.ring| == cfg.capacity)
    ensures |Write(cfg, b, frame, present, data).ring| == cfg.capacity
  {
  }
}
