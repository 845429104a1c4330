/**
 Showing buffered frames: the frames between two updates are filled in, and
 each is applied to the local entity, only the changed components when the
 frame before it was the last one applied.
 */
module BufferedApplies {
  import opened Wrappers
  import opened Bits
  import opened World
  import opened FrameLayouts

  /** The local entity as the registry has it: the archetype's tags, and components by their position in it. */
  datatype Local = Local(tags: BitString, components: map<nat, Bytes>)

  datatype Sample = Sample(frame: nat, present: bool, mask: BitString, data: Frame)

  datatype Entity = Entity(local: Option<Local>, appliedMask: BitString, lastApplied: nat)

  const NoEntity := Entity(None, Clear(), 0)

  /** What the registry holds after the whole of a frame is shown. */
  function Whole(sizes: seq<nat>, tags: nat, f: Frame): Local
    requires Shaped(sizes, f) && tags <= MASK
  {
    Local(f.tags[..tags], map i: nat | i < |sizes| && Get(sizes, f, i).Some? :: Get(sizes, f, i).value)
  }

  // --------------------------------------------------------------- applying

  /** `remove_missing_registry_components`, for the first `count` components. */
  function RemoveMissing(components: map<nat, Bytes>, previous: BitString, next: BitString, count: nat): map<nat, Bytes>
    requires |previous| == |next| == MASK && count <= MASK
  {
    if count == 0 then components
    else
      var rest := RemoveMissing(components, previous, next, count - 1);
      if previous[count - 1] && !next[count - 1] then rest - {count - 1} else rest
  }

  /** Pushing the first `count` components that are present and in the mask. */
  function Push(sizes: seq<nat>, components: map<nat, Bytes>, f: Frame, mask: BitString, count: nat): map<nat, Bytes>
    requires Shaped(sizes, f) && |mask| == MASK && count <= |sizes|
  {
    if count == 0 then components
    else
      var rest := Push(sizes, components, f, mask, count - 1);
      if mask[count - 1] && Get(sizes, f, count - 1).Some? then rest[count - 1 := Get(sizes, f, count - 1).value] else rest
  }

  /** `apply_registry_frame`; an entity that does not exist yet starts empty. */
  function ApplyFrame(sizes: seq<nat>, tags: nat, local: Option<Local>, f: Frame, mask: BitString, previous: BitString): Local
    requires Shaped(sizes, f) && tags <= MASK && |mask| == |previous| == MASK
  {
    var components := if local.Some? then local.value.components else map[];
    Local(f.tags[..tags], Push(sizes, RemoveMissing(components, previous, f.present, |sizes|), f, mask, |sizes|))
  }

  /** `apply_buffered_sample` for a sample written by the frame buffer. */
  function Apply(sizes: seq<nat>, tags: nat, e: Entity, s: Sample): Entity
    requires tags <= MASK && |e.appliedMask| == MASK && (s.present ==> Shaped(sizes, s.data) && |s.mask| == MASK)
  {
    if !s.present then Entity(None, Clear(), s.frame)
    else
      var mask := if e.lastApplied + 1 == s.frame then s.mask else s.data.present;
      Entity(Some(ApplyFrame(sizes, tags, e.local, s.data, mask, e.appliedMask)), s.data.present, s.frame)
  }

  lemma {:induction false} RemovedAt(components: map<nat, Bytes>, previous: BitString, next: BitString, count: nat, i: nat)
    requires |previous| == |next| == MASK && count <= MASK
    ensures var r := RemoveMissing(components, previous, next, count);
            && (i in r <==> i in components && !(i < count && previous[i] && !next[i]))
            && (i in r ==> r[i] == components[i])
  {
    if count > 0 {
      RemovedAt(components, previous, next, count - 1, i);
    }
  }

  lemma {:induction false} PushedAt(sizes: seq<nat>, components: map<nat, Bytes>, f: Frame, mask: BitString, count: nat, i: nat)
    requires Shaped(sizes, f) && |mask| == MASK && count <= |sizes|
    ensures var r := Push(sizes, components, f, mask, count);
            if i < count && mask[i] && Get(sizes, f, i).Some?
            then i in r && r[i] == Get(sizes, f, i).value
            else (i in r <==> i in components) && (i in r ==> r[i] == components[i])
  {
    if count > 0 {
      PushedAt(sizes, components, f, mask, count - 1, i);
    }
  }

  /** Everything stale is known to have been applied, and everything outside the mask is already shown. */
  ghost predicate UpToDate(sizes: seq<nat>, components: map<nat, Bytes>, f: Frame, mask: BitString, previous: BitString)
    requires Shaped(sizes, f) && |mask| == |previous| == MASK
  {
    && (forall i <- components | i < |sizes| && !f.present[i] :: previous[i])
    && (forall i | 0 <= i < |sizes| && f.present[i] && !mask[i] :: i in components && Some(components[i]) == Get(sizes, f, i))
  }

  /**
   Applying with a mask shows the whole frame exactly when every stale
   component was recorded as applied and every component left out of the mask
   is already there with its bytes.
   */
  lemma MaskedApplyIsWhole(sizes: seq<nat>, tags: nat, local: Option<Local>, f: Frame, mask: BitString, previous: BitString)
    requires Shaped(sizes, f) && tags <= MASK && |mask| == |previous| == MASK
    requires local.Some? ==> forall i <- local.value.components :: i < |sizes|
    ensures ApplyFrame(sizes, tags, local, f, mask, previous) == Whole(sizes, tags, f)
            <==> UpToDate(sizes, if local.Some? then local.value.components else map[], f, mask, previous)
  {
    hide Push, RemoveMissing, Get;
    var components := if local.Some? then local.value.components else map[];
    var applied := ApplyFrame(sizes, tags, local, f, mask, previous).components;
    var whole := Whole(sizes, tags, f).components;
    forall i: nat
      ensures i < |sizes| ==> (Get(sizes, f, i).Some? <==> f.present[i])
      ensures i in applied ==> i < |sizes|
      ensures i < |sizes| && !f.present[i] ==> (i in applied <==> i in components && !previous[i])
      ensures i < |sizes| && f.present[i] && mask[i] ==> i in applied && Some(applied[i]) == Get(sizes, f, i)
      ensures i < |sizes| && f.present[i] && !mask[i] ==> (i in applied <==> i in components) && (i in applied ==> applied[i] == components[i])
    {
      if i < |sizes| {
        PresentGets(sizes, f, i);
      }
      var removed := RemoveMissing(components, previous, f.present, |sizes|);
      RemovedAt(components, previous, f.present, |sizes|, i);
      PushedAt(sizes, removed, f, mask, |sizes|, i);
    }
    SameShown(sizes, f, components, applied, whole, mask, previous);
  }

  lemma SameShown(sizes: seq<nat>, f: Frame, components: map<nat, Bytes>, applied: map<nat, Bytes>, whole: map<nat, Bytes>, mask: BitString, previous: BitString)
    requires Shaped(sizes, f) && |mask| == |previous| == MASK
    requires forall i <- components :: i < |sizes|
    requires forall i: nat :: i in whole <==> i < |sizes| && f.present[i]
    requires forall i <- whole :: Some(whole[i]) == Get(sizes, f, i)
    requires forall i <- applied :: i < |sizes|
    requires forall i: nat | i < |sizes| && !f.present[i] :: i in applied <==> i in components && !previous[i]
    requires forall i: nat | i < |sizes| && f.present[i] && mask[i] :: i in applied && Some(applied[i]) == Get(sizes, f, i)
    requires forall i: nat | i < |sizes| && f.present[i] && !mask[i] :: (i in applied <==> i in components) && (i in applied ==> applied[i] == components[i])
    ensures applied == whole <==> UpToDate(sizes, components, f, mask, previous)
  {
    hide Get;
    if UpToDate(sizes, components, f, mask, previous) {
      assert forall i: nat :: i in applied <==> i in whole;
      forall i <- applied ensures applied[i] == whole[i] {
      }
      assert applied == whole;
    }
    if applied == whole {
      forall i <- components | i < |sizes| && !f.present[i] ensures previous[i] {
        assert i !in whole;
      }
      forall i | 0 <= i < |sizes| && f.present[i] && !mask[i] ensures i in components && Some(components[i]) == Get(sizes, f, i) {
        assert i in whole;
      }
    }
  }
}
