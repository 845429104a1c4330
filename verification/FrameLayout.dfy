/**
 The byte layout of a quantised frame: components side by side at prefix-sum
 offsets, a presence mask, and the mask of components that changed.
 */
module FrameLayouts {
  import opened Wrappers
  import opened Bits
  import opened World

  const MASK := 64
  const MAX_COMPONENTS := 63

  datatype Frame = Frame(tags: BitString, present: BitString, bytes: Bytes)

  function Clear(): (m: BitString)
    ensures |m| == MASK && forall i | 0 <= i < MASK :: !m[i]
  {
    seq(MASK, _ => false)
  }

  /** The bytes the first components take. */
  function Total(sizes: seq<nat>): nat {
    if sizes == [] then 0 else Total(sizes[..|sizes| - 1]) + sizes[|sizes| - 1]
  }

  function Offset(sizes: seq<nat>, i: nat): nat
    requires i <= |sizes|
  {
    Total(sizes[..i])
  }

  predicate Shaped(sizes: seq<nat>, f: Frame) {
    |sizes| <= MAX_COMPONENTS && |f.tags| == |f.present| == MASK && |f.bytes| == Total(sizes)
  }

  /** `init_frame_data`. */
  function Init(sizes: seq<nat>): Frame {
    Frame(Clear(), Clear(), seq(Total(sizes), _ => 0 as bv8))
  }

  /** The offset and total loop of `define_archetype`. */
  method LayOut(sizes: seq<nat>) returns (offsets: seq<nat>, total: nat)
    ensures |offsets| == |sizes| && total == Total(sizes)
    ensures forall i | 0 <= i < |sizes| :: offsets[i] == Offset(sizes, i)
  {
    offsets, total := [], 0;
    var i := 0;
    while i < |sizes|
      invariant i <= |sizes| && |offsets| == i && total == Total(sizes[..i])
      invariant forall j | 0 <= j < i :: offsets[j] == Offset(sizes, j)
    {
      offsets := offsets + [total];
      assert sizes[..i + 1][..i] == sizes[..i];
      total := total + sizes[i];
      i := i + 1;
    }
    assert sizes[..i] == sizes;
  }

  lemma NextOffset(sizes: seq<nat>, i: nat)
    requires i < |sizes|
    ensures Offset(sizes, i + 1) == Offset(sizes, i) + sizes[i]
  {
    assert sizes[..i + 1][..i] == sizes[..i];
  }

  /** Components lie one after the other: the ranges of different components do not meet. */
  lemma {:induction false} RangesApart(sizes: seq<nat>, i: nat, j: nat)
    requires i < j <= |sizes|
    ensures Offset(sizes, i) + sizes[i] <= Offset(sizes, j) <= Total(sizes)
    decreases |sizes| - i, j - i
  {
    NextOffset(sizes, i);
    WithinTotal(sizes, j);
    if i + 1 < j {
      NextOffset(sizes, j - 1);
      RangesApart(sizes, i, j - 1);
    }
  }

  lemma {:induction false} WithinTotal(sizes: seq<nat>, j: nat)
    requires j <= |sizes|
    ensures Offset(sizes, j) <= Total(sizes)
    decreases |sizes| - j
  {
    if j == |sizes| {
      assert sizes[..j] == sizes;
    } else {
      NextOffset(sizes, j);
      WithinTotal(sizes, j + 1);
    }
  }

  /** `frame_component_data`: nothing for an absent component or a frame too short for it. */
  function Get(sizes: seq<nat>, f: Frame, i: nat): Option<Bytes> {
    if i < |f.present| && f.present[i] && i < |sizes| && Offset(sizes, i) + sizes[i] <= |f.bytes|
    then Some(f.bytes[Offset(sizes, i)..Offset(sizes, i) + sizes[i]]) else None
  }

  /** `mutable_frame_component_data` and the copy into it. */
  function Put(sizes: seq<nat>, f: Frame, i: nat, value: Bytes): Frame
    requires Shaped(sizes, f) && i < |sizes| && |value| == sizes[i]
  {
    RangesApart(sizes, i, |sizes|);
    f.(present := f.present[i := true],
       bytes := f.bytes[..Offset(sizes, i)] + value + f.bytes[Offset(sizes, i) + sizes[i]..])
  }

  lemma Splice(bytes: Bytes, o: nat, value: Bytes, p: nat, q: nat)
    requires o + |value| <= |bytes| && p <= q <= |bytes| && (q <= o || p >= o + |value|)
    ensures var spliced := bytes[..o] + value + bytes[o + |value|..];
            |spliced| == |bytes| && spliced[p..q] == bytes[p..q] && spliced[o..o + |value|] == value
  {
    var spliced := bytes[..o] + value + bytes[o + |value|..];
    forall k | p <= k < q ensures spliced[k] == bytes[k] {
    }
  }

  /** Writing one component is read back, and touches no other. */
  lemma PutGet(sizes: seq<nat>, f: Frame, i: nat, value: Bytes, j: nat)
    requires Shaped(sizes, f) && i < |sizes| && |value| == sizes[i]
    ensures Shaped(sizes, Put(sizes, f, i, value))
    ensures Get(sizes, Put(sizes, f, i, value), j) == if j == i then Some(value) else Get(sizes, f, j)
  {
    RangesApart(sizes, i, |sizes|);
    var o := Offset(sizes, i);
    Splice(f.bytes, o, value, 0, 0);
    if j < |sizes| && j != i {
      hide Offset, Total;
      RangesApart(sizes, j, |sizes|);
      if j < i {
        RangesApart(sizes, j, i);
      } else {
        RangesApart(sizes, i, j);
      }
      Splice(f.bytes, o, value, Offset(sizes, j), Offset(sizes, j) + sizes[j]);
    }
  }

  lemma InitGet(sizes: seq<nat>, j: nat)
    requires |sizes| <= MAX_COMPONENTS
    ensures Shaped(sizes, Init(sizes)) && Get(sizes, Init(sizes), j) == None
  {
  }

  lemma PresentGets(sizes: seq<nat>, f: Frame, i: nat)
    requires Shaped(sizes, f) && i < |sizes|
    ensures Get(sizes, f, i).Some? <==> f.present[i]
    ensures f.present[i] ==> |Get(sizes, f, i).value| == sizes[i]
  {
    RangesApart(sizes, i, |sizes|);
  }

  /** The components that are present in `next` and not the same in `current`. */
  function Changed(sizes: seq<nat>, current: Frame, next: Frame): (m: BitString)
    ensures |m| == MASK
    ensures forall i | 0 <= i < MASK ::
              m[i] <==> i < |sizes| && i < |next.present| && next.present[i] && Get(sizes, current, i) != Get(sizes, next, i)
  {
    seq(MASK, i requires 0 <= i < MASK =>
      i < |sizes| && i < |next.present| && next.present[i] && Get(sizes, current, i) != Get(sizes, next, i))
  }

  /** `changed_present_component_mask`. */
  method ChangedPresentComponentMask(sizes: seq<nat>, current: Frame, next: Frame) returns (mask: BitString)
    requires Shaped(sizes, next)
    ensures mask == Changed(sizes, current, next)
  {
    mask := Clear();
    var i := 0;
    while i < |sizes|
      invariant i <= |sizes| && |mask| == MASK
      invariant forall j | 0 <= j < MASK ::
                  mask[j] <==> j < i && next.present[j] && Get(sizes, current, j) != Get(sizes, next, j)
    {
      if next.present[i] {
        PresentGets(sizes, next, i);
        var was, now := Get(sizes, current, i), Get(sizes, next, i);
        if was.None? || now.None? || was.value != now.value {
          mask := mask[i := true];
        }
      }
      i := i + 1;
    }
  }
}
