/**
 The client's packet-loss window: a 64-bit mask over wrapping packet ids that
 slides with the highest id seen and counts what slides out unseen.
 */
module PacketWindows {
  import opened Bits

  const WORD := 64

  datatype PacketStats = PacketStats(received: nat, missing: int, reordered: nat)

  datatype Window = Window(maxId: nat, has: bool, highest: nat, mask: BitString, span: nat, stats: PacketStats)

  function NewWindow(maxId: nat): Window {
    Window(maxId, false, 0, Encode(0, WORD), 0, PacketStats(0, 0, 0))
  }

  // ------------------------------------------------------------ masks

  function CountTrue(bits: BitString): nat {
    if bits == [] then 0 else (if bits[0] then 1 else 0) + CountTrue(bits[1..])
  }

  function LowBits(count: nat): (bits: BitString)
    ensures |bits| == WORD && forall i | 0 <= i < WORD :: bits[i] == (i < count)
  {
    seq(WORD, i requires 0 <= i < WORD => i < count)
  }

  function Not(bits: BitString): (n: BitString)
    ensures |n| == |bits| && forall i | 0 <= i < |bits| :: n[i] == !bits[i]
  {
    seq(|bits|, i requires 0 <= i < |bits| => !bits[i])
  }

  function ShiftLeft(bits: BitString, step: nat): (s: BitString)
    ensures |s| == |bits| && forall i | 0 <= i < |bits| :: s[i] == (i >= step && bits[i - step])
  {
    seq(|bits|, i requires 0 <= i < |bits| => i >= step && bits[i - step])
  }

  lemma {:induction false} AndBits(x: BitString, y: BitString)
    requires |x| == |y|
    ensures |And(x, y)| == |x| && forall i | 0 <= i < |x| :: And(x, y)[i] == (x[i] && y[i])
  {
    if x != [] {
      AndBits(x[1..], y[1..]);
    }
  }

  lemma {:induction false} DecodeFits(bits: BitString)
    ensures Decode(bits) < Pow2(|bits|) && Encode(Decode(bits), |bits|) == bits
    ensures Decode(bits) == 0 <==> CountTrue(bits) == 0
  {
    if bits != [] {
      DecodeFits(bits[1..]);
      assert bits == [bits[0]] + bits[1..];
    }
  }

  /** `value & (value - 1)` clears exactly one set bit. */
  lemma {:induction false} ClearsOne(bits: BitString)
    requires Decode(bits) != 0
    ensures CountTrue(And(bits, Encode(Decode(bits) - 1, |bits|))) == CountTrue(bits) - 1
  {
    var rest := bits[1..];
    var lower := Encode(Decode(bits) - 1, |bits|);
    DecodeFits(rest);
    var anded := And(bits, lower);
    assert anded[1..] == And(rest, lower[1..]);
    if bits[0] {
      assert (Decode(bits) - 1) / 2 == Decode(rest);
      assert lower[1..] == rest;
      AndSelf(rest);
    } else {
      assert (Decode(bits) - 1) / 2 == Decode(rest) - 1 && (Decode(bits) - 1) % 2 == 1;
      assert lower[1..] == Encode(Decode(rest) - 1, |rest|);
      ClearsOne(rest);
    }
  }

  lemma {:induction false} AndSelf(bits: BitString)
    ensures And(bits, bits) == bits
  {
    if bits != [] {
      AndSelf(bits[1..]);
    }
  }

  // ------------------------------------------------------------ packet ids

  /** Steps from one id to another over the cycle 1..maxId. */
  function ForwardDistance(from: nat, to: nat, maxId: nat): int {
    if to >= from then to - from else maxId - from + to
  }

  function WindowSize(maxId: nat): (w: nat)
    ensures 1 <= w <= WORD && (maxId > 1 ==> 2 * w <= maxId)
  {
    if maxId <= 1 then 1 else if maxId / 2 < WORD then maxId / 2 else WORD
  }

  function Min(a: nat, b: nat): nat {
    if a < b then a else b
  }

  /** How many of the set bits leave a window that slides forward by `step`. */
  function SeenLeaving(mask: BitString, step: nat, span: nat, finalized: nat): nat
    requires |mask| == WORD
  {
    if finalized == 0 then 0
    else if step < WORD then CountTrue(And(mask, Not(LowBits(if span > step then span - step else 0))))
    else CountTrue(mask)
  }

  /** The mask `step` further on, the new highest set, cut to the window. */
  function Shifted(mask: BitString, step: nat, size: nat): (m: BitString)
    requires |mask| == WORD && step >= 1
    ensures |m| == WORD
  {
    var shifted := if step >= WORD then Encode(0, WORD) else ShiftLeft(mask, step);
    AndBits(shifted[0 := true], LowBits(size));
    And(shifted[0 := true], LowBits(size))
  }

  /** Sliding the window forward by `step`: what leaves it unseen is missing. */
  function Advance(w: Window, id: nat, step: nat): (w': Window)
    requires |w.mask| == WORD && w.span >= 1 && step >= 1
    ensures |w'.mask| == WORD && w'.span >= 1 && w'.maxId == w.maxId
  {
    var size := WindowSize(w.maxId);
    var span := Min(size, w.span + step);
    var finalized := w.span + step - span;
    w.(highest := id, span := span, mask := Shifted(w.mask, step, size),
       stats := w.stats.(missing := w.stats.missing + finalized - SeenLeaving(w.mask, step, span, finalized)))
  }

  /** `record_entity_update_packet`. */
  function Record(w: Window, id: nat): (w': Window)
    requires |w.mask| == WORD && (w.has ==> w.span >= 1)
    ensures |w'.mask| == WORD && (w'.has ==> w'.span >= 1) && w'.maxId == w.maxId
  {
    if id == 0 || id > w.maxId then w
    else
      var w1 := w.(stats := w.stats.(received := w.stats.received + 1));
      if !w.has then w1.(has := true, highest := id, mask := Encode(0, WORD)[0 := true], span := 1)
      else
        var forward := ForwardDistance(w.highest, id, w.maxId);
        var backward := ForwardDistance(id, w.highest, w.maxId);
        if 0 < forward <= backward then Advance(w1, id, forward)
        else
          w1.(stats := w1.stats.(reordered := w1.stats.reordered + 1),
              mask := if 0 <= backward < w.span && backward < WORD then w.mask[backward := true] else w.mask)
  }

  // ------------------------------------------- the sequence behind the ids

  /** Packet number `n` carries this id. */
  function IdOf(n: nat, maxId: nat): nat
    requires maxId > 0
  {
    n % maxId + 1
  }

  /** Packets by their own numbers: the first and highest to arrive, and all that arrived in time. */
  datatype Arrivals = Arrivals(first: nat, highest: nat, arrived: set<int>)

  function SpanOf(a: Arrivals, size: nat): nat
    requires a.first <= a.highest
  {
    Min(size, a.highest - a.first + 1)
  }

  /** An arrival is in time when it is the new highest or still inside the window. */
  function Arrive(a: Arrivals, n: nat, size: nat): Arrivals
    requires a.first <= a.highest
  {
    if n > a.highest then a.(highest := n, arrived := a.arrived + {n as int})
    else if a.highest - n < SpanOf(a, size) then a.(arrived := a.arrived + {n as int})
    else a
  }

  /** How many of the numbers from `lo` up to but not including `hi` arrived. */
  function Present(arrived: set<int>, lo: int, hi: int): nat
    decreases hi - lo
  {
    if hi <= lo then 0 else Present(arrived, lo, hi - 1) + (if hi - 1 in arrived then 1 else 0)
  }

  /** The mask, span and counter say of the arrivals exactly what they should. */
  ghost predicate Refines(w: Window, a: Arrivals) {
    && w.maxId > 0 && w.has && a.first <= a.highest && |w.mask| == WORD
    && w.highest == IdOf(a.highest, w.maxId)
    && w.span == SpanOf(a, WindowSize(w.maxId))
    && (forall n <- a.arrived :: a.first <= n <= a.highest) && a.highest in a.arrived
    && (forall i | 0 <= i < WORD :: w.mask[i] <==> i < w.span && a.highest - i in a.arrived)
    && w.stats.missing == a.highest + 1 - w.span - a.first - Present(a.arrived, a.first, a.highest + 1 - w.span)
  }

  lemma RemainderStep(h: nat, d: nat, m: nat)
    requires m > 0 && d < m
    ensures (h + d) % m == if h % m + d < m then h % m + d else h % m + d - m
  {
    var q, r := h / m, h % m;
    assert h == m * q + r;
    if r + d < m {
      RemainderUnique(h + d, m, q, r + d);
    } else {
      Distribute(m, q, 1);
      RemainderUnique(h + d, m, q + 1, r + d - m);
    }
  }

  /** Distances between ids are distances between numbers, in both directions. */
  lemma Distances(n: nat, d: nat, maxId: nat)
    requires maxId > 0 && d < maxId
    ensures ForwardDistance(IdOf(n, maxId), IdOf(n + d, maxId), maxId) == d
    ensures d > 0 ==> ForwardDistance(IdOf(n + d, maxId), IdOf(n, maxId), maxId) == maxId - d
    ensures 1 <= IdOf(n, maxId) <= maxId
  {
    RemainderStep(n, d, maxId);
  }

  /** Within half the id space of the highest, so that the direction can be told. */
  predicate InReach(a: Arrivals, n: nat, maxId: nat) {
    if n > a.highest then 2 * (n - a.highest) <= maxId else 2 * (a.highest - n) < maxId
  }

  lemma {:induction false} PresentSplit(arrived: set<int>, lo: int, mid: int, hi: int)
    requires lo <= mid <= hi
    ensures Present(arrived, lo, hi) == Present(arrived, lo, mid) + Present(arrived, mid, hi)
    decreases hi - mid
  {
    if mid < hi {
      PresentSplit(arrived, lo, mid, hi - 1);
    }
  }

  lemma {:induction false} PresentSame(arrived: set<int>, other: set<int>, lo: int, hi: int)
    requires forall n | lo <= n < hi :: n in arrived <==> n in other
    ensures Present(arrived, lo, hi) == Present(other, lo, hi)
    decreases hi - lo
  {
    if lo < hi {
      PresentSame(arrived, other, lo, hi - 1);
    }
  }

  lemma {:induction false} PresentNone(arrived: set<int>, lo: int, hi: int)
    requires forall n | lo <= n < hi :: n !in arrived
    ensures Present(arrived, lo, hi) == 0
    decreases hi - lo
  {
    if lo < hi {
      PresentNone(arrived, lo, hi - 1);
    }
  }

  /** Counting a mask's bits counts the numbers they stand for. */
  lemma {:induction false} CountIsPresent(bits: BitString, top: int, numbers: set<int>)
    requires forall i | 0 <= i < |bits| :: bits[i] <==> top - i in numbers
    ensures CountTrue(bits) == Present(numbers, top + 1 - |bits|, top + 1)
  {
    if bits != [] {
      forall i | 0 <= i < |bits[1..]| ensures bits[1..][i] <==> top - 1 - i in numbers {
        assert bits[i + 1] <==> top - (i + 1) in numbers;
      }
      CountIsPresent(bits[1..], top - 1, numbers);
      assert bits[0] <==> top - 0 in numbers;
    } else {
      assert Present(numbers, top + 1, top + 1) == 0;
    }
  }

  /** The bits that leave the window count the arrivals among the numbers that leave it. */
  lemma SlidOut(w: Window, a: Arrivals, retained: nat)
    requires Refines(w, a) && retained <= w.span
    ensures CountTrue(And(w.mask, Not(LowBits(retained)))) == Present(a.arrived, a.highest + 1 - w.span, a.highest + 1 - retained)
  {
    hide And, CountTrue, Present, Leaving;
    LeavingBits(w, a, retained);
    var lo, hi := a.highest + 1 - w.span, a.highest + 1 - retained;
    CountIsPresent(And(w.mask, Not(LowBits(retained))), a.highest, Leaving(a.arrived, lo, hi));
    PresentLeaving(a.arrived, a.highest + 1 - WORD, lo, hi, a.highest + 1);
  }

  function Leaving(arrived: set<int>, lo: int, hi: int): set<int> {
    set n | n in arrived && lo <= n < hi
  }

  lemma LeavingBits(w: Window, a: Arrivals, retained: nat)
    requires Refines(w, a) && retained <= w.span
    ensures var bits := And(w.mask, Not(LowBits(retained)));
            && |bits| == WORD && w.span <= WORD
            && forall i | 0 <= i < |bits| :: bits[i] <==> a.highest - i in Leaving(a.arrived, a.highest + 1 - w.span, a.highest + 1 - retained)
  {
    var bits := And(w.mask, Not(LowBits(retained)));
    AndBits(w.mask, Not(LowBits(retained)));
    hide And, Present;
    forall i | 0 <= i < |bits|
      ensures bits[i] <==> a.highest - i in Leaving(a.arrived, a.highest + 1 - w.span, a.highest + 1 - retained)
    {
      assert w.mask[i] <==> i < w.span && a.highest - i in a.arrived;
    }
  }

  lemma PresentLeaving(arrived: set<int>, base: int, lo: int, hi: int, top: int)
    requires base <= lo <= hi <= top
    ensures Present(Leaving(arrived, lo, hi), base, top) == Present(arrived, lo, hi)
  {
    hide Present;
    var leaving := Leaving(arrived, lo, hi);
    PresentSplit(leaving, base, lo, top);
    PresentSplit(leaving, lo, hi, top);
    PresentNone(leaving, base, lo);
    PresentNone(leaving, hi, top);
    PresentSame(leaving, arrived, lo, hi);
  }

  /** The set bits that leave count the arrivals among the numbers from the old window's start to the new one's. */
  lemma SeenCounts(w: Window, a: Arrivals, d: nat, span: nat)
    requires Refines(w, a) && 1 <= span <= WORD && span <= w.span + d && d >= 1
    requires d < WORD ==> span - d <= w.span
    ensures SeenLeaving(w.mask, d, span, w.span + d - span) == Present(a.arrived, a.highest + 1 - w.span, a.highest + d + 1 - span)
  {
    hide CountTrue, Present, And;
    var was, now, top := a.highest + 1 - w.span, a.highest + d + 1 - span, a.highest + 1;
    if w.span + d == span {
      PresentNone(a.arrived, was, now);
    } else if d < WORD && span > d {
      SlidOut(w, a, span - d);
    } else {
      SlidOut(w, a, 0);
      AllSeen(w);
      PresentSplit(a.arrived, was, top, now);
      PresentNone(a.arrived, top, now);
    }
  }

  /** What slid out unseen is what never arrived in time. */
  lemma MissingAfter(w: Window, a: Arrivals, id: nat, d: nat)
    requires Refines(w, a) && d >= 1
    ensures var a' := Arrive(a, a.highest + d, WindowSize(w.maxId));
            var w' := Advance(w, id, d);
            w'.stats.missing == a'.highest + 1 - w'.span - a.first - Present(a'.arrived, a.first, a'.highest + 1 - w'.span)
  {
    hide CountTrue, Present, SeenLeaving, Shifted, WindowSize;
    var size := WindowSize(w.maxId);
    var a' := Arrive(a, a.highest + d, size);
    var span := Min(size, w.span + d);
    var was, now := a.highest + 1 - w.span, a.highest + d + 1 - span;
    SeenCounts(w, a, d, span);
    PresentSame(a'.arrived, a.arrived, a.first, now);
    PresentSplit(a.arrived, a.first, was, now);
  }

  lemma AllSeen(w: Window)
    requires |w.mask| == WORD
    ensures And(w.mask, Not(LowBits(0))) == w.mask
  {
    AndBits(w.mask, Not(LowBits(0)));
  }

  lemma ShiftedAt(mask: BitString, d: nat, size: nat, i: nat)
    requires |mask| == WORD && d >= 1 && i < WORD
    ensures Shifted(mask, d, size)[i] <==> i < size && (i == 0 || (i >= d && mask[i - d]))
  {
    NoBits();
    AndBits((if d >= WORD then Encode(0, WORD) else ShiftLeft(mask, d))[0 := true], LowBits(size));
    hide Encode, And;
  }

  lemma MaskAfter(w: Window, a: Arrivals, id: nat, d: nat)
    requires Refines(w, a) && d >= 1
    ensures var a' := Arrive(a, a.highest + d, WindowSize(w.maxId));
            var w' := Advance(w, id, d);
            && |w'.mask| == WORD && w'.span == SpanOf(a', WindowSize(w.maxId))
            && forall i | 0 <= i < WORD :: w'.mask[i] <==> i < w'.span && a'.highest - i in a'.arrived
  {
    hide CountTrue, Present, SeenLeaving, Shifted;
    var size := WindowSize(w.maxId);
    var a' := Arrive(a, a.highest + d, size);
    var w' := Advance(w, id, d);
    forall i | 0 <= i < WORD ensures w'.mask[i] <==> i < w'.span && a'.highest - i in a'.arrived {
      ShiftedAt(w.mask, d, size, i);
      if i >= d {
        assert a'.highest - i == a.highest - (i - d);
      }
    }
  }

  lemma {:induction false} NoneSet(width: nat)
    ensures forall i | 0 <= i < width :: !Encode(0, width)[i]
  {
    if width > 0 {
      NoneSet(width - 1);
    }
  }

  lemma NoBits()
    ensures forall i | 0 <= i < WORD :: !Encode(0, WORD)[i]
  {
    NoneSet(WORD);
  }

  /** Any arrival within reach of the highest keeps the window exact. */
  lemma RecordRefines(w: Window, a: Arrivals, n: nat)
    requires Refines(w, a) && InReach(a, n, w.maxId)
    ensures Refines(Record(w, IdOf(n, w.maxId)), Arrive(a, n, WindowSize(w.maxId)))
  {
    hide Advance, Refines, Arrive, ForwardDistance, WindowSize, Encode;
    var id, w1 := IdOf(n, w.maxId), w.(stats := w.stats.(received := w.stats.received + 1));
    DirectionTold(w, a, n);
    CountedRefines(w, a);
    if n > a.highest {
      AdvanceRefines(w1, a, n);
    } else {
      BehindRefines(w1, a, n);
    }
  }

  lemma CountedRefines(w: Window, a: Arrivals)
    requires Refines(w, a)
    ensures Refines(w.(stats := w.stats.(received := w.stats.received + 1)), a)
    ensures w.has && |w.mask| == WORD && w.span >= 1 && w.span <= WORD
  {
  }

  /** The shorter way round tells a new highest from a late arrival. */
  lemma DirectionTold(w: Window, a: Arrivals, n: nat)
    requires Refines(w, a) && InReach(a, n, w.maxId)
    ensures var id := IdOf(n, w.maxId);
            var forward, backward := ForwardDistance(w.highest, id, w.maxId), ForwardDistance(id, w.highest, w.maxId);
            && 1 <= id <= w.maxId
            && (if n > a.highest then forward == n - a.highest && 0 < forward <= backward
                else backward == a.highest - n && !(0 < forward <= backward))
  {
    if n > a.highest {
      Distances(a.highest, n - a.highest, w.maxId);
      Distances(n, 0, w.maxId);
    } else {
      Distances(n, a.highest - n, w.maxId);
    }
  }

  lemma AdvanceRefines(w: Window, a: Arrivals, n: nat)
    requires Refines(w, a) && n > a.highest
    ensures |w.mask| == WORD && w.span >= 1
    ensures Refines(Advance(w, IdOf(n, w.maxId), n - a.highest), Arrive(a, n, WindowSize(w.maxId)))
  {
    hide Advance, CountTrue, Encode, Present, IdOf, WindowSize;
    var id, d := IdOf(n, w.maxId), n - a.highest;
    MissingAfter(w, a, id, d);
    MaskAfter(w, a, id, d);
    AdvanceFrame(w, id, d);
  }

  lemma AdvanceFrame(w: Window, id: nat, d: nat)
    requires |w.mask| == WORD && w.span >= 1 && d >= 1
    ensures var w' := Advance(w, id, d); w'.maxId == w.maxId && w'.has == w.has && w'.highest == id
  {
  }

  lemma BehindRefines(w: Window, a: Arrivals, n: nat)
    requires Refines(w, a) && n <= a.highest
    ensures var e := a.highest - n;
            var w' := w.(stats := w.stats.(reordered := w.stats.reordered + 1), mask := if e < w.span then w.mask[e := true] else w.mask);
            Refines(w', Arrive(a, n, WindowSize(w.maxId)))
  {
    var a' := Arrive(a, n, WindowSize(w.maxId));
    PresentSame(a'.arrived, a.arrived, a.first, a.highest + 1 - w.span);
  }

  lemma FirstRefines(maxId: nat, n: nat)
    requires maxId > 0
    ensures Refines(Record(NewWindow(maxId), IdOf(n, maxId)), Arrivals(n, n, {n as int}))
  {
    Distances(n, 0, maxId);
    hide Encode, WindowSize, Advance, ForwardDistance, IdOf, Present;
    PresentNone({n as int}, n, n);
    var w := Record(NewWindow(maxId), IdOf(n, maxId));
    forall i | 0 <= i < WORD ensures w.mask[i] <==> i < w.span && n - i in {n as int} {
      FirstBit(i);
    }
  }

  lemma FirstBit(i: nat)
    requires i < WORD
    ensures Encode(0, WORD)[0 := true][i] <==> i == 0
  {
    NoBits();
    hide Encode;
    assert i > 0 ==> Encode(0, WORD)[0 := true][i] == Encode(0, WORD)[i];
  }

  // ------------------------------------------------------------ whole runs

  /** The window after the packets numbered `ns` arrived in that order. */
  function RecordAll(maxId: nat, ns: seq<nat>): (w: Window)
    requires maxId > 0
    ensures |w.mask| == WORD && (w.has ==> w.span >= 1) && w.maxId == maxId
  {
    if ns == [] then NewWindow(maxId)
    else
      var before := RecordAll(maxId, ns[..|ns| - 1]);
      Distances(ns[|ns| - 1], 0, maxId);
      Record(before, IdOf(ns[|ns| - 1], maxId))
  }

  function ArriveAll(ns: seq<nat>, size: nat): (a: Arrivals)
    requires ns != [] && size > 0
    ensures a.first <= a.highest
  {
    if |ns| == 1 then Arrivals(ns[0], ns[0], {ns[0] as int})
    else Arrive(ArriveAll(ns[..|ns| - 1], size), ns[|ns| - 1], size)
  }

  ghost predicate AllInReach(maxId: nat, ns: seq<nat>)
    requires maxId > 0
  {
    forall k | 1 <= k < |ns| :: InReach(ArriveAll(ns[..k], WindowSize(maxId)), ns[k], maxId)
  }

  /**
   The main result: however packets are lost, repeated or reordered and
   however often the ids wrap, as long as each arrival is within half the id
   space of the highest, bit i of the mask says whether packet highest - i
   arrived in time, and the counter is the number of packets between the first
   one and the window that never did.
   */
  lemma {:induction false} WindowIsExact(maxId: nat, ns: seq<nat>)
    requires maxId > 0 && ns != [] && AllInReach(maxId, ns)
    ensures Refines(RecordAll(maxId, ns), ArriveAll(ns, WindowSize(maxId)))
    ensures RecordAll(maxId, ns).stats.received == |ns|
  {
    var init, last := ns[..|ns| - 1], ns[|ns| - 1];
    Distances(last, 0, maxId);
    if |ns| == 1 {
      assert init == [];
      FirstRefines(maxId, last);
    } else {
      hide Refines, InReach, Record, Arrive;
      forall k | 1 <= k < |init| ensures InReach(ArriveAll(init[..k], WindowSize(maxId)), init[k], maxId) {
        assert init[..k] == ns[..k];
        assert InReach(ArriveAll(ns[..k], WindowSize(maxId)), ns[k], maxId);
      }
      WindowIsExact(maxId, init);
      assert InReach(ArriveAll(ns[..|ns| - 1], WindowSize(maxId)), ns[|ns| - 1], maxId);
      RecordRefines(RecordAll(maxId, init), ArriveAll(init, WindowSize(maxId)), last);
      OneMore(RecordAll(maxId, init), IdOf(last, maxId));
    }
  }

  lemma OneMore(w: Window, id: nat)
    requires |w.mask| == WORD && (w.has ==> w.span >= 1) && 1 <= id <= w.maxId
    ensures Record(w, id).stats.received == w.stats.received + 1
  {
    hide CountTrue, Encode;
  }

  /** A packet counts as arrived exactly when one of its arrivals was the first, a new highest, or inside the window then. */
  lemma {:induction false} ArrivedInTime(ns: seq<nat>, size: nat, n: nat)
    requires ns != [] && size > 0
    ensures n in ArriveAll(ns, size).arrived <==>
            n == ns[0] || exists k | 1 <= k < |ns| ::
              ns[k] == n && (n > ArriveAll(ns[..k], size).highest
                             || ArriveAll(ns[..k], size).highest - n < SpanOf(ArriveAll(ns[..k], size), size))
  {
    if |ns| > 1 {
      var init, last := ns[..|ns| - 1], |ns| - 1;
      ArrivedInTime(init, size, n);
      hide SpanOf;
      forall k | 1 <= k < |init| ensures init[..k] == ns[..k] {
      }
      assert ns[..last] == init;
      assert forall k | 1 <= k < |ns| :: k == last || ns[k] == init[k];
    }
  }

  /** The statistics object of a client, updated packet by packet. */
  class TimingStats {
    const maxId: nat
    var has: bool
    var highest: nat
    var mask: BitString
    var span: nat
    var stats: PacketStats
    var loss: real

    function Model(): Window
      reads this
    {
      Window(maxId, has, highest, mask, span, stats)
    }

    ghost predicate Valid()
      reads this
    {
      |mask| == WORD && (has ==> span >= 1)
    }

    constructor (maxId: nat)
      ensures Valid() && Model() == NewWindow(maxId)
    {
      this.maxId := maxId;
      has, highest, mask, span, stats, loss := false, 0, Encode(0, WORD), 0, PacketStats(0, 0, 0), 0.0;
    }

    /** `count_bits`: one set bit is cleared per turn. */
    static method CountBits(bits: BitString) returns (count: nat)
      ensures count == CountTrue(bits)
    {
      var value := bits;
      count := 0;
      DecodeFits(value);
      while Decode(value) != 0
        invariant |value| == |bits| && count + CountTrue(value) == CountTrue(bits)
        decreases CountTrue(value)
      {
        DecodeFits(value);
        ClearsOne(value);
        AndBits(value, Encode(Decode(value) - 1, |value|));
        value := And(value, Encode(Decode(value) - 1, |value|));
        count := count + 1;
      }
      DecodeFits(value);
    }

    method CountLeaving(forward: nat, newSpan: nat, finalized: nat) returns (seen: nat)
      requires Valid()
      ensures seen == SeenLeaving(mask, forward, newSpan, finalized)
    {
      hide And, CountTrue, LowBits, Not;
      seen := 0;
      if finalized != 0 {
        if forward < WORD {
          var retained := if newSpan > forward then newSpan - forward else 0;
          AndBits(mask, Not(LowBits(retained)));
          seen := CountBits(And(mask, Not(LowBits(retained))));
        } else {
          seen := CountBits(mask);
        }
      }
    }

    method ShiftMask(forward: nat, size: nat)
      requires Valid() && forward >= 1
      modifies `mask
      ensures |mask| == WORD && mask == Shifted(old(mask), forward, size)
    {
      hide And, Encode;
      mask := if forward >= WORD then Encode(0, WORD) else ShiftLeft(mask, forward);
      mask := mask[0 := true];
      AndBits(mask, LowBits(size));
      mask := And(mask, LowBits(size));
    }

    /** The branch for a packet ahead of the highest. */
    method AdvanceTo(id: nat, forward: nat)
      requires Valid() && has && forward >= 1
      modifies this
      ensures Valid() && Model() == Advance(old(Model()), id, forward)
    {
      hide Shifted, SeenLeaving, WindowSize;
      var size := WindowSize(maxId);
      var newSpan := if size < span + forward then size else span + forward;
      var finalized := span + forward - newSpan;
      var seen := CountLeaving(forward, newSpan, finalized);
      stats := stats.(missing := stats.missing + finalized - seen);
      ShiftMask(forward, size);
      span := newSpan;
      highest := id;
    }

    /** `record_entity_update_packet`. */
    method RecordEntityUpdatePacket(id: nat)
      requires Valid()
      modifies this
      ensures Valid() && Model() == Record(old(Model()), id)
      ensures 0 < id <= maxId ==>
                loss == if stats.received + stats.missing == 0 then 0.0
                        else stats.missing as real / (stats.received + stats.missing) as real
    {
      hide CountTrue, Advance;
      if id == 0 || id > maxId {
        return;
      }
      stats := stats.(received := stats.received + 1);
      if !has {
        highest, mask, span, has := id, Encode(0, WORD)[0 := true], 1, true;
      } else {
        var forward := ForwardDistance(highest, id, maxId);
        var backward := ForwardDistance(id, highest, maxId);
        if 0 < forward <= backward {
          AdvanceTo(id, forward);
        } else {
          stats := stats.(reordered := stats.reordered + 1);
          if 0 <= backward < span && backward < WORD {
            mask := mask[backward := true];
          }
        }
      }
      var total := stats.received + stats.missing;
      loss := if total == 0 then 0.0 else stats.missing as real / total as real;
    }
  }
}
