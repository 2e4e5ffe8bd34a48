/** Free slots of a calendar: backend/internal/calendar/service.go, FindFreeSlots.
    Times are integers (nanoseconds); an interval stands for the points start <= p < end. */
module FreeSlots {

  datatype Interval = Interval(start: int, end: int)

  const MINUTE: int := 60_000_000_000

  ghost predicate SortedByStart(busy: seq<Interval>) {
    forall i, j :: 0 <= i < j < |busy| ==> busy[i].start <= busy[j].start
  }

  /** The sort that FindFreeSlots asks of the library, in place. */
  method SortByStart(busy: array<Interval>)
    modifies busy
    ensures SortedByStart(busy[..])
    ensures multiset(busy[..]) == multiset(old(busy[..]))
  {
    for i := 0 to busy.Length
      invariant SortedByStart(busy[..i])
      invariant multiset(busy[..]) == multiset(old(busy[..]))
    {
      Insert(busy, i);
    }
    assert busy[..busy.Length] == busy[..];
  }

  // Move the element at i down to its place among the sorted ones before it.
  method Insert(busy: array<Interval>, i: nat)
    requires i < busy.Length && SortedByStart(busy[..i])
    modifies busy
    ensures SortedByStart(busy[..i + 1])
    ensures multiset(busy[..]) == multiset(old(busy[..]))
  {
    var j := i;
    while j > 0 && busy[j].start < busy[j - 1].start
      invariant 0 <= j <= i
      invariant forall p, q :: 0 <= p < q <= i && q != j ==> busy[p].start <= busy[q].start
      invariant multiset(busy[..]) == multiset(old(busy[..]))
    {
      SwapDown(busy, j);
      j := j - 1;
    }
  }

  method SwapDown(busy: array<Interval>, j: nat)
    requires 0 < j < busy.Length
    modifies busy
    ensures busy[j] == old(busy[j - 1]) && busy[j - 1] == old(busy[j])
    ensures forall k :: 0 <= k < busy.Length && k != j && k != j - 1 ==> busy[k] == old(busy[k])
    ensures multiset(busy[..]) == multiset(old(busy[..]))
  {
    busy[j], busy[j - 1] := busy[j - 1], busy[j];
  }

  // ----- the sweep

  /** The least length of a slot; half an hour unless a positive number of minutes is asked for. */
  function MinLength(minDurationMin: int): (d: int)
    ensures d > 0
    ensures minDurationMin > 0 ==> d == minDurationMin * 60_000_000_000
    ensures minDurationMin <= 0 ==> d == 30 * 60_000_000_000
  {
    if minDurationMin * MINUTE <= 0 then 30 * MINUTE else minDurationMin * MINUTE
  }

  datatype Sweep = Sweep(free: seq<Interval>, cursor: int)

  function SweepOne(s: Sweep, b: Interval, minD: int): Sweep {
    if b.end < s.cursor then s
    else Sweep(
      if b.start > s.cursor && b.start - s.cursor >= minD then s.free + [Interval(s.cursor, b.start)] else s.free,
      if b.end > s.cursor then b.end else s.cursor)
  }

  function Swept(busy: seq<Interval>, from: int, minD: int): Sweep {
    if busy == [] then Sweep([], from)
    else SweepOne(Swept(busy[..|busy| - 1], from, minD), busy[|busy| - 1], minD)
  }

  function Slots(busy: seq<Interval>, from: int, to: int, minD: int): seq<Interval> {
    var s := Swept(busy, from, minD);
    s.free + if s.cursor < to && to - s.cursor >= minD then [Interval(s.cursor, to)] else []
  }

  method FindFreeSlots(busy: array<Interval>, from: int, to: int, minDurationMin: int) returns (free: seq<Interval>)
    modifies busy
    ensures SortedByStart(busy[..]) && multiset(busy[..]) == multiset(old(busy[..]))
    ensures free == Slots(busy[..], from, to, MinLength(minDurationMin))
    ensures var minD, was := MinLength(minDurationMin), old(busy[..]);
      Proper(was) ==> (NoLateSlot(was, from, to, minD) <==> ExactlyGaps(free, was, from, to, minD))
  {
    hide NoLateSlot, ExactlyGaps, Proper;
    SortByStart(busy);
    free := [];
    var cursor := from;
    var minD := minDurationMin * MINUTE;
    if minD <= 0 {
      minD := 30 * MINUTE;
    }
    for i := 0 to busy.Length
      invariant Sweep(free, cursor) == Swept(busy[..i], from, minD)
      invariant SortedByStart(busy[..]) && multiset(busy[..]) == multiset(old(busy[..]))
    {
      assert busy[..i + 1][..i] == busy[..i];
      var b := busy[i];
      if b.end < cursor {
        continue;
      }
      if b.start > cursor {
        var gap := b.start - cursor;
        if gap >= minD {
          free := free + [Interval(cursor, b.start)];
        }
      }
      if b.end > cursor {
        cursor := b.end;
      }
    }
    assert busy[..busy.Length] == busy[..];
    if cursor < to && to - cursor >= minD {
      free := free + [Interval(cursor, to)];
    }
    OrderIsIrrelevant(old(busy[..]), busy[..], free, from, to, minD);
    if Proper(busy[..]) {
      SlotsAreExactlyTheGaps(busy[..], from, to, minD);
    }
  }

  // ----- what the slots mean

  ghost predicate Covered(busy: seq<Interval>, p: int) {
    exists b :: b in busy && b.start <= p < b.end
  }

  /** [a, b) is a maximal stretch of [from, to) that no busy interval touches. */
  ghost predicate Gap(busy: seq<Interval>, from: int, to: int, a: int, b: int) {
    && from <= a < b <= to
    && (forall p :: a <= p < b ==> !Covered(busy, p))
    && (a == from || Covered(busy, a - 1))
    && (b == to || Covered(busy, b))
  }

  /** In ascending order, and apart from each other. */
  ghost predicate Ascending(free: seq<Interval>) {
    forall i, j :: 0 <= i < j < |free| ==> free[i].end < free[j].start
  }

  /** The list is exactly the long enough gaps, in order. */
  ghost predicate ExactlyGaps(free: seq<Interval>, busy: seq<Interval>, from: int, to: int, minD: int) {
    && Ascending(free)
    && forall a, b :: Interval(a, b) in free <==> Gap(busy, from, to, a, b) && b - a >= minD
  }

  ghost predicate Proper(busy: seq<Interval>) {
    forall b :: b in busy ==> b.start < b.end
  }

  /** The cursor is just after the last busy point, or at the start of the window. */
  ghost predicate CursorInv(busy: seq<Interval>, from: int, c: int) {
    && from <= c
    && (forall b :: b in busy ==> b.end <= c)
    && (c == from || Covered(busy, c - 1))
  }

  lemma CoveredSnoc(busy: seq<Interval>, x: Interval, p: int)
    ensures Covered(busy + [x], p) <==> Covered(busy, p) || x.start <= p < x.end
  {
    assert x in busy + [x];
    if Covered(busy, p) {
      var b :| b in busy && b.start <= p < b.end;
      assert b in busy + [x];
    }
  }

  /** A gap before the cursor ends where some busy interval starts. */
  lemma GapEndsAtStart(busy: seq<Interval>, from: int, c: int, a: int, b: int) returns (y: Interval)
    requires CursorInv(busy, from, c) && Gap(busy, from, c, a, b)
    ensures b < c && y in busy && y.start == b < y.end
  {
    assert b < c by {
      assert !Covered(busy, b - 1);
    }
    y :| y in busy && y.start <= b < y.end;
    assert !Covered(busy, b - 1);
  }

  lemma OldGapStays(busy: seq<Interval>, x: Interval, from: int, c: int, c': int, a: int, b: int)
    requires CursorInv(busy, from, c) && c <= c' && Gap(busy, from, c, a, b)
    requires forall y :: y in busy ==> y.start <= x.start
    ensures Gap(busy + [x], from, c', a, b)
  {
    var y := GapEndsAtStart(busy, from, c, a, b);
    forall p | a <= p < b
      ensures !Covered(busy + [x], p)
    {
      CoveredSnoc(busy, x, p);
    }
    CoveredSnoc(busy, x, a - 1);
    CoveredSnoc(busy, x, b);
  }

  lemma NewGapAppears(busy: seq<Interval>, x: Interval, from: int, c: int, c': int)
    requires CursorInv(busy, from, c) && c < x.start < x.end <= c'
    ensures Gap(busy + [x], from, c', c, x.start)
  {
    forall p | c <= p < x.start
      ensures !Covered(busy + [x], p)
    {
      CoveredSnoc(busy, x, p);
    }
    CoveredSnoc(busy, x, c - 1);
    CoveredSnoc(busy, x, x.start);
  }

  lemma GapIsOldOrNew(busy: seq<Interval>, x: Interval, from: int, c: int, c': int, a: int, b: int)
    requires CursorInv(busy, from, c) && CursorInv(busy + [x], from, c') && x.start < x.end
    requires forall y :: y in busy ==> y.start <= x.start
    requires Gap(busy + [x], from, c', a, b)
    ensures Gap(busy, from, c, a, b) || (c < x.start && a == c && b == x.start)
  {
    var y := GapEndsAtStart(busy + [x], from, c', a, b);
    assert x in busy + [x] && x.end <= c';
    forall p | a <= p < b
      ensures !Covered(busy, p) && !(x.start <= p < x.end)
    {
      CoveredSnoc(busy, x, p);
    }
    CoveredSnoc(busy, x, a - 1);
    if a < c {
      assert !Covered(busy, a);
      var z :| z in busy && z.start <= c - 1 < z.end;
      assert b < c;
      if a != from && !Covered(busy, a - 1) {
        assert false;
      }
      if y == x {
        assert z.start <= b < z.end;
      }
      assert Covered(busy, b);
    }
  }

  lemma SnocExact(free: seq<Interval>, busy: seq<Interval>, x: Interval, from: int, c: int, minD: int)
    requires CursorInv(busy, from, c) && ExactlyGaps(free, busy, from, c, minD) && minD > 0
    requires x.start < x.end && forall y :: y in busy ==> y.start <= x.start
    ensures var s := SweepOne(Sweep(free, c), x, minD);
      CursorInv(busy + [x], from, s.cursor) && ExactlyGaps(s.free, busy + [x], from, s.cursor, minD)
  {
    var s := SweepOne(Sweep(free, c), x, minD);
    var busy' := busy + [x];
    CoveredSnoc(busy, x, s.cursor - 1);
    forall a, b
      ensures Gap(busy', from, s.cursor, a, b) <==>
              Gap(busy, from, c, a, b) || (c < x.start && a == c && b == x.start)
    {
      if Gap(busy, from, c, a, b) {
        OldGapStays(busy, x, from, c, s.cursor, a, b);
      }
      if c < x.start {
        NewGapAppears(busy, x, from, c, s.cursor);
      }
      if Gap(busy', from, s.cursor, a, b) {
        GapIsOldOrNew(busy, x, from, c, s.cursor, a, b);
      }
    }
    AppendSlot(free, busy, from, c, minD);
  }

  /** Every gap found so far ends before the cursor. */
  lemma AppendSlot(free: seq<Interval>, busy: seq<Interval>, from: int, c: int, minD: int)
    requires CursorInv(busy, from, c) && ExactlyGaps(free, busy, from, c, minD)
    ensures forall k :: 0 <= k < |free| ==> free[k].end < c
  {
    forall k | 0 <= k < |free|
      ensures free[k].end < c
    {
      assert Interval(free[k].start, free[k].end) in free;
      var _ := GapEndsAtStart(busy, from, c, free[k].start, free[k].end);
    }
  }

  lemma {:induction false} SweptIsExact(busy: seq<Interval>, from: int, minD: int)
    requires SortedByStart(busy) && Proper(busy) && minD > 0
    ensures var s := Swept(busy, from, minD);
      CursorInv(busy, from, s.cursor) && ExactlyGaps(s.free, busy, from, s.cursor, minD)
  {
    if busy == [] {
      assert forall a, b :: !Gap(busy, from, from, a, b);
    } else {
      var n := |busy| - 1;
      SweptIsExact(busy[..n], from, minD);
      var s := Swept(busy[..n], from, minD);
      SnocExact(s.free, busy[..n], busy[n], from, s.cursor, minD);
      assert busy[..n] + [busy[n]] == busy;
    }
  }

  // ----- from the cursor to the end of the window

  lemma GapInWindow(busy: seq<Interval>, from: int, to: int, c: int, a: int, b: int)
    requires CursorInv(busy, from, c) && forall y :: y in busy ==> y.start <= to
    ensures Gap(busy, from, to, a, b) <==>
            Gap(busy, from, c, a, b) || (c < to && a == c && b == to)
  {
    if Gap(busy, from, c, a, b) {
      var _ := GapEndsAtStart(busy, from, c, a, b);
    }
    if Gap(busy, from, to, a, b) {
      if a < c {
        assert !Covered(busy, a);
        var z :| z in busy && z.start <= c - 1 < z.end;
        assert b < c;
        assert Covered(busy, b) by {
          assert b == to ==> z.start <= b < z.end;
        }
      } else {
        assert a != from ==> Covered(busy, a - 1);
      }
    }
  }

  lemma FinishExact(busy: seq<Interval>, from: int, to: int, minD: int)
    requires SortedByStart(busy) && Proper(busy) && minD > 0
    requires forall y :: y in busy ==> y.start <= to
    ensures ExactlyGaps(Slots(busy, from, to, minD), busy, from, to, minD)
  {
    var s := Swept(busy, from, minD);
    SweptIsExact(busy, from, minD);
    forall a, b
      ensures Gap(busy, from, to, a, b) <==>
              Gap(busy, from, s.cursor, a, b) || (s.cursor < to && a == s.cursor && b == to)
    {
      GapInWindow(busy, from, to, s.cursor, a, b);
    }
    AppendSlot(s.free, busy, from, s.cursor, minD);
  }

  /** No busy interval that starts after the window leaves a long gap before it: the window or some earlier
      busy interval reaches close enough to its start. */
  ghost predicate NoLateSlot(busy: seq<Interval>, from: int, to: int, minD: int) {
    forall x :: x in busy && x.start > to ==>
      x.start - from < minD || exists y :: y in busy && y.start < x.start && x.start - y.end < minD
  }

  /** The same of the sweep: it finds its cursor close enough. */
  ghost predicate SweepsNoLate(busy: seq<Interval>, from: int, to: int, minD: int) {
    forall k :: 0 <= k < |busy| && busy[k].start > to ==>
      busy[k].start - Swept(busy[..k], from, minD).cursor < minD
  }

  lemma LateChangesNothing(busy: seq<Interval>, x: Interval, from: int, to: int, minD: int)
    requires minD > 0 && to < x.start < x.end && x.start - Swept(busy, from, minD).cursor < minD
    ensures Slots(busy + [x], from, to, minD) == Slots(busy, from, to, minD)
    ensures forall a, b :: Gap(busy + [x], from, to, a, b) <==> Gap(busy, from, to, a, b)
  {
    assert (busy + [x])[..|busy|] == busy;
    forall p | p <= to
      ensures Covered(busy + [x], p) <==> Covered(busy, p)
    {
      CoveredSnoc(busy, x, p);
    }
  }

  lemma NoLatePrefix(busy: seq<Interval>, from: int, to: int, minD: int)
    requires busy != [] && SweepsNoLate(busy, from, to, minD)
    ensures SweepsNoLate(busy[..|busy| - 1], from, to, minD)
  {
    var prev := busy[..|busy| - 1];
    forall k | 0 <= k < |prev| && prev[k].start > to
      ensures prev[k].start - Swept(prev[..k], from, minD).cursor < minD
    {
      assert prev[..k] == busy[..k] && prev[k] == busy[k];
    }
  }

  lemma {:induction false} SlotsAreGaps(busy: seq<Interval>, from: int, to: int, minD: int)
    requires SortedByStart(busy) && Proper(busy) && minD > 0 && SweepsNoLate(busy, from, to, minD)
    ensures ExactlyGaps(Slots(busy, from, to, minD), busy, from, to, minD)
  {
    hide Swept, Slots, Gap;
    if busy == [] || busy[|busy| - 1].start <= to {
      FinishExact(busy, from, to, minD);
    } else {
      var n := |busy| - 1;
      NoLatePrefix(busy, from, to, minD);
      SlotsAreGaps(busy[..n], from, to, minD);
      assert busy[n] in busy && busy[..n] + [busy[n]] == busy;
      LateChangesNothing(busy[..n], busy[n], from, to, minD);
    }
  }

  lemma {:induction false} FreeGrows(busy: seq<Interval>, k: nat, from: int, minD: int)
    requires k <= |busy|
    ensures Swept(busy[..k], from, minD).free <= Swept(busy, from, minD).free
  {
    if k == |busy| {
      assert busy[..k] == busy;
    } else {
      var n := |busy| - 1;
      FreeGrows(busy[..n], k, from, minD);
      assert busy[..n][..k] == busy[..k];
    }
  }

  lemma {:induction false} FirstWithStart(busy: seq<Interval>, x: Interval) returns (k: nat)
    requires SortedByStart(busy) && x in busy
    ensures k < |busy| && busy[k].start == x.start
    ensures forall y :: y in busy[..k] ==> y.start < x.start
  {
    if busy[0].start == x.start {
      k := 0;
    } else {
      assert x in busy[1..];
      k := FirstWithStart(busy[1..], x);
      k := k + 1;
      assert busy[..k] == [busy[0]] + busy[1..][..k - 1];
    }
  }

  lemma PrefixCursor(busy: seq<Interval>, k: nat, from: int, minD: int)
    requires SortedByStart(busy) && Proper(busy) && minD > 0 && k < |busy|
    ensures CursorInv(busy[..k], from, Swept(busy[..k], from, minD).cursor)
  {
    SweptIsExact(busy[..k], from, minD);
  }

  /** The sweep emits no late slot exactly when the busy intervals, in whatever order, leave none. */
  lemma SweepsNoLateIff(busy: seq<Interval>, from: int, to: int, minD: int)
    requires SortedByStart(busy) && Proper(busy) && minD > 0
    ensures SweepsNoLate(busy, from, to, minD) <==> NoLateSlot(busy, from, to, minD)
  {
    hide Swept;
    if NoLateSlot(busy, from, to, minD) {
      forall k | 0 <= k < |busy| && busy[k].start > to
        ensures busy[k].start - Swept(busy[..k], from, minD).cursor < minD
      {
        PrefixCursor(busy, k, from, minD);
        if y :| y in busy && y.start < busy[k].start && busy[k].start - y.end < minD {
          var j :| 0 <= j < |busy| && busy[j] == y;
          assert y in busy[..k];
        }
      }
    }
    if SweepsNoLate(busy, from, to, minD) {
      forall x | x in busy && x.start > to
        ensures x.start - from < minD || exists y :: y in busy && y.start < x.start && x.start - y.end < minD
      {
        var k := FirstWithStart(busy, x);
        PrefixCursor(busy, k, from, minD);
        var c := Swept(busy[..k], from, minD).cursor;
        if c != from {
          var y :| y in busy[..k] && y.start <= c - 1 < y.end;
          assert y in busy && x.start - y.end < minD;
        }
      }
    }
  }

  /** The answer is exactly the long enough gaps of the window, in order, if and only if no
      busy interval starting after the window leaves a long gap before it. */
  lemma SlotsAreExactlyTheGaps(busy: seq<Interval>, from: int, to: int, minD: int)
    requires SortedByStart(busy) && Proper(busy) && minD > 0
    ensures NoLateSlot(busy, from, to, minD) <==>
            ExactlyGaps(Slots(busy, from, to, minD), busy, from, to, minD)
  {
    SweepsNoLateIff(busy, from, to, minD);
    hide Slots, Swept, NoLateSlot;
    if SweepsNoLate(busy, from, to, minD) {
      SlotsAreGaps(busy, from, to, minD);
    } else {
      var k :| 0 <= k < |busy| && busy[k].start > to
               && busy[k].start - Swept(busy[..k], from, minD).cursor >= minD;
      var c := Swept(busy[..k], from, minD).cursor;
      LateSlotIsEmitted(busy, k, from, to, minD);
      assert !Gap(busy, from, to, c, busy[k].start);
    }
  }

  /** One busy interval far enough beyond the window: the only slot runs past the end of the window. */
  lemma LateIntervalBreaksIt(from: int, to: int, minD: int, s: int)
    requires from < to < s && minD > 0 && from + minD <= s
    ensures var busy := [Interval(s, s + 1)];
      && SortedByStart(busy) && Proper(busy) && !NoLateSlot(busy, from, to, minD)
      && Slots(busy, from, to, minD) == [Interval(from, s)]
      && !ExactlyGaps([Interval(from, s)], busy, from, to, minD)
  {
    var busy := [Interval(s, s + 1)];
    assert |busy| == 1 && busy[..0] == [];
    assert Swept(busy, from, minD) == SweepOne(Swept([], from, minD), busy[0], minD);
    assert Swept(busy, from, minD) == Sweep([Interval(from, s)], s + 1);
    assert Interval(s, s + 1) in busy;
    SlotsAreExactlyTheGaps(busy, from, to, minD);
  }

  /** Neither what is asked of the busy list nor what is promised depends on its order. */
  lemma OrderIsIrrelevant(b1: seq<Interval>, b2: seq<Interval>, free: seq<Interval>, from: int, to: int, minD: int)
    requires multiset(b1) == multiset(b2)
    ensures Proper(b1) <==> Proper(b2)
    ensures NoLateSlot(b1, from, to, minD) <==> NoLateSlot(b2, from, to, minD)
    ensures ExactlyGaps(free, b1, from, to, minD) <==> ExactlyGaps(free, b2, from, to, minD)
  {
    forall x: Interval
      ensures x in b1 <==> x in b2
    {
      SameMembers(b1, b2, x);
    }
    assert forall p :: Covered(b1, p) <==> Covered(b2, p);
    assert forall a, b :: Gap(b1, from, to, a, b) <==> Gap(b2, from, to, a, b);
  }

  lemma LateSlotIsEmitted(busy: seq<Interval>, k: nat, from: int, to: int, minD: int)
    requires k < |busy| && busy[k].start < busy[k].end && minD > 0
    requires busy[k].start - Swept(busy[..k], from, minD).cursor >= minD
    ensures Interval(Swept(busy[..k], from, minD).cursor, busy[k].start) in Slots(busy, from, to, minD)
  {
    assert busy[..k + 1][..k] == busy[..k];
    var slot := Interval(Swept(busy[..k], from, minD).cursor, busy[k].start);
    var free := Swept(busy[..k + 1], from, minD).free;
    assert free[|free| - 1] == slot;
    FreeGrows(busy, k + 1, from, minD);
    assert Slots(busy, from, to, minD)[|free| - 1] == slot;
  }

  /** In particular when no busy interval starts after the window, as the query asks for. */
  lemma SlotsWithinQuery(busy: seq<Interval>, from: int, to: int, minDurationMin: int)
    requires SortedByStart(busy) && Proper(busy) && forall b :: b in busy ==> b.start <= to
    ensures ExactlyGaps(Slots(busy, from, to, MinLength(minDurationMin)), busy, from, to, MinLength(minDurationMin))
  {
    FinishExact(busy, from, to, MinLength(minDurationMin));
  }

  // ----- the order of the busy list does not matter

  lemma {:induction false} AscendingIsUnique(xs: seq<Interval>, ys: seq<Interval>)
    requires Ascending(xs) && Ascending(ys)
    requires forall x :: x in xs ==> x.start < x.end
    requires forall x :: x in xs <==> x in ys
    ensures xs == ys
  {
    assert xs == [] ==> ys == [] by {
      assert |ys| > 0 ==> ys[0] in ys;
    }
    if xs != [] {
      assert xs[0] in ys && ys[0] in xs;
      var x, y := xs[|xs| - 1], ys[|ys| - 1];
      assert x in ys && y in xs;
      assert x == y;
      var xs', ys' := xs[..|xs| - 1], ys[..|ys| - 1];
      forall z
        ensures z in xs' <==> z in ys'
      {
        assert z in xs' <==> z in xs && z != x;
        assert z in ys' <==> z in ys && z != y;
      }
      AscendingIsUnique(xs', ys');
    }
  }

  lemma SameMembers(b1: seq<Interval>, b2: seq<Interval>, x: Interval)
    requires multiset(b1) == multiset(b2)
    ensures x in b1 <==> x in b2
  {
    assert x in multiset(b1) <==> x in multiset(b2);
  }

  /** Two sorted arrangements of the same busy intervals have the same free slots. */
  lemma SlotsIgnoreOrder(b1: seq<Interval>, b2: seq<Interval>, from: int, to: int, minD: int)
    requires SortedByStart(b1) && SortedByStart(b2) && multiset(b1) == multiset(b2)
    requires Proper(b1) && minD > 0
    ensures Slots(b1, from, to, minD) == Slots(b2, from, to, minD)
  {
    forall x: Interval
      ensures x in b1 <==> x in b2
    {
      SameMembers(b1, b2, x);
    }
    SweptIsExact(b1, from, minD);
    SweptIsExact(b2, from, minD);
    var s1, s2 := Swept(b1, from, minD), Swept(b2, from, minD);
    assert forall p :: Covered(b1, p) <==> Covered(b2, p);
    assert s1.cursor == s2.cursor;
    SameGaps(s1.free, s2.free, b1, b2, from, s1.cursor, minD);
  }

  lemma SameGaps(f1: seq<Interval>, f2: seq<Interval>, b1: seq<Interval>, b2: seq<Interval>, from: int, c: int,
                 minD: int)
    requires ExactlyGaps(f1, b1, from, c, minD) && ExactlyGaps(f2, b2, from, c, minD) && minD > 0
    requires forall p :: Covered(b1, p) <==> Covered(b2, p)
    ensures f1 == f2
  {
    forall x: Interval
      ensures x in f1 <==> x in f2
      ensures x in f1 ==> x.start < x.end
    {
      assert x == Interval(x.start, x.end);
      assert Gap(b1, from, c, x.start, x.end) <==> Gap(b2, from, c, x.start, x.end);
    }
    AscendingIsUnique(f1, f2);
  }
}
