/** Util.kt: the median of a sample list, range re-mapping, tolerance ranges, and the
    `timer` helper that runs a body once per periodic tick until a time has elapsed. */
module Util {
  import opened Wrappers

  // ---------------------------------------------------------------------------
  // Periodic loops that stop themselves
  // ---------------------------------------------------------------------------

  /** Index of the first `true` in `bs`, if any. */
  function FirstTrue(bs: seq<bool>): (r: Option<nat>)
    ensures r.Some? ==> r.value < |bs| && bs[r.value]
    ensures r.Some? ==> forall i :: 0 <= i < r.value ==> !bs[i]
    ensures r.None? ==> forall i :: 0 <= i < |bs| ==> !bs[i]
  {
    if |bs| == 0 then None
    else if bs[0] then Some(0)
    else match FirstTrue(bs[1..])
      case None => None
      case Some(k) => Some(k + 1)
  }

  /** How many ticks a `periodic { ...; if (stop[i]) stop() }` loop runs when it is
      offered the ticks `stop` (one flag per tick): up to and including the first tick
      whose stop condition holds, or every offered tick if none does. */
  function TicksUntil(stop: seq<bool>): (n: nat)
    ensures n <= |stop|
    ensures |stop| > 0 ==> n > 0
    ensures forall i :: 0 <= i < n - 1 ==> !stop[i]
    ensures n < |stop| ==> stop[n - 1]
    ensures (exists i :: 0 <= i < |stop| && stop[i]) <==> (n > 0 && stop[n - 1])
  {
    match FirstTrue(stop)
    case Some(k) => k + 1
    case None => |stop|
  }

  /** `TicksUntil` is the only count that satisfies the stop rule of a periodic loop. */
  lemma TicksUntilCharacterised(stop: seq<bool>, n: nat)
    requires n <= |stop|
    requires |stop| > 0 ==> n > 0
    requires forall k :: 0 <= k < n - 1 ==> !stop[k]
    requires n < |stop| ==> stop[n - 1]
    ensures n == TicksUntil(stop)
  {
    var m := TicksUntil(stop);
    assert m <= n by {
      if n < |stop| {
        assert stop[n - 1];
      }
    }
    assert n <= m by {
      if m < |stop| {
        assert stop[m - 1];
      }
    }
  }

  // ---------------------------------------------------------------------------
  // timer
  // ---------------------------------------------------------------------------

  /** Readings of the timer's clock never go backwards. */
  ghost predicate NonDecreasing(clock: seq<real>) {
    forall i, j :: 0 <= i <= j < |clock| ==> clock[i] <= clock[j]
  }

  /** The stop flag of each tick of `timer(time)`: `timer.get() >= scope.time`. */
  function ElapsedReached(time: real, clock: seq<real>): (stop: seq<bool>)
    ensures |stop| == |clock|
    ensures forall i :: 0 <= i < |clock| ==> (stop[i] <==> clock[i] >= time)
  {
    seq(|clock|, i requires 0 <= i < |clock| => clock[i] >= time)
  }

  /** Number of times `timer(time)` calls its body when its clock reads `clock` on
      successive ticks. */
  function TimerTicks(time: real, clock: seq<real>): nat {
    TicksUntil(ElapsedReached(time, clock))
  }

  /** Two readings of one clock, taken in turn: `first[0] <= second[0] <= first[1] <=
      second[1] <= ...`. */
  ghost predicate Interleaved(first: seq<real>, second: seq<real>) {
    |first| == |second|
    && (forall i :: 0 <= i < |first| ==> first[i] <= second[i])
    && (forall i :: 0 <= i < |first| - 1 ==> second[i] <= first[i + 1])
  }

  /** The `timer` loop itself. Each tick reads the clock twice: `bodyClock[i]` is the
      elapsed time passed to the body, `clock[i]` the one the stop test compares with
      `time`. The loop stops after the first tick whose stop reading has reached `time`.
      The result is the sequence of arguments the body was called with. */
  method RunTimer(time: real, bodyClock: seq<real>, clock: seq<real>) returns (calls: seq<real>)
    requires |bodyClock| == |clock|
    ensures |calls| <= |clock| && calls == bodyClock[..|calls|]
    ensures |clock| > 0 ==> |calls| > 0
    ensures forall i :: 0 <= i < |calls| - 1 ==> clock[i] < time
    ensures |calls| < |clock| ==> clock[|calls| - 1] >= time
    ensures |calls| == TimerTicks(time, clock)
    ensures Interleaved(bodyClock, clock) ==> forall i :: 0 <= i < |calls| - 1 ==> calls[i] < time
  {
    calls := [];
    var i := 0;
    var stopped := false;
    while i < |clock| && !stopped
      invariant 0 <= i <= |clock|
      invariant calls == bodyClock[..i]
      invariant forall k :: 0 <= k < i - 1 ==> clock[k] < time
      invariant stopped ==> i > 0 && clock[i - 1] >= time
      invariant !stopped ==> forall k :: 0 <= k < i ==> clock[k] < time
    {
      calls := calls + [bodyClock[i]];
      if clock[i] >= time {
        stopped := true;
      }
      i := i + 1;
    }
    TimerTicksCharacterised(time, clock, i);
  }

  /** The last body call may see an elapsed time short of `time`: the clock can pass
      `time` between the body's reading and the stop test's. */
  lemma TimerLastArgumentMayFallShort()
    ensures Interleaved([0.5], [1.0]) && TimerTicks(1.0, [1.0]) == 1 && [0.5][0] < 1.0
  {
    assert ElapsedReached(1.0, [1.0])[0];
  }

  /** `TimerTicks` is the only count that satisfies the stop rule. */
  lemma TimerTicksCharacterised(time: real, clock: seq<real>, n: nat)
    requires n <= |clock|
    requires |clock| > 0 ==> n > 0
    requires forall k :: 0 <= k < n - 1 ==> clock[k] < time
    requires n < |clock| ==> clock[n - 1] >= time
    ensures n == TimerTicks(time, clock)
  {
    var stop := ElapsedReached(time, clock);
    var m := TimerTicks(time, clock);
    assert m <= n by {
      if n < |clock| {
        assert stop[n - 1];
      }
    }
    assert n <= m by {
      if m < |clock| {
        assert stop[m - 1];
      }
    }
  }

  /** With a clock that reaches `time`, the timer stops on the first reading that does,
      and every later reading would also have stopped it. */
  lemma TimerStopsOnceReached(time: real, clock: seq<real>, k: nat)
    requires NonDecreasing(clock)
    requires k < |clock| && clock[k] >= time
    ensures 0 < TimerTicks(time, clock) <= k + 1
    ensures forall j :: TimerTicks(time, clock) - 1 <= j < |clock| ==> clock[j] >= time
  {
    var stop := ElapsedReached(time, clock);
    assert stop[k];
  }

  /** `TimerScope` as constructed: `period` is initialised from `periodicScope`, which
      is still null at that moment, so it is fixed at 0.0. */
  datatype PeriodicScope = PeriodicScope(period: real)
  datatype TimerScope = TimerScope(time: real, periodicScope: Option<PeriodicScope>, period: real)

  function NewTimerScope(time: real): (s: TimerScope)
    ensures s.time == time && s.periodicScope.None?
    ensures s.period == 0.0
  {
    var periodicScope: Option<PeriodicScope> := None;
    var period := match periodicScope
      case Some(p) => p.period
      case None => 0.0;
    TimerScope(time, periodicScope, period)
  }

  /** First tick of `timer`: `if (scope.periodicScope == null) scope.periodicScope = this`.
      The `val period` was computed at construction and is not recomputed. */
  function AttachPeriodic(s: TimerScope, p: PeriodicScope): (r: TimerScope)
    ensures s.periodicScope.None? ==> r.periodicScope == Some(p)
    ensures s.periodicScope.Some? ==> r.periodicScope == s.periodicScope
    ensures r.time == s.time && r.period == s.period
  {
    if s.periodicScope.None? then s.(periodicScope := Some(p)) else s
  }

  /** Whatever period the periodic loop runs at, the scope a timer body sees reports 0.0. */
  lemma TimerScopePeriodIsZero(time: real, ps: seq<PeriodicScope>)
    ensures AttachAll(NewTimerScope(time), ps).period == 0.0
  {
    AttachAllKeepsPeriod(NewTimerScope(time), ps);
  }

  function AttachAll(s: TimerScope, ps: seq<PeriodicScope>): TimerScope
    decreases |ps|
  {
    if |ps| == 0 then s else AttachAll(AttachPeriodic(s, ps[0]), ps[1..])
  }

  lemma {:induction false} AttachAllKeepsPeriod(s: TimerScope, ps: seq<PeriodicScope>)
    ensures AttachAll(s, ps).period == s.period
    decreases |ps|
  {
    if |ps| > 0 {
      AttachAllKeepsPeriod(AttachPeriodic(s, ps[0]), ps[1..]);
    }
  }

  // ---------------------------------------------------------------------------
  // median
  // ---------------------------------------------------------------------------

  ghost predicate Sorted(s: seq<real>) {
    forall i, j :: 0 <= i < j < |s| ==> s[i] <= s[j]
  }

  /** Insert `x` into a sorted list. */
  function Insert(x: real, s: seq<real>): (r: seq<real>)
    requires Sorted(s)
    ensures Sorted(r)
    ensures multiset(r) == multiset(s) + multiset{x}
    ensures |r| == |s| + 1
  {
    if |s| == 0 then [x]
    else if x <= s[0] then [x] + s
    else
      var t := Insert(x, s[1..]);
      InsertBehindHead(x, s, t);
      [s[0]] + t
  }

  /** The recursive case of `Insert`: the head stays in front of the rest with `x`
      inserted into it. */
  lemma InsertBehindHead(x: real, s: seq<real>, t: seq<real>)
    requires Sorted(s) && |s| > 0 && s[0] < x
    requires Sorted(t) && multiset(t) == multiset(s[1..]) + multiset{x}
    ensures Sorted([s[0]] + t)
    ensures multiset([s[0]] + t) == multiset(s) + multiset{x}
  {
    assert s == [s[0]] + s[1..];
    forall k | 0 <= k < |t|
      ensures s[0] <= t[k]
    {
      assert t[k] in multiset(t);
      if t[k] != x {
        assert t[k] in multiset(s[1..]);
        assert t[k] in s[1..];
      }
    }
    var r := [s[0]] + t;
    forall i, j | 0 <= i < j < |r|
      ensures r[i] <= r[j]
    {
      if i == 0 {
        assert r[j] == t[j - 1];
      } else {
        assert r[i] == t[i - 1] && r[j] == t[j - 1];
      }
    }
  }

  /** `sorted()`: the ascending permutation of a list. */
  function Sort(s: seq<real>): (r: seq<real>)
    ensures Sorted(r)
    ensures multiset(r) == multiset(s)
    ensures |r| == |s|
  {
    if |s| == 0 then []
    else
      assert s == [s[0]] + s[1..];
      Insert(s[0], Sort(s[1..]))
  }

  /** `List<Number>.median()`: the mean of the elements at indices `size / 2` and
      `(size - 1) / 2` of the sorted list. On an empty list the index access throws;
      that is `None` here. */
  function Median(xs: seq<real>): (r: Option<real>)
    ensures r.None? <==> |xs| == 0
  {
    if |xs| == 0 then None else Some(MiddleMean(Sort(xs)))
  }

  /** The mean of the elements at `size / 2` and `(size - 1) / 2`. */
  function MiddleMean(s: seq<real>): real
    requires |s| > 0
  {
    (s[|s| / 2] + s[(|s| - 1) / 2]) / 2.0
  }

  /** Two sorted lists with the same elements are equal. */
  lemma {:induction false} SortedUnique(a: seq<real>, b: seq<real>)
    requires Sorted(a) && Sorted(b)
    requires multiset(a) == multiset(b)
    ensures a == b
    decreases |a|
  {
    assert |a| == |multiset(a)| == |multiset(b)| == |b|;
    if |a| > 0 {
      SameHead(a, b);
      SameTailElements(a, b);
      SortedTail(a);
      SortedTail(b);
      SortedUnique(a[1..], b[1..]);
      assert a == [a[0]] + a[1..];
      assert b == [b[0]] + b[1..];
    }
  }

  /** Sorted lists with the same non-empty contents start with the same element. */
  lemma SameHead(a: seq<real>, b: seq<real>)
    requires Sorted(a) && Sorted(b) && |a| > 0 && |b| > 0
    requires multiset(a) == multiset(b)
    ensures a[0] == b[0]
  {
    assert a[0] in multiset(b);
    assert b[0] in multiset(a);
    LeastOfSorted(b, a[0]);
    LeastOfSorted(a, b[0]);
  }

  /** Lists with the same contents and the same head have tails with the same contents. */
  lemma SameTailElements(a: seq<real>, b: seq<real>)
    requires |a| > 0 && |b| > 0 && a[0] == b[0]
    requires multiset(a) == multiset(b)
    ensures multiset(a[1..]) == multiset(b[1..])
  {
    assert a == [a[0]] + a[1..];
    assert b == [b[0]] + b[1..];
    assert multiset(a[1..]) == multiset(a) - multiset{a[0]};
    assert multiset(b[1..]) == multiset(b) - multiset{b[0]};
  }

  lemma SortedTail(a: seq<real>)
    requires Sorted(a) && |a| > 0
    ensures Sorted(a[1..])
  {
    forall i, j | 0 <= i <= j < |a[1..]| ensures a[1..][i] <= a[1..][j] {
      assert a[1..][i] == a[i + 1] && a[1..][j] == a[j + 1];
    }
  }

  /** The head of a sorted list is below each of its elements. */
  lemma LeastOfSorted(s: seq<real>, x: real)
    requires Sorted(s) && x in multiset(s)
    ensures |s| > 0 && s[0] <= x
  {
    assert x in s;
    var i :| 0 <= i < |s| && s[i] == x;
    if i > 0 {
      assert s[0] <= s[i];
    }
  }

  /** Any ascending arrangement of the samples is what `median` sorts them into. */
  lemma SortIsTheSortedPermutation(xs: seq<real>, s: seq<real>)
    requires Sorted(s) && multiset(s) == multiset(xs)
    ensures Sort(xs) == s
  {
    SortedUnique(Sort(xs), s);
  }

  /** Odd length `2k + 1`: the median is the middle element `k` of any ascending
      arrangement. */
  lemma MedianOdd(xs: seq<real>, s: seq<real>, k: nat)
    requires Sorted(s) && multiset(s) == multiset(xs)
    requires |xs| == 2 * k + 1
    ensures |s| == |xs|
    ensures Median(xs) == Some(s[k])
  {
    SortIsTheSortedPermutation(xs, s);
    MedianOfOddLength(xs, k);
  }

  /** Even length `2k`: the median is the mean of the two middle elements `k - 1` and
      `k` of any ascending arrangement. */
  lemma MedianEven(xs: seq<real>, s: seq<real>, k: nat)
    requires Sorted(s) && multiset(s) == multiset(xs)
    requires k > 0 && |xs| == 2 * k
    ensures |s| == |xs|
    ensures Median(xs) == Some((s[k - 1] + s[k]) / 2.0)
  {
    SortIsTheSortedPermutation(xs, s);
    MedianOfEvenLength(xs, k);
  }

  lemma MedianOfOddLength(xs: seq<real>, k: nat)
    requires |xs| == 2 * k + 1
    ensures |Sort(xs)| == |xs|
    ensures Median(xs) == Some(Sort(xs)[k])
  {
    var s := Sort(xs);
    Halves(|s|, k);
    assert MiddleMean(s) == (s[k] + s[k]) / 2.0;
  }

  lemma MedianOfEvenLength(xs: seq<real>, k: nat)
    requires k > 0 && |xs| == 2 * k
    ensures |Sort(xs)| == |xs|
    ensures Median(xs) == Some((Sort(xs)[k - 1] + Sort(xs)[k]) / 2.0)
  {
    var s := Sort(xs);
    Halves(|s|, k);
    assert s[|s| / 2] == s[k] && s[(|s| - 1) / 2] == s[k - 1];
    assert MiddleMean(s) == (s[k] + s[k - 1]) / 2.0;
  }

  /** The two indices `median` reads, for lengths `2k + 1` and `2k`. */
  lemma Halves(n: nat, k: nat)
    requires n == 2 * k + 1 || (k > 0 && n == 2 * k)
    ensures n == 2 * k + 1 ==> n / 2 == k && (n - 1) / 2 == k
    ensures n == 2 * k ==> n / 2 == k && (n - 1) / 2 == k - 1
  {
  }

  /** Reordering the samples does not change the median. */
  lemma MedianPermutationInvariant(a: seq<real>, b: seq<real>)
    requires multiset(a) == multiset(b)
    ensures Median(a) == Median(b)
  {
    var sa, sb := Sort(a), Sort(b);
    SortedUnique(sa, sb);
    assert |a| == |multiset(a)| == |multiset(b)| == |b|;
  }

  /** The smallest element of a non-empty list. */
  function SeqMin(s: seq<real>): (m: real)
    requires |s| > 0
    ensures m in s
    ensures forall i :: 0 <= i < |s| ==> m <= s[i]
  {
    if |s| == 1 then s[0]
    else
      var rest := SeqMin(s[1..]);
      if s[0] <= rest then s[0] else rest
  }

  /** The largest element of a non-empty list. */
  function SeqMax(s: seq<real>): (m: real)
    requires |s| > 0
    ensures m in s
    ensures forall i :: 0 <= i < |s| ==> s[i] <= m
  {
    if |s| == 1 then s[0]
    else
      var rest := SeqMax(s[1..]);
      if s[0] >= rest then s[0] else rest
  }

  /** The median of a non-empty list lies between its minimum and maximum. */
  lemma MedianBounds(xs: seq<real>)
    requires |xs| > 0
    ensures Median(xs).Some?
    ensures SeqMin(xs) <= Median(xs).value <= SeqMax(xs)
  {
    var s := Sort(xs);
    var lo, hi := SeqMin(xs), SeqMax(xs);
    assert s[|s| / 2] in multiset(xs) && s[(|s| - 1) / 2] in multiset(xs);
    assert s[|s| / 2] in xs && s[(|s| - 1) / 2] in xs;
    assert lo <= s[|s| / 2] <= hi;
    assert lo <= s[(|s| - 1) / 2] <= hi;
  }

  /** A single sample is its own median. */
  lemma MedianSingleton(x: real)
    ensures Median([x]) == Some(x)
  {
    assert Sort([x]) == [x] by {
      SortIsTheSortedPermutation([x], [x]);
    }
  }

  // ---------------------------------------------------------------------------
  // remap and tol
  // ---------------------------------------------------------------------------

  /** A `ClosedFloatingPointRange<Double>` / `DoubleRange`: `start..endInclusive`. */
  datatype Range = Range(start: real, endInclusive: real) {
    predicate Contains(x: real) {
      start <= x <= endInclusive
    }
  }

  /** `Number.remap(fromRange, toRange)`: the value's offset into `fromRange`, scaled by
      the ratio of the two widths, added to the start of `toRange`. Kotlin would divide by
      zero for a degenerate `fromRange`; that case is excluded. */
  function Remap(x: real, from: Range, to: Range): (r: real)
    requires from.start != from.endInclusive
    ensures x == from.start ==> r == to.start
    ensures x == from.endInclusive ==> r == to.endInclusive
  {
    (x - from.start) * (to.endInclusive - to.start) / (from.endInclusive - from.start) + to.start
  }

  /** `remap` sends the ends of the source range to the ends of the target range. */
  lemma RemapEndpoints(from: Range, to: Range)
    requires from.start != from.endInclusive
    ensures Remap(from.start, from, to) == to.start
    ensures Remap(from.endInclusive, from, to) == to.endInclusive
  {
  }

  /** Remapping back with the ranges swapped returns the original value. */
  lemma RemapInverse(x: real, from: Range, to: Range)
    requires from.start != from.endInclusive
    requires to.start != to.endInclusive
    ensures Remap(Remap(x, from, to), to, from) == x
  {
    var w, h := from.endInclusive - from.start, to.endInclusive - to.start;
    var r := Remap(x, from, to);
    assert r - to.start == (x - from.start) * h / w;
    ScaleBack(r - to.start, x - from.start, w, h);
    assert Remap(r, to, from) == (r - to.start) * w / h + from.start;
  }

  /** The offset into the target range is proportional to the offset into the source
      range, with the ratio of the two widths. */
  lemma RemapProportional(x: real, from: Range, to: Range)
    requires from.start != from.endInclusive
    ensures (Remap(x, from, to) - to.start) * (from.endInclusive - from.start)
         == (x - from.start) * (to.endInclusive - to.start)
  {
    var r := Remap(x, from, to);
    ScaleCross(r - to.start, x - from.start, from.endInclusive - from.start, to.endInclusive - to.start);
  }

  /** A value scaled by `h / w` and then by `w / h` is unchanged. */
  lemma ScaleBack(q: real, u: real, w: real, h: real)
    requires w != 0.0 && h != 0.0
    requires q == u * h / w
    ensures q * w / h == u
  {
    ScaleCross(q, u, w, h);
    DivBoth(q * w, u * h, h);
    MulDivCancel(u, h);
  }

  /** Clearing the denominator of `q == u * h / w`. */
  lemma ScaleCross(q: real, u: real, w: real, h: real)
    requires w != 0.0
    requires q == u * h / w
    ensures q * w == u * h
  {
    MulBoth(q, u * h / w, w);
    DivMulCancel(u * h, w);
  }

  lemma MulBoth(u: real, v: real, k: real)
    requires u == v
    ensures u * k == v * k
  {
  }

  lemma DivBoth(u: real, v: real, k: real)
    requires u == v && k != 0.0
    ensures u / k == v / k
  {
  }

  lemma DivMulCancel(p: real, w: real)
    requires w != 0.0
    ensures (p / w) * w == p
  {
  }

  lemma MulDivCancel(u: real, h: real)
    requires h != 0.0
    ensures (u * h) / h == u
  {
  }

  /** `remap` between increasing ranges keeps values of the source range in the
      target range. */
  lemma RemapInRange(x: real, from: Range, to: Range)
    requires from.start < from.endInclusive && to.start <= to.endInclusive
    requires from.Contains(x)
    ensures to.Contains(Remap(x, from, to))
  {
    var w := from.endInclusive - from.start;
    var h := to.endInclusive - to.start;
    var p := (x - from.start) * h;
    assert 0.0 <= p <= w * h by {
      MulNonNegative(x - from.start, h);
      MulNonNegative(w - (x - from.start), h);
      assert w * h - p == (w - (x - from.start)) * h;
    }
    assert 0.0 <= p / w <= h by {
      DivBounds(p, w, h);
    }
  }

  lemma MulNonNegative(a: real, b: real)
    requires a >= 0.0 && b >= 0.0
    ensures a * b >= 0.0
  {
  }

  lemma DivBounds(p: real, w: real, h: real)
    requires w > 0.0 && 0.0 <= p <= w * h
    ensures 0.0 <= p / w <= h
  {
    assert h - p / w == (w * h - p) / w;
  }

  /** An `IntRange`: `first..last`. */
  datatype IntRange = IntRange(first: int, last: int) {
    predicate Contains(v: int) {
      first <= v <= last
    }
  }

  /** Kotlin's `Int`: 32-bit two's complement. */
  const IntMin: int := -0x8000_0000
  const IntMax: int := 0x7FFF_FFFF

  predicate IsInt32(v: int) {
    IntMin <= v <= IntMax
  }

  /** The 32-bit result of an `Int` addition or subtraction whose exact value is `v`. */
  function Wrap32(v: int): (w: int)
    ensures IsInt32(w)
    ensures (w - v) % 0x1_0000_0000 == 0
    ensures IsInt32(v) ==> w == v
  {
    (v - IntMin) % 0x1_0000_0000 + IntMin
  }

  /** `Int.tol(error)`: `(x - error)..(x + error)`, each end computed in 32-bit
      arithmetic and so wrapping around past `Int.MAX_VALUE` or `Int.MIN_VALUE`. */
  function TolInt(x: int, error: int): (r: IntRange)
    requires IsInt32(x) && IsInt32(error)
    ensures IsInt32(r.first) && IsInt32(r.last)
    ensures (r.first - (x - error)) % 0x1_0000_0000 == 0 && (r.last - (x + error)) % 0x1_0000_0000 == 0
    ensures IsInt32(x - error) && IsInt32(x + error) ==>
      forall v :: r.Contains(v) <==> -error <= v - x <= error
  {
    IntRange(Wrap32(x - error), Wrap32(x + error))
  }

  /** `Double.tol(error)`: `(x - error)..(x + error)`. */
  function Tol(x: real, error: real): (r: Range)
    ensures forall v :: r.Contains(v) <==> -error <= v - x <= error
  {
    Range(x - error, x + error)
  }

  /** A non-negative tolerance range contains its centre; a negative one is empty. For
      `Int` this holds as long as neither end overflows. */
  lemma TolContainsCentre(x: int, error: int, y: real, e: real)
    requires IsInt32(x) && IsInt32(error)
    ensures IsInt32(x - error) && IsInt32(x + error) ==> (TolInt(x, error).Contains(x) <==> error >= 0)
    ensures Tol(y, e).Contains(y) <==> e >= 0.0
  {
  }

  /** `Int.MAX_VALUE tol 1` overflows at its upper end: the range runs from
      `MAX_VALUE - 1` up to `MIN_VALUE`, which is empty, so it does not contain its
      centre although the error is positive. */
  lemma TolIntOverflowEmpty()
    ensures TolInt(IntMax, 1) == IntRange(IntMax - 1, IntMin)
    ensures !TolInt(IntMax, 1).Contains(IntMax)
  {
    assert Wrap32(IntMax + 1) == IntMin;
  }
}
