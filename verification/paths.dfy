/** Paths.kt: checked extensions on the motion-profiling `Path2D` that append a point
    or an ease key in one of the legal argument shapes, and that replace the last point
    or ease key.

    The `Path2D` library itself is not part of this model. It is abstracted as: the
    xy-curve as the sequence of its points (the head point is the first, the tail point
    the last, and distinct points are distinct objects); the ease curve as its keys, at
    most one per time, together with the head and tail key references as indices; and
    the duration. */
module Paths {
  import opened Wrappers

  // ---------------------------------------------------------------------------
  // The abstract Path2D
  // ---------------------------------------------------------------------------

  /** How a point's tangent is given. */
  datatype PointKind =
    | Plain
    | AngleAndMagnitude(angle: real, magnitude: real)
    | Tangent(xTangent: real, yTangent: real)

  datatype PathPoint = PathPoint(x: real, y: real, kind: PointKind)

  /** How an ease key's slope is given. */
  datatype EaseKind = PlainKey | SlopeAndMagnitude(slope: real, magnitude: real)

  datatype EaseKey = EaseKey(time: real, value: real, kind: EaseKind)

  datatype EaseCurve = EaseCurve(keys: seq<EaseKey>, headKey: Option<nat>, tailKey: Option<nat>)

  datatype Path2D = Path2D(points: seq<PathPoint>, ease: EaseCurve, duration: real)

  /** A key reference is either absent or designates a stored key. */
  predicate Designates(p: Option<nat>, n: nat) {
    p.None? || p.value < n
  }

  predicate UniqueTimes(keys: seq<EaseKey>) {
    forall i, j :: 0 <= i < j < |keys| ==> keys[i].time != keys[j].time
  }

  /** The invariant every ease curve keeps. */
  predicate ValidCurve(c: EaseCurve) {
    Designates(c.headKey, |c.keys|) && Designates(c.tailKey, |c.keys|) && UniqueTimes(c.keys)
  }

  /** `Path2D()`: no points, no keys, zero duration. */
  function NewPath(): (p: Path2D)
    ensures p.points == [] && p.ease.keys == [] && p.duration == 0.0
    ensures p.ease.headKey == None && p.ease.tailKey == None
    ensures ValidCurve(p.ease)
  {
    Path2D([], EaseCurve([], None, None), 0.0)
  }

  /** `easeCurve.getKey(time)`: the key stored at exactly `time`, if any (the latest
      stored one, should several share a time). */
  function GetKey(keys: seq<EaseKey>, time: real): (r: Option<nat>)
    ensures r.Some? ==> r.value < |keys| && keys[r.value].time == time
    ensures r.Some? ==> forall j :: r.value < j < |keys| ==> keys[j].time != time
    ensures r.None? <==> forall i :: 0 <= i < |keys| ==> keys[i].time != time
  {
    if |keys| == 0 then None
    else if keys[|keys| - 1].time == time then Some(|keys| - 1)
    else GetKey(keys[..|keys| - 1], time)
  }

  /** With unique times the key found is the only one at that time. */
  lemma GetKeyUnique(keys: seq<EaseKey>, time: real, i: nat)
    requires UniqueTimes(keys)
    requires i < |keys| && keys[i].time == time
    ensures GetKey(keys, time) == Some(i)
  {
    var r := GetKey(keys, time);
    assert r.Some?;
    assert keys[r.value].time == keys[i].time;
  }

  /** Storing a key: a key already at that time takes the new value and shape; otherwise
      the key is appended and becomes the tail (and the head of an empty curve). */
  function StoreKey(c: EaseCurve, k: EaseKey): (r: EaseCurve)
    requires ValidCurve(c)
    ensures ValidCurve(r)
    ensures |r.keys| >= |c.keys|
    ensures GetKey(r.keys, k.time).Some? && r.keys[GetKey(r.keys, k.time).value] == k
    ensures forall j :: 0 <= j < |c.keys| && c.keys[j].time != k.time ==> r.keys[j] == c.keys[j]
    ensures forall j :: 0 <= j < |r.keys| ==> r.keys[j] == k || (j < |c.keys| && r.keys[j] == c.keys[j])
    ensures GetKey(c.keys, k.time).Some? ==> |r.keys| == |c.keys| && r.headKey == c.headKey && r.tailKey == c.tailKey
    ensures GetKey(c.keys, k.time).None? ==>
      |r.keys| == |c.keys| + 1 && r.tailKey == Some(|c.keys|)
      && r.headKey == (if c.headKey.None? then Some(|c.keys|) else c.headKey)
  {
    match GetKey(c.keys, k.time)
    case Some(i) =>
      var r := c.(keys := c.keys[i := k]);
      GetKeyUnique(r.keys, k.time, i);
      r
    case None =>
      var n := |c.keys|;
      var r := EaseCurve(c.keys + [k], if c.headKey.None? then Some(n) else c.headKey, Some(n));
      GetKeyUnique(r.keys, k.time, n);
      r
  }

  /** Where a key reference lands once the key at index `i` is removed. */
  function Shifted(p: Option<nat>, i: nat): (q: Option<nat>)
    ensures p.None? || p == Some(i) <==> q.None?
    ensures p.Some? && p.value < i ==> q == p
    ensures p.Some? && p.value > i ==> q == Some(p.value - 1)
  {
    match p
    case None => None
    case Some(j) => if j == i then None else if j > i then Some(j - 1) else Some(j)
  }

  /** `easeCurve.removeKey(key)`: the key goes, references to it are cleared and the
      other references keep designating the same keys. */
  function RemoveKey(c: EaseCurve, i: nat): (r: EaseCurve)
    requires ValidCurve(c) && i < |c.keys|
    ensures ValidCurve(r)
    ensures |r.keys| == |c.keys| - 1
    ensures forall j :: 0 <= j < i ==> r.keys[j] == c.keys[j]
    ensures forall j :: i < j < |c.keys| ==> r.keys[j - 1] == c.keys[j]
    ensures GetKey(r.keys, c.keys[i].time).None?
    ensures c.headKey.Some? && c.headKey != Some(i) ==> r.headKey.Some? && r.keys[r.headKey.value] == c.keys[c.headKey.value]
    ensures c.tailKey.Some? && c.tailKey != Some(i) ==> r.tailKey.Some? && r.keys[r.tailKey.value] == c.keys[c.tailKey.value]
  {
    var keys := Without(c.keys, i);
    WithoutKeepsUniqueTimes(c.keys, i);
    var head, tail := Shifted(c.headKey, i), Shifted(c.tailKey, i);
    assert head.Some? ==> keys[head.value] == c.keys[c.headKey.value];
    assert tail.Some? ==> keys[tail.value] == c.keys[c.tailKey.value];
    EaseCurve(keys, head, tail)
  }

  /** `s` with its element at index `i` taken out. */
  function Without<T>(s: seq<T>, i: nat): (r: seq<T>)
    requires i < |s|
    ensures |r| == |s| - 1
    ensures forall j :: 0 <= j < i ==> r[j] == s[j]
    ensures forall j :: i <= j < |r| ==> r[j] == s[j + 1]
  {
    s[..i] + s[i + 1..]
  }

  lemma WithoutKeepsUniqueTimes(keys: seq<EaseKey>, i: nat)
    requires i < |keys| && UniqueTimes(keys)
    ensures UniqueTimes(Without(keys, i))
    ensures forall j :: 0 <= j < |Without(keys, i)| ==> Without(keys, i)[j].time != keys[i].time
  {
    var r := Without(keys, i);
    forall a, b | 0 <= a < b < |r| ensures r[a].time != r[b].time {
      var a' := if a < i then a else a + 1;
      var b' := if b < i then b else b + 1;
      assert r[a] == keys[a'] && r[b] == keys[b'];
    }
    forall j | 0 <= j < |r| ensures r[j].time != keys[i].time {
      var j' := if j < i then j else j + 1;
      assert r[j] == keys[j'];
    }
  }

  // ---------------------------------------------------------------------------
  // addPointToEnd / addEasePointToEnd
  // ---------------------------------------------------------------------------

  /** The outcome of an extension call: the path afterwards, and whether the call threw
      `IllegalArgumentException`, or failed on a missing tail point (any change made
      before the throw remains). */
  datatype Edit = Edit(path: Path2D, threw: bool)

  function CountTrue(bs: seq<bool>): (n: nat)
    ensures n <= |bs|
    ensures n == 0 <==> forall i :: 0 <= i < |bs| ==> !bs[i]
  {
    if |bs| == 0 then 0 else (if bs[0] then 1 else 0) + CountTrue(bs[1..])
  }

  /** The three configurations `addPointToEnd` looks at, in its order. */
  function PointShapes(angle: Option<real>, magnitude: Option<real>,
                       xTangent: Option<real>, yTangent: Option<real>): seq<bool>
  {
    [angle.None? && magnitude.None? && xTangent.None? && yTangent.None?,
     angle.Some? && magnitude.Some?,
     xTangent.Some? && yTangent.Some?]
  }

  /** Legal exactly when one configuration holds (`singleOrNull { it } != null`). */
  predicate LegalPointArgs(angle: Option<real>, magnitude: Option<real>,
                           xTangent: Option<real>, yTangent: Option<real>)
  {
    CountTrue(PointShapes(angle, magnitude, xTangent, yTangent)) == 1
  }

  /** The point appended for legal arguments: angle and magnitude win over tangents. */
  function PointKindOf(angle: Option<real>, magnitude: Option<real>,
                       xTangent: Option<real>, yTangent: Option<real>): (k: PointKind)
    ensures angle.Some? && magnitude.Some? ==> k == AngleAndMagnitude(angle.value, magnitude.value)
    ensures !(angle.Some? && magnitude.Some?) && xTangent.Some? && yTangent.Some? ==>
      k == Tangent(xTangent.value, yTangent.value)
    ensures !(angle.Some? && magnitude.Some?) && !(xTangent.Some? && yTangent.Some?) ==> k == Plain
  {
    match (angle, magnitude, xTangent, yTangent)
    case (Some(a), Some(m), _, _) => AngleAndMagnitude(a, m)
    case (_, _, Some(xt), Some(yt)) => Tangent(xt, yt)
    case _ => Plain
  }

  /** `Path2D.addPointToEnd`: throws on an illegal configuration, otherwise appends one
      point of the selected kind and leaves everything else alone. */
  function AddPointToEnd(path: Path2D, x: real, y: real, angle: Option<real>, magnitude: Option<real>,
                         xTangent: Option<real>, yTangent: Option<real>): (e: Edit)
    ensures e.threw <==> !LegalPointArgs(angle, magnitude, xTangent, yTangent)
    ensures e.threw ==> e.path == path
    ensures !e.threw ==>
      |e.path.points| == |path.points| + 1
      && e.path.points[..|path.points|] == path.points
      && e.path.points[|path.points|] == PathPoint(x, y, PointKindOf(angle, magnitude, xTangent, yTangent))
      && e.path.ease == path.ease && e.path.duration == path.duration
  {
    if !LegalPointArgs(angle, magnitude, xTangent, yTangent) then Edit(path, true)
    else
      var p := PathPoint(x, y, PointKindOf(angle, magnitude, xTangent, yTangent));
      var pts := path.points + [p];
      assert pts[..|path.points|] == path.points;
      Edit(path.(points := pts), false)
  }

  /** The shapes the error message admits: nothing, a complete pair, or a complete pair
      beside a half of the other pair. */
  predicate AdmittedShape(angle: Option<real>, magnitude: Option<real>,
                          xTangent: Option<real>, yTangent: Option<real>)
  {
    (angle.None? && magnitude.None? && xTangent.None? && yTangent.None?)
    || (angle.Some? && magnitude.Some? && !(xTangent.Some? && yTangent.Some?))
    || (xTangent.Some? && yTangent.Some? && !(angle.Some? && magnitude.Some?))
  }

  /** The counting rule is the same as: no argument, or exactly one complete pair. */
  lemma LegalPointArgsCharacterised(angle: Option<real>, magnitude: Option<real>,
                                    xTangent: Option<real>, yTangent: Option<real>)
    ensures LegalPointArgs(angle, magnitude, xTangent, yTangent)
        <==> AdmittedShape(angle, magnitude, xTangent, yTangent)
  {
    var s := PointShapes(angle, magnitude, xTangent, yTangent);
    assert CountTrue(s) == (if s[0] then 1 else 0) + (if s[1] then 1 else 0) + (if s[2] then 1 else 0) by {
      assert s[1..][1..][1..] == [];
    }
  }

  /** A lone half pair with nothing else throws; so do both pairs at once. */
  lemma RejectedShapes(x: real, y: real, v: real, w: real, path: Path2D)
    ensures AddPointToEnd(path, x, y, Some(v), None, None, None).threw
    ensures AddPointToEnd(path, x, y, None, Some(v), None, None).threw
    ensures AddPointToEnd(path, x, y, None, None, Some(v), None).threw
    ensures AddPointToEnd(path, x, y, Some(v), Some(w), Some(v), Some(w)).threw
  {
    LegalPointArgsCharacterised(Some(v), None, None, None);
    LegalPointArgsCharacterised(None, Some(v), None, None);
    LegalPointArgsCharacterised(None, None, Some(v), None);
    LegalPointArgsCharacterised(Some(v), Some(w), Some(v), Some(w));
  }

  /** A stray half pair beside a complete pair of the other kind is accepted and ignored,
      although the exception's message calls such a half illegal. */
  lemma StrayHalfIgnored(path: Path2D, x: real, y: real, a: real, m: real, t: real, u: real)
    ensures var e := AddPointToEnd(path, x, y, Some(a), None, Some(t), Some(u));
      !e.threw && e.path.points[|path.points|].kind == Tangent(t, u)
    ensures var e := AddPointToEnd(path, x, y, Some(a), Some(m), Some(t), None);
      !e.threw && e.path.points[|path.points|].kind == AngleAndMagnitude(a, m)
  {
    LegalPointArgsCharacterised(Some(a), None, Some(t), Some(u));
    LegalPointArgsCharacterised(Some(a), Some(m), Some(t), None);
  }

  /** `addEasePointToEnd` demands a slope and a magnitude together or neither. */
  predicate LegalEaseArgs(slope: Option<real>, magnitude: Option<real>) {
    CountTrue([slope.None? && magnitude.None?, slope.Some? && magnitude.Some?]) == 1
  }

  /** `Path2D.addEasePointToEnd`: throws unless slope and magnitude are both given or both
      absent, otherwise stores the key with the matching shape. */
  function AddEasePointToEnd(path: Path2D, time: real, value: real,
                             slope: Option<real>, magnitude: Option<real>): (e: Edit)
    requires ValidCurve(path.ease)
    ensures ValidCurve(e.path.ease)
    ensures e.threw <==> slope.Some? != magnitude.Some?
    ensures e.threw ==> e.path == path
    ensures !e.threw ==>
      var i := GetKey(e.path.ease.keys, time);
      i.Some? && e.path.ease.keys[i.value]
        == EaseKey(time, value, EaseKindOf(slope, magnitude))
    ensures !e.threw ==> e.path.points == path.points && e.path.duration == path.duration
    ensures !e.threw ==> |e.path.ease.keys| >= |path.ease.keys|
    ensures !e.threw ==> forall j :: 0 <= j < |path.ease.keys| && path.ease.keys[j].time != time ==>
      e.path.ease.keys[j] == path.ease.keys[j]
  {
    var shapes := [slope.None? && magnitude.None?, slope.Some? && magnitude.Some?];
    assert CountTrue(shapes) == (if shapes[0] then 1 else 0) + (if shapes[1] then 1 else 0) by {
      assert shapes[1..][1..] == [];
    }
    if !LegalEaseArgs(slope, magnitude) then Edit(path, true)
    else
      Edit(path.(ease := StoreKey(path.ease, EaseKey(time, value, EaseKindOf(slope, magnitude)))), false)
  }

  // ---------------------------------------------------------------------------
  // updateEndpoint / updateEaseEndpoint
  // ---------------------------------------------------------------------------

  /** The points once `updateEndpoint` has dropped the tail: only when the tail is not
      also the head, that is when there are at least two points. */
  function WithoutTail(points: seq<PathPoint>): (r: seq<PathPoint>)
    ensures |points| >= 2 ==> r == points[..|points| - 1]
    ensures |points| < 2 ==> r == points
  {
    if |points| >= 2 then points[..|points| - 1] else points
  }

  /** `Path2D.updateEndpoint`: log the old tail point, drop it unless it is the only
      one, then `addPointToEnd`. On an empty curve there is no tail point, so the log
      line itself fails and nothing is changed. The drop is not undone when the add
      throws. */
  function UpdateEndpoint(path: Path2D, x: real, y: real, angle: Option<real>, magnitude: Option<real>,
                          xTangent: Option<real>, yTangent: Option<real>): (e: Edit)
    ensures e.threw <==> |path.points| == 0 || !LegalPointArgs(angle, magnitude, xTangent, yTangent)
    ensures |path.points| == 0 ==> e.path == path
    ensures e.threw ==> e.path.points == WithoutTail(path.points)
    ensures !e.threw ==>
      var n := |path.points|;
      (n >= 2 ==> |e.path.points| == n && e.path.points[..n - 1] == path.points[..n - 1])
      && (n == 1 ==> |e.path.points| == 2 && e.path.points[..1] == path.points)
      && e.path.points[|e.path.points| - 1] == PathPoint(x, y, PointKindOf(angle, magnitude, xTangent, yTangent))
    ensures e.path.ease == path.ease && e.path.duration == path.duration
  {
    if |path.points| == 0 then Edit(path, true)
    else AddPointToEnd(path.(points := WithoutTail(path.points)), x, y, angle, magnitude, xTangent, yTangent)
  }

  /** Once a path has a point, updating the endpoint twice with the same arguments is the
      same as doing it once; on an empty path it is not (the first call adds the head). */
  lemma UpdateEndpointIdempotent(path: Path2D, x: real, y: real, angle: Option<real>, magnitude: Option<real>,
                                 xTangent: Option<real>, yTangent: Option<real>)
    requires |path.points| >= 1
    requires LegalPointArgs(angle, magnitude, xTangent, yTangent)
    ensures var once := UpdateEndpoint(path, x, y, angle, magnitude, xTangent, yTangent);
      UpdateEndpoint(once.path, x, y, angle, magnitude, xTangent, yTangent).path.points == once.path.points
  {
    var once := UpdateEndpoint(path, x, y, angle, magnitude, xTangent, yTangent);
    var twice := UpdateEndpoint(once.path, x, y, angle, magnitude, xTangent, yTangent);
    var n := |once.path.points|;
    assert n >= 2;
    assert twice.path.points[..n - 1] == once.path.points[..n - 1];
    assert twice.path.points[n - 1] == once.path.points[n - 1];
    assert twice.path.points == twice.path.points[..n - 1] + [twice.path.points[n - 1]];
    assert once.path.points == once.path.points[..n - 1] + [once.path.points[n - 1]];
  }

  /** On a path with no points the endpoint update fails before changing anything,
      whatever the arguments; on a one-point path it appends a second point. */
  lemma UpdateEndpointOnEmptyPathFails(x: real, y: real, angle: Option<real>, magnitude: Option<real>,
                                       xTangent: Option<real>, yTangent: Option<real>, p: PathPoint)
    ensures UpdateEndpoint(NewPath(), x, y, angle, magnitude, xTangent, yTangent) == Edit(NewPath(), true)
    ensures var one := NewPath().(points := [p]);
      |UpdateEndpoint(one, x, y, None, None, None, None).path.points| == 2
  {
  }

  /** Whether `updateEaseEndpoint` removes the tail key first: the tail and head
      references differ (and so the curve has a tail key). */
  predicate RemovesTail(c: EaseCurve) {
    c.tailKey.Some? && c.tailKey != c.headKey
  }

  /** The ease key shape `addEasePointToEnd` stores for legal arguments. */
  function EaseKindOf(slope: Option<real>, magnitude: Option<real>): (k: EaseKind)
    ensures slope.Some? && magnitude.Some? ==> k == SlopeAndMagnitude(slope.value, magnitude.value)
    ensures !(slope.Some? && magnitude.Some?) ==> k == PlainKey
  {
    match (slope, magnitude)
    case (Some(s), Some(m)) => SlopeAndMagnitude(s, m)
    case _ => PlainKey
  }

  /** `Path2D.updateEaseEndpoint`: drop the tail key when the tail and head references
      differ, then `addEasePointToEnd`. The drop is not undone when the add throws. */
  function UpdateEaseEndpoint(path: Path2D, time: real, value: real,
                              slope: Option<real>, magnitude: Option<real>): (e: Edit)
    requires ValidCurve(path.ease)
    ensures ValidCurve(e.path.ease)
    ensures e.threw <==> slope.Some? != magnitude.Some?
    ensures !e.threw ==>
      var i := GetKey(e.path.ease.keys, time);
      i.Some? && e.path.ease.keys[i.value] == EaseKey(time, value, EaseKindOf(slope, magnitude))
    ensures e.path.points == path.points && e.path.duration == path.duration
    ensures e.threw && RemovesTail(path.ease) ==>
      |e.path.ease.keys| == |path.ease.keys| - 1
      && e.path.ease.keys == Without(path.ease.keys, path.ease.tailKey.value)
    ensures e.threw && !RemovesTail(path.ease) ==> e.path == path
    ensures RemovesTail(path.ease) && path.ease.keys[path.ease.tailKey.value].time != time
            ==> GetKey(e.path.ease.keys, path.ease.keys[path.ease.tailKey.value].time).None?
    ensures !RemovesTail(path.ease) ==> |e.path.ease.keys| >= |path.ease.keys|
    ensures forall j :: 0 <= j < |path.ease.keys| && path.ease.keys[j].time != time
                        && !(RemovesTail(path.ease) && j == path.ease.tailKey.value)
                        ==> path.ease.keys[j] in e.path.ease.keys
  {
    var c := path.ease;
    var trimmed := if RemovesTail(c) then RemoveKey(c, c.tailKey.value) else c;
    var e := AddEasePointToEnd(path.(ease := trimmed), time, value, slope, magnitude);
    if RemovesTail(c) then
      var t := c.tailKey.value;
      RemovedKeysSurvive(c.keys, t, e.path.ease.keys, time);
      if c.keys[t].time != time && !e.threw then
        StoreKeepsAbsentTime(trimmed, e.path.ease, time, c.keys[t].time);
        e
      else e
    else
      KeptKeysSurvive(c.keys, e.path.ease.keys, time);
      e
  }

  /** Keys kept in place by a store at `time` are still present after it. */
  lemma KeptKeysSurvive(before: seq<EaseKey>, after: seq<EaseKey>, time: real)
    requires forall j :: 0 <= j < |before| && before[j].time != time ==> j < |after| && after[j] == before[j]
    ensures forall j :: 0 <= j < |before| && before[j].time != time ==> before[j] in after
  {
    forall j | 0 <= j < |before| && before[j].time != time ensures before[j] in after {
      assert after[j] == before[j];
    }
  }

  /** Keys other than the removed one, kept in place by a later store at `time`, are
      still present after both. */
  lemma RemovedKeysSurvive(keys: seq<EaseKey>, t: nat, after: seq<EaseKey>, time: real)
    requires t < |keys|
    requires forall j :: 0 <= j < |Without(keys, t)| && Without(keys, t)[j].time != time ==>
      j < |after| && after[j] == Without(keys, t)[j]
    ensures forall j :: 0 <= j < |keys| && keys[j].time != time && j != t ==> keys[j] in after
  {
    var w := Without(keys, t);
    forall j | 0 <= j < |keys| && keys[j].time != time && j != t ensures keys[j] in after {
      var j' := if j < t then j else j - 1;
      assert w[j'] == keys[j];
      assert after[j'] == w[j'];
    }
  }

  /** A time absent before an ease-key store at another time is still absent after it. */
  lemma StoreKeepsAbsentTime(before: EaseCurve, after: EaseCurve, time: real, t: real)
    requires t != time
    requires GetKey(before.keys, t).None?
    requires forall j :: 0 <= j < |after.keys| ==>
      after.keys[j].time == time || (j < |before.keys| && after.keys[j] == before.keys[j])
    ensures GetKey(after.keys, t).None?
  {
    forall j | 0 <= j < |after.keys| ensures after.keys[j].time != t {
      if after.keys[j].time != time {
        assert before.keys[j].time != t;
      }
    }
  }
}
