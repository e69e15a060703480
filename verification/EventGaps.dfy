/** The largest stretch of a measurement window without an event. */
module EventGaps {
  import opened Basics

  ghost predicate Ordered(values: seq<real>) {
    forall i, j :: 0 <= i <= j < |values| ==> values[i] <= values[j]
  }

  ghost predicate InWindow(values: seq<real>, start: real, end: real) {
    start < end && Ordered(values) && forall i :: 0 <= i < |values| ==> start <= values[i] <= end
  }

  /** The largest difference of neighbours. */
  function LargestStep(points: seq<real>): real
    requires |points| >= 2
  {
    var last := points[|points| - 1] - points[|points| - 2];
    if |points| == 2 then last
    else
      var rest := LargestStep(points[..|points| - 1]);
      if rest < last then last else rest
  }

  lemma StepSnoc(points: seq<real>, x: real)
    requires points != []
    ensures LargestStep(points + [x]) == (
              var last := x - points[|points| - 1];
              if |points| == 1 || LargestStep(points) < last then last else LargestStep(points))
  {
    assert (points + [x])[..|points|] == points;
  }

  lemma OrderedSnoc(values: seq<real>, i: nat)
    requires i < |values|
    ensures values[..i + 1] == values[..i] + [values[i]]
    ensures Ordered(values[..i + 1]) <==> Ordered(values[..i]) && (i > 0 ==> values[i - 1] <= values[i])
  {
    var front, all := values[..i], values[..i + 1];
    assert all[..i] == front;
    if Ordered(all) {
      forall j, k | 0 <= j <= k < i ensures front[j] <= front[k] { assert all[j] <= all[k]; }
      if i > 0 { assert all[i - 1] <= all[i]; }
    }
    if Ordered(front) && (i > 0 ==> values[i - 1] <= values[i]) {
      forall j, k | 0 <= j <= k < i + 1 ensures all[j] <= all[k] {
        if j < i { assert front[j] <= front[i - 1]; }
      }
    }
  }

  lemma OrderedPrefix(values: seq<real>, i: nat)
    requires i <= |values|
    ensures Ordered(values) ==> Ordered(values[..i])
    ensures Ordered([])
  {
  }

  /** None stands for infinity: an empty window, an event outside it, or events out of order. */
  method MaximumEventGap(values: seq<real>, start: real, end: real) returns (gap: Option<real>)
    ensures gap.Some? <==> InWindow(values, start, end)
    ensures gap.Some? ==> gap.value == LargestStep([start] + values + [end])
  {
    hide LargestStep, Ordered;
    if end <= start {
      return None;
    }
    var previous, largest := start, 0.0;
    OrderedPrefix(values, 0);
    for i := 0 to |values|
      invariant forall k :: 0 <= k < i ==> start <= values[k] <= end
      invariant previous == ([start] + values[..i])[i] && Ordered(values[..i])
      invariant i > 0 ==> largest == LargestStep([start] + values[..i])
    {
      OrderedSnoc(values, i);
      if values[i] < start || values[i] > end {
        return None;
      }
      if i > 0 && values[i] < previous {
        OrderedPrefix(values, i + 1);
        return None;
      }
      ghost var points := [start] + values[..i];
      StepSnoc(points, values[i]);
      assert points + [values[i]] == [start] + values[..i + 1];
      largest := if i == 0 || largest < values[i] - previous then values[i] - previous else largest;
      previous := values[i];
    }
    assert values[..|values|] == values;
    StepSnoc([start] + values, end);
    return Some(if |values| == 0 || largest < end - previous then end - previous else largest);
  }

  ghost predicate Between(values: seq<real>, a: real, b: real) {
    exists i :: 0 <= i < |values| && a < values[i] < b
  }

  /** Every stretch of the points longer than `g` has a point strictly inside. */
  ghost predicate Covered(points: seq<real>, g: real) {
    forall a, b :: Within(points, a, b, g) ==> Between(points, a, b)
  }

  ghost predicate Within(points: seq<real>, a: real, b: real, g: real) {
    points != [] && points[0] <= a && b <= points[|points| - 1] && a + g < b
  }

  lemma {:induction false} StepsAreGaps(points: seq<real>, g: real)
    requires |points| >= 2 && Ordered(points) && g >= 0.0
    ensures LargestStep(points) <= g <==> forall i :: 0 < i < |points| ==> Step(points, i) <= g
  {
    var n := |points| - 1;
    if n > 1 {
      var front := points[..n];
      StepsAreGaps(front, g);
      assert forall i :: 0 < i < n ==> Step(front, i) == Step(points, i);
    }
    assert Step(points, n) == points[n] - points[n - 1];
  }

  function Step(points: seq<real>, i: nat): real
    requires 0 < i < |points|
  {
    points[i] - points[i - 1]
  }

  /** The index of the last point not after `a`. */
  lemma {:induction false} LastNotAfter(points: seq<real>, a: real) returns (i: nat)
    requires points != [] && Ordered(points) && points[0] <= a
    ensures i < |points| && points[i] <= a && (i + 1 < |points| ==> a < points[i + 1])
    decreases |points|
  {
    var n := |points| - 1;
    if points[n] <= a {
      i := n;
    } else {
      i := LastNotAfter(points[..n], a);
    }
  }

  /** The largest gap is at most `g` exactly when no longer stretch of the window is without an event. */
  lemma GapIsLongestSilence(values: seq<real>, start: real, end: real, g: real)
    requires InWindow(values, start, end) && g >= 0.0
    ensures LargestStep([start] + values + [end]) <= g <==> Covered([start] + values + [end], g)
  {
    var points := [start] + values + [end];
    StepsAreGaps(points, g);
    if forall i :: 0 < i < |points| ==> Step(points, i) <= g {
      forall a, b | Within(points, a, b, g) ensures Between(points, a, b) {
        var i := LastNotAfter(points, a);
        assert Step(points, i + 1) <= g;
      }
    }
    if Covered(points, g) {
      forall i | 0 < i < |points| ensures Step(points, i) <= g {
        if Step(points, i) > g {
          assert Within(points, points[i - 1], points[i], g);
        }
      }
    }
  }
}
