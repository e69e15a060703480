/**
 Every field of the motion report in terms of the observed samples: sums over the samples, counts of
 them, and the fastest of them.
 */
module MotionFacts {
  import opened Basics
  import opened MotionTracker

  function SumOf(terms: seq<real>): real {
    if terms == [] then 0.0 else terms[0] + SumOf(terms[1..])
  }

  lemma {:induction false} SumSnoc(terms: seq<real>, last: real)
    ensures SumOf(terms + [last]) == SumOf(terms) + last
  {
    if terms != [] {
      SumSnoc(terms[1..], last);
      assert (terms + [last])[1..] == terms[1..] + [last];
    }
  }

  // ----- time under control -----

  /** For each active decision, the time to the next decision, or to the end of the window. */
  function ActiveTimes(samples: seq<Sample>, until: real): seq<real> {
    seq(|samples|, i requires 0 <= i < |samples| =>
      if !samples[i].active then 0.0
      else (if i == |samples| - 1 then until else samples[i + 1].decided) - samples[i].decided)
  }

  lemma {:induction false} ActiveWallIsSum(samples: seq<Sample>, until: real)
    ensures ActiveWall(samples, until) == SumOf(ActiveTimes(samples, until))
    decreases |samples|
  {
    if samples != [] {
      var n := |samples| - 1;
      var front, all := ActiveTimes(samples[..n], samples[n].decided), ActiveTimes(samples, until);
      ActiveWallIsSum(samples[..n], samples[n].decided);
      assert front == all[..n];
      SumSnoc(front, all[n]);
      assert all == front + [all[n]];
    }
  }

  // ----- distances -----

  /** From one sample's position to the next; the first leg begins at the start. */
  function Leg(start: Vec2, samples: seq<Sample>, i: nat): Vec2
    requires i < |samples|
  {
    var from := if i == 0 then start else samples[i - 1].position;
    Vec2(samples[i].position.x - from.x, samples[i].position.y - from.y)
  }

  predicate Steered(s: Sample) {
    s.active && s.controlled && !s.contact
  }

  function LegLengths(norm: Vec2 -> real, start: Vec2, samples: seq<Sample>): seq<real> {
    seq(|samples|, i requires 0 <= i < |samples| => norm(Leg(start, samples, i)))
  }

  /** The legs under undisturbed control; any other counts as zero. */
  function SteeredLengths(norm: Vec2 -> real, start: Vec2, samples: seq<Sample>): seq<real> {
    seq(|samples|, i requires 0 <= i < |samples| =>
      if Steered(samples[i]) then norm(Leg(start, samples, i)) else 0.0)
  }

  function SteeredX(start: Vec2, samples: seq<Sample>): seq<real> {
    seq(|samples|, i requires 0 <= i < |samples| => if Steered(samples[i]) then Leg(start, samples, i).x else 0.0)
  }

  function SteeredY(start: Vec2, samples: seq<Sample>): seq<real> {
    seq(|samples|, i requires 0 <= i < |samples| => if Steered(samples[i]) then Leg(start, samples, i).y else 0.0)
  }

  lemma LastLeg(start: Vec2, samples: seq<Sample>)
    requires samples != []
    ensures Step(start, samples) == Leg(start, samples, |samples| - 1)
    ensures forall i :: 0 <= i < |samples| - 1 ==> Leg(start, samples[..|samples| - 1], i) == Leg(start, samples, i)
  {
  }

  lemma {:induction false} PathIsSum(norm: Vec2 -> real, start: Vec2, samples: seq<Sample>)
    ensures Path(norm, start, samples) == SumOf(LegLengths(norm, start, samples))
    ensures ControlledPath(norm, start, samples) == SumOf(SteeredLengths(norm, start, samples))
  {
    hide Step, Leg;
    if samples != [] {
      var n := |samples| - 1;
      PathIsSum(norm, start, samples[..n]);
      LastLeg(start, samples);
      var lengths, steered := LegLengths(norm, start, samples), SteeredLengths(norm, start, samples);
      assert LegLengths(norm, start, samples[..n]) == lengths[..n];
      assert SteeredLengths(norm, start, samples[..n]) == steered[..n];
      SumSnoc(lengths[..n], lengths[n]);
      SumSnoc(steered[..n], steered[n]);
      assert lengths == lengths[..n] + [lengths[n]] && steered == steered[..n] + [steered[n]];
    }
  }

  lemma {:induction false} DisplacementIsSum(start: Vec2, samples: seq<Sample>)
    ensures ControlledDisplacement(start, samples) ==
              Vec2(SumOf(SteeredX(start, samples)), SumOf(SteeredY(start, samples)))
  {
    hide Step, Leg;
    if samples != [] {
      var n := |samples| - 1;
      DisplacementIsSum(start, samples[..n]);
      LastLeg(start, samples);
      var xs, ys := SteeredX(start, samples), SteeredY(start, samples);
      assert SteeredX(start, samples[..n]) == xs[..n] && SteeredY(start, samples[..n]) == ys[..n];
      SumSnoc(xs[..n], xs[n]);
      SumSnoc(ys[..n], ys[n]);
      assert xs == xs[..n] + [xs[n]] && ys == ys[..n] + [ys[n]];
    }
  }

  // ----- counts and maxima -----

  ghost function ActiveOnes(samples: seq<Sample>): set<nat> {
    set i | 0 <= i < |samples| && samples[i].active
  }

  ghost function TouchingOnes(samples: seq<Sample>): set<nat> {
    set i | 0 <= i < |samples| && samples[i].contact
  }

  ghost function SteeredOnes(samples: seq<Sample>): set<nat> {
    set i | 0 <= i < |samples| && Steered(samples[i])
  }

  lemma OnesSnoc(samples: seq<Sample>)
    requires samples != []
    ensures var n := |samples| - 1;
            var front := samples[..n];
            && ActiveOnes(samples) == ActiveOnes(front) + (if samples[n].active then {n} else {})
            && TouchingOnes(samples) == TouchingOnes(front) + (if samples[n].contact then {n} else {})
            && SteeredOnes(samples) == SteeredOnes(front) + (if Steered(samples[n]) then {n} else {})
            && n !in ActiveOnes(front) && n !in TouchingOnes(front) && n !in SteeredOnes(front)
  {
  }

  lemma {:induction false} CountsAre(samples: seq<Sample>)
    ensures CountOf(samples, Active) == |ActiveOnes(samples)|
    ensures CountOf(samples, Touched) == |TouchingOnes(samples)|
    ensures CountOf(samples, Counts) == |SteeredOnes(samples)|
  {
    if samples == [] {
      assert ActiveOnes([]) == TouchingOnes([]) == SteeredOnes([]) == {};
    } else {
      CountsAre(samples[..|samples| - 1]);
      OnesSnoc(samples);
      hide ActiveOnes, TouchingOnes, SteeredOnes;
    }
  }

  /** The largest speed of the chosen samples, or zero when none is faster than that. */
  ghost predicate IsFastest(norm: Vec2 -> real, samples: seq<Sample>, steeredOnly: bool, speed: real) {
    && speed >= 0.0
    && (forall i :: 0 <= i < |samples| && (steeredOnly ==> Steered(samples[i])) ==> norm(samples[i].velocity) <= speed)
    && (speed == 0.0 || exists i ::
          0 <= i < |samples| && (steeredOnly ==> Steered(samples[i])) && norm(samples[i].velocity) == speed)
  }

  lemma {:induction false} FastestIs(norm: Vec2 -> real, samples: seq<Sample>, steeredOnly: bool)
    ensures IsFastest(norm, samples, steeredOnly, Fastest(norm, samples, steeredOnly))
  {
    if samples != [] {
      var n := |samples| - 1;
      var front := samples[..n];
      FastestIs(norm, front, steeredOnly);
      var before, speed := Fastest(norm, front, steeredOnly), Fastest(norm, samples, steeredOnly);
      assert forall i :: 0 <= i < n ==> front[i] == samples[i];
      if speed == before && before != 0.0 {
        var i :| 0 <= i < |front| && (steeredOnly ==> Steered(front[i])) && norm(front[i].velocity) == before;
        assert samples[i] == front[i];
      }
    }
  }

  // ----- the report -----

  /** What each field of a report is. The base's path includes the leg from the last sample to the end position. */
  lemma ReportMeans(norm: Vec2 -> real, w: Window, samples: seq<Sample>, end: WindowEnd)
    requires w.timeStep > 0.0 && end.wall > w.wall
    ensures var r := ReportOf(norm, w, samples, end);
            var last := if samples == [] then w.position else samples[|samples| - 1].position;
            && r.timeStep == w.timeStep && r.steps == end.steps - w.steps
            && r.simDuration == (end.simTime - w.simTime) as real / 1000000000.0
            && r.wallDuration == end.wall - w.wall && r.ratio == r.simDuration / r.wallDuration
            && r.controlSteps == |ActiveOnes(samples)|
            && r.contactSteps == |TouchingOnes(samples)|
            && r.controlledSteps == |SteeredOnes(samples)|
            && r.controlSim == r.controlSteps as real * w.timeStep
            && r.controlledSim == r.controlledSteps as real * w.timeStep
            && r.controlWall == SumOf(ActiveTimes(samples, end.wall))
            && r.basePath == SumOf(LegLengths(norm, w.position, samples)) +
                 norm(Vec2(end.position.x - last.x, end.position.y - last.y))
            && r.baseDisplacement == norm(Vec2(end.position.x - w.position.x, end.position.y - w.position.y))
            && r.controlledPath == SumOf(SteeredLengths(norm, w.position, samples))
            && r.controlledDisplacement ==
                 norm(Vec2(SumOf(SteeredX(w.position, samples)), SumOf(SteeredY(w.position, samples))))
            && IsFastest(norm, samples, false, r.baseMaxSpeed) && IsFastest(norm, samples, true, r.controlledMaxSpeed)
            && r.baseMeanSpeed == (if r.simDuration > 0.0 then r.basePath / r.simDuration else 0.0)
            && r.controlledMeanSpeed == (if r.controlledSim > 0.0 then r.controlledPath / r.controlledSim else 0.0)
  {
    hide Path, ControlledPath, ControlledDisplacement, Fastest, CountOf, ActiveWall, SumOf, ActiveTimes, LegLengths,
      SteeredLengths, SteeredX, SteeredY, IsFastest;
    PathIsSum(norm, w.position, samples);
    DisplacementIsSum(w.position, samples);
    ActiveWallIsSum(samples, end.wall);
    FastestIs(norm, samples, false);
    FastestIs(norm, samples, true);
    CountsAre(samples);
  }

  predicate Near(a: real, b: real, slack: real) {
    a <= b + slack && b <= a + slack
  }

  /** What the consistency gates guarantee of any report that passes them, of a tracker or not. */
  lemma GatesHold(r: Report)
    requires r.wallDuration > 0.0 && r.controlledSim > 0.0 && r.simDuration > 0.0 && ConsistencyGates(r) == None
    ensures r.controlledSteps <= r.controlSteps <= r.steps
    ensures Near(r.controlSim, r.controlSteps as real * r.timeStep, 0.000000001)
    ensures Near(r.controlledSim, r.controlledSteps as real * r.timeStep, 0.000000001)
    ensures 0.0 <= r.controlWall <= r.wallDuration + 0.000000001
    ensures 0.0 <= r.controlledDisplacement <= r.controlledPath + 0.000000001
    ensures 0.0 <= r.baseDisplacement <= r.basePath + 0.000000001
    ensures r.timeStep >= 0.0 && r.controlledMaxSpeed >= 0.0 && r.baseMaxSpeed >= 0.0
    ensures IsClose(r.ratio, r.simDuration / r.wallDuration, 0.000000001, 0.000000001)
    ensures IsClose(r.controlledMeanSpeed, r.controlledPath / r.controlledSim, 0.000000001, 0.000000001)
    ensures IsClose(r.baseMeanSpeed, r.basePath / r.simDuration, 0.000000001, 0.000000001)
  {
  }
}
