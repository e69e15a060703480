/**
 The motion evidence of one normal-load window: the tracker that the simulation runtime updates once
 per physics step, and the consistency gates that the verifier later applies to its report.
 Horizontal length is any norm; the original uses `math.hypot`.
 */
module MotionTracker {
  import opened Basics

  datatype Vec2 = Vec2(x: real, y: real)

  function Minus(a: Vec2, b: Vec2): Vec2 {
    Vec2(a.x - b.x, a.y - b.y)
  }

  function Plus(a: Vec2, b: Vec2): Vec2 {
    Vec2(a.x + b.x, a.y + b.y)
  }

  const ORIGIN := Vec2(0.0, 0.0)

  ghost predicate IsNorm(norm: Vec2 -> real) {
    && (forall a :: norm(a) >= 0.0)
    && norm(ORIGIN) == 0.0
    && (forall a, b :: norm(Plus(a, b)) <= norm(a) + norm(b))
  }

  lemma Triangle(norm: Vec2 -> real, a: Vec2, b: Vec2)
    requires IsNorm(norm)
    ensures norm(Plus(a, b)) <= norm(a) + norm(b)
  {
  }

  /** The requirement on the norm can be met. */
  lemma SumNormIsNorm()
    ensures IsNorm((a: Vec2) => Abs(a.x) + Abs(a.y))
  {
  }

  // ----- observations -----

  /** One completed physics step as the runtime reports it. */
  datatype Sample = Sample(position: Vec2, velocity: Vec2, active: bool, controlled: bool, contact: bool, decided: real)

  predicate Active(s: Sample) {
    s.active
  }

  predicate Touched(s: Sample) {
    s.contact
  }

  predicate Counts(s: Sample) {
    s.active && s.controlled && !s.contact
  }

  function Last(start: Vec2, samples: seq<Sample>): Vec2 {
    if samples == [] then start else samples[|samples| - 1].position
  }

  function Step(start: Vec2, samples: seq<Sample>): Vec2
    requires samples != []
  {
    var n := |samples| - 1;
    Minus(samples[n].position, Last(start, samples[..n]))
  }

  function Path(norm: Vec2 -> real, start: Vec2, samples: seq<Sample>): real {
    if samples == [] then 0.0 else Path(norm, start, samples[..|samples| - 1]) + norm(Step(start, samples))
  }

  function ControlledPath(norm: Vec2 -> real, start: Vec2, samples: seq<Sample>): real {
    if samples == [] then 0.0
    else
      var n := |samples| - 1;
      ControlledPath(norm, start, samples[..n]) + if Counts(samples[n]) then norm(Step(start, samples)) else 0.0
  }

  function ControlledDisplacement(start: Vec2, samples: seq<Sample>): Vec2 {
    if samples == [] then ORIGIN
    else
      var n := |samples| - 1;
      var before := ControlledDisplacement(start, samples[..n]);
      if Counts(samples[n]) then Plus(before, Step(start, samples)) else before
  }

  function Fastest(norm: Vec2 -> real, samples: seq<Sample>, controlledOnly: bool): real {
    if samples == [] then 0.0
    else
      var n := |samples| - 1;
      var before, speed := Fastest(norm, samples[..n], controlledOnly), norm(samples[n].velocity);
      if (controlledOnly && !Counts(samples[n])) || speed <= before then before else speed
  }

  function CountOf(samples: seq<Sample>, p: Sample -> bool): nat {
    if samples == [] then 0
    else CountOf(samples[..|samples| - 1], p) + if p(samples[|samples| - 1]) then 1 else 0
  }

  /** Total length of the intervals, up to `until`, that follow an active decision. */
  function ActiveWall(samples: seq<Sample>, until: real): real {
    if samples == [] then 0.0
    else
      var last := samples[|samples| - 1];
      ActiveWall(samples[..|samples| - 1], last.decided) + if last.active then until - last.decided else 0.0
  }

  ghost predicate Ordered(startWall: real, samples: seq<Sample>) {
    && (forall i :: 0 <= i < |samples| ==> startWall <= samples[i].decided)
    && (forall i, j :: 0 <= i <= j < |samples| ==> samples[i].decided <= samples[j].decided)
  }

  function LastDecided(startWall: real, samples: seq<Sample>): real {
    if samples == [] then startWall else samples[|samples| - 1].decided
  }

  // ----- the report -----

  datatype Report = Report(
    timeStep: real,
    steps: int,
    simDuration: real,
    wallDuration: real,
    ratio: real,
    controlSteps: nat,
    controlSim: real,
    controlWall: real,
    controlledSteps: nat,
    controlledSim: real,
    contactSteps: nat,
    controlledDisplacement: real,
    controlledPath: real,
    controlledMeanSpeed: real,
    controlledMaxSpeed: real,
    baseDisplacement: real,
    basePath: real,
    baseMeanSpeed: real,
    baseMaxSpeed: real)

  function Seconds(nanoseconds: int): real {
    nanoseconds as real / 1000000000.0
  }

  /** The report of a whole window, as a function of its observations. */
  function ReportOf(norm: Vec2 -> real, w: Window, samples: seq<Sample>, end: WindowEnd): Report
    requires w.timeStep > 0.0 && end.wall > w.wall
  {
    var sim := Seconds(end.simTime - w.simTime);
    var control, controlled := CountOf(samples, Active), CountOf(samples, Counts);
    var controlledSim := controlled as real * w.timeStep;
    var path := Path(norm, w.position, samples) + norm(Minus(end.position, Last(w.position, samples)));
    Report(w.timeStep, end.steps - w.steps, sim, end.wall - w.wall, sim / (end.wall - w.wall),
           control, control as real * w.timeStep, ActiveWall(samples, end.wall),
           controlled, controlledSim, CountOf(samples, Touched),
           norm(ControlledDisplacement(w.position, samples)), ControlledPath(norm, w.position, samples),
           if controlledSim > 0.0 then ControlledPath(norm, w.position, samples) / controlledSim else 0.0,
           Fastest(norm, samples, true),
           norm(Minus(end.position, w.position)), path, if sim > 0.0 then path / sim else 0.0,
           Fastest(norm, samples, false))
  }

  datatype Window = Window(steps: int, simTime: int, wall: real, position: Vec2, timeStep: real)

  datatype WindowEnd = WindowEnd(steps: int, simTime: int, wall: real, position: Vec2)

  // ----- the tracker -----

  class NormalLoadMotionTracker {
    const norm: Vec2 -> real
    const window: Window
    var previousPosition: Vec2
    var pathLength: real
    var maxSpeed: real
    var controlSteps: nat
    var controlWall: real
    var previousDecision: real
    var previousActive: bool
    var controlledSteps: nat
    var controlledDisplacement: Vec2
    var controlledPath: real
    var controlledMaxSpeed: real
    var contactSteps: nat
    ghost var samples: seq<Sample>

    ghost predicate Valid()
      reads this
    {
      && window.timeStep > 0.0
      && Ordered(window.wall, samples)
      && previousPosition == Last(window.position, samples)
      && pathLength == Path(norm, window.position, samples)
      && maxSpeed == Fastest(norm, samples, false)
      && controlSteps == CountOf(samples, Active)
      && previousDecision == LastDecided(window.wall, samples)
      && controlWall == ActiveWall(samples, previousDecision)
      && previousActive == (samples != [] && samples[|samples| - 1].active)
      && controlledSteps == CountOf(samples, Counts)
      && controlledDisplacement == ControlledDisplacement(window.position, samples)
      && controlledPath == ControlledPath(norm, window.position, samples)
      && controlledMaxSpeed == Fastest(norm, samples, true)
      && contactSteps == CountOf(samples, Touched)
    }

    constructor (norm: Vec2 -> real, window: Window)
      requires window.timeStep > 0.0
      ensures Valid() && samples == [] && this.norm == norm && this.window == window
    {
      this.norm, this.window := norm, window;
      previousPosition, pathLength, maxSpeed := window.position, 0.0, 0.0;
      controlSteps, controlWall, previousDecision, previousActive := 0, 0.0, window.wall, false;
      controlledSteps, controlledDisplacement, controlledPath, controlledMaxSpeed := 0, ORIGIN, 0.0, 0.0;
      contactSteps, samples := 0, [];
    }

    /** One physics step; a decision time that moves backwards is refused before any change. */
    method ObserveStep(s: Sample) returns (ok: bool)
      requires Valid()
      modifies this
      ensures Valid() && ok == (s.decided >= old(previousDecision))
      ensures samples == if ok then old(samples) + [s] else old(samples)
    {
      hide Path, ControlledPath, ControlledDisplacement, Fastest, CountOf, ActiveWall, Last, Plus, Minus, Ordered;
      if s.decided < previousDecision {
        return false;
      }
      OneMore(norm, window.position, samples, s);
      OrderedMore(window.wall, samples, s);
      ActiveWallFrom(samples, previousDecision, s.decided);
      AccountDecision(s);
      AccountMotion(s);
      samples := samples + [s];
      return true;
    }

    /** The interval since the previous decision counts as controlled if that decision was active. */
    method AccountDecision(s: Sample)
      modifies this`controlWall, this`previousDecision, this`previousActive
      ensures controlWall == old(controlWall) + if old(previousActive) then s.decided - old(previousDecision) else 0.0
      ensures previousDecision == s.decided && previousActive == s.active
    {
      if previousActive {
        controlWall := controlWall + (s.decided - previousDecision);
      }
      previousDecision, previousActive := s.decided, s.active;
    }

    method AccountMotion(s: Sample)
      modifies this`previousPosition, this`pathLength, this`maxSpeed, this`controlSteps, this`contactSteps,
                 this`controlledSteps,
               this`controlledDisplacement, this`controlledPath, this`controlledMaxSpeed
      ensures previousPosition == s.position
      ensures var delta, speed := Minus(s.position, old(previousPosition)), norm(s.velocity);
              && pathLength == old(pathLength) + norm(delta)
              && maxSpeed == (if speed <= old(maxSpeed) then old(maxSpeed) else speed)
              && controlSteps == old(controlSteps) + (if s.active then 1 else 0)
              && contactSteps == old(contactSteps) + (if s.contact then 1 else 0)
              && controlledSteps == old(controlledSteps) + (if Counts(s) then 1 else 0)
              && controlledDisplacement ==
                   (if Counts(s) then Plus(old(controlledDisplacement), delta) else old(controlledDisplacement))
              && controlledPath == old(controlledPath) + (if Counts(s) then norm(delta) else 0.0)
              && controlledMaxSpeed == if !Counts(s) || speed <= old(controlledMaxSpeed) then old(controlledMaxSpeed)
                   else speed
    {
      var delta := Minus(s.position, previousPosition);
      var distance := norm(delta);
      pathLength := pathLength + distance;
      previousPosition := s.position;
      var speed := norm(s.velocity);
      maxSpeed := if maxSpeed < speed then speed else maxSpeed;
      if s.active {
        controlSteps := controlSteps + 1;
      }
      if s.contact {
        contactSteps := contactSteps + 1;
      }
      if s.active && s.controlled && !s.contact {
        controlledSteps := controlledSteps + 1;
        controlledDisplacement := Plus(controlledDisplacement, delta);
        controlledPath := controlledPath + distance;
        controlledMaxSpeed := if controlledMaxSpeed < speed then speed else controlledMaxSpeed;
      }
    }

    /** Freezes the evidence; None when a clock moved backwards. */
    method Finish(end: WindowEnd) returns (r: Option<Report>)
      requires Valid()
      modifies this
      ensures r.Some? <==>
                && end.steps >= window.steps && end.simTime >= window.simTime
                && end.wall > window.wall && end.wall >= old(previousDecision)
      ensures r.Some? ==> r.value == ReportOf(norm, window, old(samples), end)
    {
      var steps, sim, wall := end.steps - window.steps, Seconds(end.simTime - window.simTime), end.wall - window.wall;
      if steps < 0 || sim < 0.0 || wall <= 0.0 {
        return None;
      }
      if end.wall < previousDecision {
        return None;
      }
      ActiveWallFrom(samples, previousDecision, end.wall);
      if previousActive {
        controlWall := controlWall + (end.wall - previousDecision);
      }
      pathLength := pathLength + norm(Minus(end.position, previousPosition));
      var displacement := norm(Minus(end.position, window.position));
      var controlSim, controlledSim := controlSteps as real * window.timeStep,
        controlledSteps as real * window.timeStep;
      return Some(Report(
        window.timeStep, steps, sim, wall, sim / wall, controlSteps, controlSim, controlWall,
        controlledSteps, controlledSim, contactSteps, norm(controlledDisplacement), controlledPath,
        if controlledSim > 0.0 then controlledPath / controlledSim else 0.0, controlledMaxSpeed,
        displacement, pathLength, if sim > 0.0 then pathLength / sim else 0.0, maxSpeed));
    }
  }

  /** What one more observation adds to each running value. */
  lemma OneMore(norm: Vec2 -> real, start: Vec2, samples: seq<Sample>, s: Sample)
    ensures var all, delta := samples + [s], Minus(s.position, Last(start, samples));
            && Last(start, all) == s.position
            && Path(norm, start, all) == Path(norm, start, samples) + norm(delta)
            && ControlledPath(norm, start, all) ==
                 ControlledPath(norm, start, samples) + (if Counts(s) then norm(delta) else 0.0)
            && ControlledDisplacement(start, all) ==
                 (if Counts(s) then Plus(ControlledDisplacement(start, samples), delta)
                   else ControlledDisplacement(start, samples))
            && Fastest(norm, all, false) ==
                 (if norm(s.velocity) <= Fastest(norm, samples, false) then Fastest(norm, samples, false)
                   else norm(s.velocity))
            && Fastest(norm, all, true) ==
                 (if !Counts(s) || norm(s.velocity) <= Fastest(norm, samples, true) then Fastest(norm, samples, true)
                   else norm(s.velocity))
            && CountOf(all, Active) == CountOf(samples, Active) + (if s.active then 1 else 0)
            && CountOf(all, Touched) == CountOf(samples, Touched) + (if s.contact then 1 else 0)
            && CountOf(all, Counts) == CountOf(samples, Counts) + (if Counts(s) then 1 else 0)
            && ActiveWall(all, s.decided) == ActiveWall(samples, s.decided)
  {
    assert (samples + [s])[..|samples|] == samples;
  }

  lemma OrderedMore(startWall: real, samples: seq<Sample>, s: Sample)
    requires Ordered(startWall, samples) && LastDecided(startWall, samples) <= s.decided
    ensures Ordered(startWall, samples + [s])
  {
  }

  lemma ActiveWallFrom(samples: seq<Sample>, from: real, to: real)
    requires samples != [] ==> from == samples[|samples| - 1].decided
    ensures ActiveWall(samples, to) == ActiveWall(samples, from) + if samples != [] &&
              samples[|samples| - 1].active then to - from else 0.0
  {
  }

  // ----- producer satisfies consumer -----

  datatype GateFailure =
    | NegativeEvidence
    | RatioInconsistent
    | ControlExceedsPhysics
    | ControlDurationDiffers
    | ControlWallExceedsWindow
    | ControlledExceedsControl
    | ControlledDurationDiffers
    | ControlledPathTooShort
    | ControlledMeanInconsistent
    | BasePathTooShort
    | BaseMeanInconsistent

  const SLACK := 0.000000001

  predicate IsClose(a: real, b: real, relative: real, absolute: real) {
    var largest := if Abs(a) < Abs(b) then Abs(b) else Abs(a);
    Abs(a - b) <= (if relative * largest < absolute then absolute else relative * largest)
  }

  predicate Nonnegative(r: Report) {
    && r.timeStep >= 0.0 && r.simDuration >= 0.0 && r.wallDuration >= 0.0 && r.ratio >= 0.0 && r.controlSim >= 0.0
    && r.controlWall >= 0.0 && r.controlledSim >= 0.0 && r.controlledDisplacement >= 0.0 && r.controlledPath >= 0.0
    && r.controlledMeanSpeed >= 0.0 && r.controlledMaxSpeed >= 0.0 && r.baseDisplacement >= 0.0 && r.basePath >= 0.0
    && r.baseMeanSpeed >= 0.0 && r.baseMaxSpeed >= 0.0
  }

  /** The verifier's gates that compare fields of one report with each other, in its order. */
  function ConsistencyGates(r: Report): Option<GateFailure>
    requires r.wallDuration > 0.0 && r.controlledSim > 0.0 && r.simDuration > 0.0
  {
    if !Nonnegative(r) then Some(NegativeEvidence)
    else if !IsClose(r.ratio, r.simDuration / r.wallDuration, SLACK, SLACK) then Some(RatioInconsistent)
    else if r.controlSteps > r.steps then Some(ControlExceedsPhysics)
    else if !IsClose(r.controlSim, r.controlSteps as real * r.timeStep, 0.0, SLACK) then Some(ControlDurationDiffers)
    else if r.controlWall > r.wallDuration + SLACK then Some(ControlWallExceedsWindow)
    else if r.controlledSteps > r.controlSteps then Some(ControlledExceedsControl)
    else if !IsClose(r.controlledSim, r.controlledSteps as real * r.timeStep, 0.0, SLACK) then
      Some(ControlledDurationDiffers)
    else if r.controlledPath + SLACK < r.controlledDisplacement then Some(ControlledPathTooShort)
    else if !IsClose(r.controlledMeanSpeed, r.controlledPath / r.controlledSim, SLACK, SLACK) then
      Some(ControlledMeanInconsistent)
    else if r.basePath + SLACK < r.baseDisplacement then Some(BasePathTooShort)
    else if !IsClose(r.baseMeanSpeed, r.basePath / r.simDuration, SLACK, SLACK) then Some(BaseMeanInconsistent)
    else None
  }

  lemma {:induction false} ActiveWallBounds(startWall: real, samples: seq<Sample>, until: real)
    requires Ordered(startWall, samples) && LastDecided(startWall, samples) <= until
    ensures 0.0 <= ActiveWall(samples, until) <= until - startWall
    ensures (forall i :: 0 <= i < |samples| ==> samples[i].active) && samples != [] ==>
              ActiveWall(samples, until) == until - samples[0].decided
  {
    if samples != [] {
      var front, last := samples[..|samples| - 1], samples[|samples| - 1];
      ActiveWallBounds(startWall, front, last.decided);
      assert front != [] ==> front[0] == samples[0];
    }
  }

  lemma {:induction false} CountBounds(samples: seq<Sample>)
    ensures CountOf(samples, Counts) <= CountOf(samples, Active) <= |samples|
  {
    if samples != [] {
      CountBounds(samples[..|samples| - 1]);
    }
  }

  lemma {:induction false} PathBounds(norm: Vec2 -> real, start: Vec2, samples: seq<Sample>)
    requires IsNorm(norm)
    ensures norm(Minus(Last(start, samples), start)) <= Path(norm, start, samples)
    ensures norm(ControlledDisplacement(start, samples)) <= ControlledPath(norm, start, samples) <= Path(norm, start,
              samples)
    ensures 0.0 <= Fastest(norm, samples, true) <= Fastest(norm, samples, false)
  {
    if samples == [] {
      assert Minus(start, start) == ORIGIN;
    } else {
      var n := |samples| - 1;
      PathBounds(norm, start, samples[..n]);
      var moved := Minus(Last(start, samples[..n]), start);
      Triangle(norm, moved, Step(start, samples));
      assert Plus(moved, Step(start, samples)) == Minus(Last(start, samples), start);
      Triangle(norm, ControlledDisplacement(start, samples[..n]), Step(start, samples));
    }
  }

  /** The controlled path is part of the whole path, and no speed of a controlled step exceeds the overall maximum. */
  lemma ReportBounds(norm: Vec2 -> real, w: Window, samples: seq<Sample>, end: WindowEnd)
    requires IsNorm(norm) && w.timeStep > 0.0 && end.wall > w.wall && end.simTime >= w.simTime
    requires Ordered(w.wall, samples) && LastDecided(w.wall, samples) <= end.wall
    ensures var r := ReportOf(norm, w, samples, end);
            && 0.0 <= r.controlWall <= r.wallDuration
            && r.controlledSteps <= r.controlSteps <= |samples|
            && 0.0 <= r.controlledDisplacement <= r.controlledPath <= r.basePath
            && 0.0 <= r.baseDisplacement <= r.basePath
            && 0.0 <= r.controlledMaxSpeed <= r.baseMaxSpeed
  {
    ActiveWallBounds(w.wall, samples, end.wall);
    CountBounds(samples);
    PathBounds(norm, w.position, samples);
    var last := Last(w.position, samples);
    Triangle(norm, Minus(last, w.position), Minus(end.position, last));
    assert Plus(Minus(last, w.position), Minus(end.position, last)) == Minus(end.position, w.position);
  }

  lemma NonnegativeReport(norm: Vec2 -> real, w: Window, samples: seq<Sample>, end: WindowEnd)
    requires IsNorm(norm) && w.timeStep > 0.0 && end.wall > w.wall && end.simTime >= w.simTime
    requires Ordered(w.wall, samples) && LastDecided(w.wall, samples) <= end.wall
    ensures Nonnegative(ReportOf(norm, w, samples, end))
  {
    var r := ReportOf(norm, w, samples, end);
    ReportBounds(norm, w, samples, end);
    hide Path, ControlledPath, ControlledDisplacement, Fastest, ActiveWall, CountOf, Last, IsNorm;
    QuotientNonnegative(r.simDuration, r.wallDuration);
    if r.controlledSim > 0.0 {
      QuotientNonnegative(r.controlledPath, r.controlledSim);
    }
    if r.simDuration > 0.0 {
      QuotientNonnegative(r.basePath, r.simDuration);
    }
    ProductNonnegative(r.controlSteps as real, w.timeStep);
    ProductNonnegative(r.controlledSteps as real, w.timeStep);
  }

  lemma QuotientNonnegative(a: real, b: real)
    requires a >= 0.0 && b > 0.0
    ensures a / b >= 0.0
  {
  }

  lemma ProductNonnegative(a: real, b: real)
    requires a >= 0.0 && b >= 0.0
    ensures a * b >= 0.0
  {
  }

  /**
   Whatever was observed, with at most one observation per counted physics step, the report of a
   finished tracker passes every consistency gate that is defined on it.
   */
  lemma GatesCannotFail(norm: Vec2 -> real, w: Window, samples: seq<Sample>, end: WindowEnd)
    requires IsNorm(norm) && w.timeStep > 0.0 && end.wall > w.wall && end.simTime > w.simTime
    requires Ordered(w.wall, samples) && LastDecided(w.wall, samples) <= end.wall
    requires |samples| <= end.steps - w.steps && CountOf(samples, Counts) > 0
    ensures var r := ReportOf(norm, w, samples, end);
            r.controlledSim > 0.0 && ConsistencyGates(r) == None
  {
    hide Path, ControlledPath, ControlledDisplacement, Fastest, ActiveWall, CountOf, Last, IsNorm, Nonnegative,
      IsClose, ReportOf, Ordered;
    var r := ReportOf(norm, w, samples, end);
    ReportBounds(norm, w, samples, end);
    NonnegativeReport(norm, w, samples, end);
    ReportRelations(norm, w, samples, end);
    StepsTakeTime(r.controlledSteps, w.timeStep);
    CloseToSelf(r.ratio, SLACK);
    CloseToSelf(r.controlSim, 0.0);
    CloseToSelf(r.controlledSim, 0.0);
    CloseToSelf(r.controlledMeanSpeed, SLACK);
    CloseToSelf(r.baseMeanSpeed, SLACK);
  }

  lemma ReportRelations(norm: Vec2 -> real, w: Window, samples: seq<Sample>, end: WindowEnd)
    requires w.timeStep > 0.0 && end.wall > w.wall
    ensures var r := ReportOf(norm, w, samples, end);
            && r.timeStep == w.timeStep && r.steps == end.steps - w.steps
            && r.simDuration == Seconds(end.simTime - w.simTime) && r.wallDuration == end.wall - w.wall
            && r.ratio == r.simDuration / r.wallDuration
            && r.controlSim == r.controlSteps as real * r.timeStep
            && r.controlledSteps == CountOf(samples, Counts) &&
                 r.controlledSim == r.controlledSteps as real * r.timeStep
            && (r.controlledSim > 0.0 ==> r.controlledMeanSpeed == r.controlledPath / r.controlledSim)
            && (r.simDuration > 0.0 ==> r.baseMeanSpeed == r.basePath / r.simDuration)
  {
  }

  lemma StepsTakeTime(steps: nat, timeStep: real)
    requires steps > 0 && timeStep > 0.0
    ensures steps as real * timeStep > 0.0
  {
  }

  lemma CloseToSelf(a: real, relative: real)
    requires relative >= 0.0
    ensures IsClose(a, a, relative, SLACK)
  {
  }
}
