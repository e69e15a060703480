/**
 The frozen plan of one Golf collection: route length and duration, the instants at which the
 command peer stops and finishes, the window the simulator runs, and the route-progress watch.
 Times are integer nanoseconds of simulated time, speeds and distances are reals.
 */
module GolfPlan {
  import opened Basics

  const WHEEL_PERIOD: nat := 10_000_000
  const POSE_PERIOD: nat := 100_000_000
  const ZERO_TAIL: nat := 500_000_000
  const SECOND: nat := 1_000_000_000
  const WHEEL_ACCELERATION := 20.0
  const CEIL_SLACK := 0.000000000001
  const LAG_LIMIT_M := 0.75
  const LAG_DURATION: nat := 1_000_000_000
  const MAX_SIMULATION: nat := 240_000_000_000

  datatype Segment = Segment(length: real, speed: real)

  type Route = seq<Segment>

  ghost predicate ValidRoute(route: Route) {
    forall i :: 0 <= i < |route| ==> route[i].length > 0.0 && route[i].speed > 0.0
  }

  function Length(route: Route): real {
    if route == [] then 0.0 else route[0].length + Length(route[1..])
  }

  /** Seconds one segment takes at its target speed. */
  function LegTime(leg: Segment): (d: real)
    requires leg.length > 0.0 && leg.speed > 0.0
    ensures d > 0.0 && d * leg.speed == leg.length
  {
    leg.length / leg.speed
  }

  function Duration(route: Route): (d: real)
    requires ValidRoute(route)
    ensures d >= 0.0
  {
    if route == [] then 0.0 else LegTime(route[0]) + Duration(route[1..])
  }

  // ----- stop, finish and collection window -----

  /** Whole 100 ms periods that cover `tenths` tenths of a second, with the source's slack. */
  function Periods(tenths: real): (p: nat)
    requires tenths >= 0.0
    ensures tenths - CEIL_SLACK <= p as real < tenths - CEIL_SLACK + 1.0
  {
    Ceil(tenths - CEIL_SLACK)
  }

  function StopPeriods(route: Route): nat
    requires ValidRoute(route)
  {
    Periods(Duration(route) * 10.0)
  }

  function RampPeriods(vmax: real): nat
    requires vmax >= 0.0
  {
    Periods(vmax / WHEEL_ACCELERATION * 10.0)
  }

  function StopTime(route: Route): nat
    requires ValidRoute(route)
  {
    StopPeriods(route) * POSE_PERIOD
  }

  function FinishTime(route: Route, vmax: real): nat
    requires ValidRoute(route) && vmax >= 0.0
  {
    StopTime(route) + RampPeriods(vmax) * POSE_PERIOD + ZERO_TAIL
  }

  /** The simulator's own plan, in seconds; an over-long plan is an error. */
  function DefaultDurationSec(route: Route, vmax: real): Option<real>
    requires ValidRoute(route) && vmax >= 0.0
  {
    var routeEnd := StopPeriods(route) as real / 10.0;
    var stopDuration := RampPeriods(vmax) as real / 10.0;
    var duration := routeEnd + stopDuration + 0.5;
    if duration > MAX_SIMULATION as real / SECOND as real then None else Some(duration)
  }

  predicate IsClose(a: real, b: real) {
    var largest := if Abs(a) < Abs(b) then Abs(b) else Abs(a);
    var relative := 0.000000001 * largest;
    Abs(a - b) <= (if relative < CEIL_SLACK then CEIL_SLACK else relative)
  }

  /** Seconds to nanoseconds; whole 100 ms windows up to 240 s are accepted. */
  function CollectionDuration(seconds: real): (r: Option<nat>)
    ensures r.Some? ==> r.value % POSE_PERIOD == 0 && r.value <= MAX_SIMULATION
  {
    if seconds <= 0.0 then None else
      var duration := RoundReal(seconds * SECOND as real);
      if !IsClose(seconds, duration as real / SECOND as real) || duration % POSE_PERIOD != 0 ||
        duration > MAX_SIMULATION
      then None else Some(duration)
  }

  datatype TopicCounts = TopicCounts(command: nat, wheel: nat, lidar: nat, rtk: nat, imu: nat)

  function ExpectedCounts(duration: nat): TopicCounts {
    TopicCounts(duration / WHEEL_PERIOD, duration / WHEEL_PERIOD, duration / POSE_PERIOD,
                duration / POSE_PERIOD + 1, duration / POSE_PERIOD + 1)
  }

  /** Both processes freeze the same end of collection, and the simulator refuses it exactly past 240 s. */
  lemma PlanAgreement(route: Route, vmax: real)
    requires ValidRoute(route) && vmax >= 0.0
    ensures DefaultDurationSec(route, vmax).None? <==> FinishTime(route, vmax) > MAX_SIMULATION
    ensures FinishTime(route, vmax) <= MAX_SIMULATION ==>
              CollectionDuration(DefaultDurationSec(route, vmax).value) == Some(FinishTime(route, vmax))
  {
    var stop, ramp := StopPeriods(route), RampPeriods(vmax);
    var duration := stop as real / 10.0 + ramp as real / 10.0 + 0.5;
    var tenths := stop + ramp + 5;
    assert duration == tenths as real / 10.0;
    assert FinishTime(route, vmax) == tenths * POSE_PERIOD;
    WholeTenths(tenths);
  }

  lemma WholeTenths(tenths: nat)
    ensures RoundReal(tenths as real / 10.0 * SECOND as real) == tenths * POSE_PERIOD
    ensures (tenths * POSE_PERIOD) as real / SECOND as real == tenths as real / 10.0
    ensures (tenths * POSE_PERIOD) % POSE_PERIOD == 0
  {
    assert tenths as real / 10.0 * SECOND as real == (tenths * POSE_PERIOD) as real;
  }

  /** Every whole tenth of a second up to 240 s is accepted as it is, and none beyond. */
  lemma TenthsAreAccepted(tenths: nat)
    requires tenths > 0
    ensures CollectionDuration(tenths as real / 10.0) == if tenths <= 2400 then Some(tenths * 100_000_000) else None
  {
    WholeTenths(tenths);
  }

  /** Whatever is accepted is within the relative or absolute slack of the window it becomes. */
  lemma AcceptedIsClose(seconds: real)
    requires CollectionDuration(seconds).Some?
    ensures var window := CollectionDuration(seconds).value as real / 1_000_000_000.0;
            var error := Abs(seconds - window);
            error <= 0.000000000001 || error <= 0.000000001 * seconds || error <= 0.000000001 * window
  {
  }

  /** An accepted window is empty only when the requested one is within the comparison slack of zero. */
  lemma EmptyWindow(seconds: real)
    ensures CollectionDuration(seconds) == Some(0) <==> 0.0 < seconds <= CEIL_SLACK
  {
    if 0.0 < seconds {
      var duration := RoundReal(seconds * SECOND as real);
      if duration == 0 {
        assert IsClose(seconds, 0.0) <==> seconds <= CEIL_SLACK;
      }
    }
  }

  /** An accepted window holds a whole number of 240 Hz steps, so the simulator's check of it cannot fail. */
  lemma WholePhysicsSteps(seconds: real)
    requires CollectionDuration(seconds).Some?
    ensures var d := CollectionDuration(seconds).value;
            d * 240 / SECOND * SECOND == d * 240 && d * 240 / SECOND == d / POSE_PERIOD * 24
  {
    var d := CollectionDuration(seconds).value;
    assert d == d / POSE_PERIOD * POSE_PERIOD;
  }

  // ----- scheduled distance -----

  /** Distance the plan has covered after t seconds. */
  function Scheduled(route: Route, t: real): real
    requires ValidRoute(route)
  {
    if route == [] then 0.0 else
      var duration := LegTime(route[0]);
      if t < duration then t * route[0].speed
      else route[0].length + Scheduled(route[1..], t - duration)
  }

  function Seconds(timestamp: nat): real {
    timestamp as real / SECOND as real
  }

  method ScheduledRouteDistance(route: Route, timestamp: nat) returns (distance: real)
    requires ValidRoute(route)
    ensures distance == Scheduled(route, Seconds(timestamp))
  {
    var remaining := Seconds(timestamp);
    distance := 0.0;
    for i := 0 to |route|
      invariant distance + Scheduled(route[i..], remaining) == Scheduled(route, Seconds(timestamp))
      invariant distance + Length(route[i..]) == Length(route)
    {
      var segment := route[i];
      assert route[i..][0] == segment && route[i..][1..] == route[i + 1..];
      var duration := LegTime(segment);
      if remaining < duration {
        return distance + remaining * segment.speed;
      }
      distance := distance + segment.length;
      remaining := remaining - duration;
    }
  }

  lemma Products(a: real, b: real, c: real)
    requires a <= b && 0.0 <= c
    ensures a * c <= b * c
  {
  }

  lemma StrictProducts(a: real, b: real, c: real)
    requires a < b && 0.0 < c
    ensures a * c < b * c
  {
  }

  /** What is covered within one segment stays inside it. */
  lemma PartialLeg(leg: Segment, t: real)
    requires leg.length > 0.0 && leg.speed > 0.0 && 0.0 <= t < LegTime(leg)
    ensures 0.0 <= t * leg.speed < leg.length
  {
    StrictProducts(t, LegTime(leg), leg.speed);
    Products(0.0, t, leg.speed);
  }

  lemma {:induction false} ScheduledBounds(route: Route, t: real)
    requires ValidRoute(route) && 0.0 <= t
    ensures 0.0 <= Scheduled(route, t) <= Length(route)
    ensures t == 0.0 ==> Scheduled(route, t) == 0.0
    ensures Scheduled(route, t) == Length(route) <==> t >= Duration(route)
  {
    if route != [] {
      LengthNonnegative(route[1..]);
      if t < LegTime(route[0]) {
        PartialLeg(route[0], t);
      } else {
        ScheduledBounds(route[1..], t - LegTime(route[0]));
      }
    }
  }

  /** The stop time is the first whole 100 ms, up to the comparison slack, at which the plan has covered the route. */
  lemma StopCoversRoute(route: Route)
    requires ValidRoute(route)
    ensures StopTime(route) % POSE_PERIOD == 0
    ensures Scheduled(route, Seconds(StopTime(route)) + CEIL_SLACK) == Length(route)
    ensures StopTime(route) >= POSE_PERIOD ==>
              Scheduled(route, Seconds(StopTime(route) - POSE_PERIOD)) < Length(route)
  {
    var periods, stop := StopPeriods(route), StopTime(route);
    assert Seconds(stop) == periods as real / 10.0;
    hide Scheduled, Length, Duration;
    ScheduledBounds(route, Seconds(stop) + CEIL_SLACK);
    if stop >= POSE_PERIOD {
      assert Seconds(stop - POSE_PERIOD) == (periods - 1) as real / 10.0;
      ScheduledBounds(route, Seconds(stop - POSE_PERIOD));
    }
  }

  lemma {:induction false} LengthNonnegative(route: Route)
    requires ValidRoute(route)
    ensures 0.0 <= Length(route)
  {
    if route != [] {
      LengthNonnegative(route[1..]);
    }
  }

  /**
   The plan never moves backwards and is continuous across segment joints: it never gains more
   than the fastest segment speed times the elapsed time.
   */
  lemma {:induction false} ScheduledMonotoneContinuous(route: Route, t: real, u: real, fastest: real)
    requires ValidRoute(route) && 0.0 <= t <= u
    requires 0.0 <= fastest && forall i :: 0 <= i < |route| ==> route[i].speed <= fastest
    ensures Scheduled(route, t) <= Scheduled(route, u) <= Scheduled(route, t) + Reach(u - t, fastest)
    decreases |route|, 1
  {
    Products(0.0, u - t, fastest);
    if route != [] {
      var duration := LegTime(route[0]);
      if u < duration {
        Spread(u, t, route[0].speed, fastest);
      } else if t < duration {
        AcrossJoint(route, t, u, fastest);
      } else {
        ScheduledMonotoneContinuous(route[1..], t - duration, u - duration, fastest);
      }
    }
  }

  lemma {:induction false} AcrossJoint(route: Route, t: real, u: real, fastest: real)
    requires ValidRoute(route) && route != [] && 0.0 <= t < LegTime(route[0]) <= u
    requires 0.0 <= fastest && forall i :: 0 <= i < |route| ==> route[i].speed <= fastest
    ensures Scheduled(route, t) <= Scheduled(route, u) <= Scheduled(route, t) + Reach(u - t, fastest)
    decreases |route|, 0
  {
    var duration := LegTime(route[0]);
    ScheduledMonotoneContinuous(route[1..], 0.0, u - duration, fastest);
    ScheduledBounds(route[1..], 0.0);
    FinishLeg(route[0], t, fastest);
    Distribute(duration - t, u - duration, fastest);
  }

  /** What is left of one segment is within reach of its remaining time. */
  lemma FinishLeg(leg: Segment, t: real, fastest: real)
    requires leg.length > 0.0 && 0.0 < leg.speed <= fastest && 0.0 <= t < LegTime(leg)
    ensures 0.0 <= leg.length - t * leg.speed <= Reach(LegTime(leg) - t, fastest)
  {
    Spread(LegTime(leg), t, leg.speed, fastest);
  }

  /** The farthest anything at most this fast gets in the given time. */
  function Reach(time: real, fastest: real): real {
    time * fastest
  }

  lemma Distribute(a: real, b: real, c: real)
    ensures Reach(a, c) + Reach(b, c) == Reach(a + b, c)
  {
  }

  lemma Spread(u: real, t: real, speed: real, fastest: real)
    requires t <= u && 0.0 < speed <= fastest
    ensures 0.0 <= u * speed - t * speed <= Reach(u - t, fastest)
  {
    assert u * speed - t * speed == (u - t) * speed;
    Products(0.0, u - t, speed);
    Products(speed, fastest, u - t);
  }

  // ----- route-progress watch -----

  datatype WatchFault = DeadlineMissed | Lagging

  datatype Watch = Watch(since: Option<nat>, fault: Option<WatchFault>)

  predicate Over(route: Route, timestamp: nat, distance: real)
    requires ValidRoute(route)
  {
    Scheduled(route, Seconds(timestamp)) - distance > LAG_LIMIT_M
  }

  /** One observation of the achieved route distance, and the fault it raises if any. */
  function Observe(route: Route, since: Option<nat>, timestamp: nat, distance: real): Watch
    requires ValidRoute(route)
  {
    if timestamp >= StopTime(route) && Length(route) - distance > LAG_LIMIT_M then
      Watch(since, Some(DeadlineMissed))
    else if !Over(route, timestamp, distance) then
      Watch(None, None)
    else if since.None? then
      Watch(Some(timestamp), None)
    else
      Watch(since, if timestamp - since.value >= LAG_DURATION then Some(Lagging) else None)
  }

  datatype Sample = Sample(timestamp: nat, distance: real)

  function WatchAll(route: Route, samples: seq<Sample>): Option<nat>
    requires ValidRoute(route)
  {
    if samples == [] then None else
      var last := samples[|samples| - 1];
      Observe(route, WatchAll(route, samples[..|samples| - 1]), last.timestamp, last.distance).since
  }

  ghost predicate OverFrom(route: Route, samples: seq<Sample>, first: nat)
    requires ValidRoute(route)
  {
    forall i :: first <= i < |samples| ==> Over(route, samples[i].timestamp, samples[i].distance)
  }

  ghost predicate BeforeStop(route: Route, samples: seq<Sample>)
    requires ValidRoute(route)
  {
    && (forall i :: 0 <= i < |samples| ==> samples[i].timestamp < StopTime(route))
    && (forall i, j :: 0 <= i < j < |samples| ==> samples[i].timestamp <= samples[j].timestamp)
  }

  /** The remembered instant is the start of the unbroken over-limit run that reaches the last sample. */
  lemma {:induction false} WatchRemembersRun(route: Route, samples: seq<Sample>) returns (first: nat)
    requires ValidRoute(route) && BeforeStop(route, samples)
    ensures first <= |samples| && OverFrom(route, samples, first)
    ensures first > 0 ==> !Over(route, samples[first - 1].timestamp, samples[first - 1].distance)
    ensures WatchAll(route, samples) == if first < |samples| then Some(samples[first].timestamp) else None
  {
    if samples == [] {
      first := 0;
    } else {
      var front := samples[..|samples| - 1];
      first := WatchRemembersRun(route, front);
      var last := samples[|samples| - 1];
      if !Over(route, last.timestamp, last.distance) {
        first := |samples|;
      }
    }
  }

  /** Before the stop time the lag fault fires exactly when an over-limit run spans one second. */
  lemma LagLatchedExactly(route: Route, samples: seq<Sample>)
    requires ValidRoute(route) && BeforeStop(route, samples) && samples != []
    ensures var last := samples[|samples| - 1];
            Observe(route, WatchAll(route, samples[..|samples| - 1]), last.timestamp, last.distance).fault ==
              Some(Lagging)
            <==> exists i :: 0 <= i < |samples| && OverFrom(route, samples, i) &&
                   last.timestamp - samples[i].timestamp >= 1_000_000_000
  {
    hide Scheduled, Length, StopTime, WatchAll;
    var front, last := samples[..|samples| - 1], samples[|samples| - 1];
    var first := WatchRemembersRun(route, front);
    if first < |front| && Over(route, last.timestamp, last.distance) {
      assert OverFrom(route, samples, first);
    }
    forall i | 0 <= i < |samples| && OverFrom(route, samples, i) &&
      last.timestamp - samples[i].timestamp >= LAG_DURATION
      ensures first <= i < |front|
    {
    }
  }
}
