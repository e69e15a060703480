/**
 What holds of every run of the command peer: any events, in any order, with any content and any
 transport behaviour. A run is a `Run` value; the theorems speak about any point of it.
 */
module PeerTheorems {
  import opened Basics
  import opened GolfPlan
  import opened PeerModel
  import opened PeerInvariants

  // ----- exactly one ordered answer per wheel state -----

  /** The wheel states accepted by the first n events of a run, read off the events alone. */
  function WheelsOf(events: seq<Event>, n: nat): (Progress, seq<WheelState>)
    requires n <= |events|
  {
    if n == 0 then (FRESH, [])
    else
      var (p, acc) := WheelsOf(events, n - 1);
      var e := events[n - 1];
      if e.WheelArrives? && Accept(p, WHEEL_PERIOD, e.wheel.head).Accepted?
      then (Accept(p, WHEEL_PERIOD, e.wheel.head).next, acc + [e.wheel])
      else (p, acc)
  }

  lemma AcceptedStep(c: Config, run: Run, i: nat)
    requires IsRun(c, run) && 0 < i < |run.states|
    ensures run.states[i].log.accepted == run.states[i - 1].log.accepted + Taken(run.states[i - 1], run.events[i - 1])
  {
    hide Step, Inv, Taken;
    RunInv(c, run, i - 1);
    var e := run.events[i - 1];
    StepKeeps(c, run.states[i - 1], e, run.states[i]);
  }

  lemma {:induction false} AcceptedByEvents(c: Config, run: Run, i: nat)
    requires IsRun(c, run) && i < |run.states|
    ensures run.states[i].log.accepted == WheelsOf(run.events, i).1 && run.states[i].wheel == WheelsOf(run.events, i).0
  {
    hide Step, Inv;
    WheelDetermined(c, run, i);
    if i > 0 {
      AcceptedByEvents(c, run, i - 1);
      AcceptedStep(c, run, i);
      WheelDetermined(c, run, i - 1);
    }
  }

  /** The stream position is a function of what was accepted. */
  lemma WheelDetermined(c: Config, run: Run, i: nat)
    requires IsRun(c, run) && i < |run.states|
    ensures run.states[i].wheel == Progress(|run.states[i].log.accepted|, LastTime(run.states[i].log.accepted))
  {
    RunInv(c, run, i);
  }

  lemma {:induction false} LostMeansUnsent(att: seq<Attempt>)
    ensures Lost(att) > 0 <==> exists k :: 0 <= k < |att| && !att[k].delivery.Sent?
  {
    if att != [] {
      var front := att[..|att| - 1];
      LostMeansUnsent(front);
      if Lost(att) > 0 {
        if att[|att| - 1].delivery.Sent? {
          var k :| 0 <= k < |front| && !front[k].delivery.Sent?;
          assert att[k] == front[k];
        }
      }
      forall k | 0 <= k < |att| && !att[k].delivery.Sent? ensures Lost(att) > 0 {
        assert k < |front| ==> front[k] == att[k];
      }
    }
  }

  /**
   Commands handed to the transport answer the accepted wheel states one for one and in order; at
   most the newest is still waiting for a pose. Only refused or failed publishes are missing from
   the published count, and each of those leaves a fault latched.
   */
  lemma ExactlyOnceInOrder(c: Config, run: Run, i: nat)
    requires IsRun(c, run) && i < |run.states|
    ensures var s, wheels := run.states[i], WheelsOf(run.events, i).1;
            var att := s.log.attempts;
            && |wheels| == |att| + (if s.parked.Some? then 1 else 0)
            && (s.parked.Some? ==> s.parked.value.state == wheels[|att|])
            && (forall k :: 0 <= k < |att| ==>
                  && att[k].command == CommandFor(c, wheels[k], att[k].command.speeds, k)
                  && att[k].command.sequence == k && att[k].command.timestamp == wheels[k].head.timestamp
                  && att[k].command.commandGeneration == wheels[k].commandGeneration
                  && att[k].command.robotModel == wheels[k].robotModel
                  && att[k].command.descriptor == wheels[k].head.descriptor
                  && (att[k].command.session, att[k].command.world) == (wheels[k].head.session, wheels[k].head.world)
                  && (att[k].command.sourceId, att[k].command.sourceSession) == (c.sourceId, c.sourceSession)
                  && att[k].delivery == c.delivery(k))
            && s.published + Lost(att) == |att|
            && (Lost(att) > 0 ==> s.fault.Some?)
  {
    RunInv(c, run, i);
    AcceptedByEvents(c, run, i);
    LostMeansUnsent(run.states[i].log.attempts);
  }

  // ----- faults -----

  /** After the first fault the reason never changes and every further command is zero. */
  lemma FaultDominates(c: Config, run: Run, i: nat, j: nat)
    requires IsRun(c, run) && i <= j < |run.states| && run.states[i].fault.Some?
    ensures var s, r := run.states[i], run.states[j];
            && r.fault == s.fault
            && |s.log.attempts| <= |r.log.attempts|
            && forall k :: |s.log.attempts| <= k < |r.log.attempts| ==> r.log.attempts[k].command.speeds == ZERO
  {
    RunLater(c, run, i, j);
    RunInv(c, run, j);
  }

  /** A moving command up to the stop has a retained pose 0 to 100 ms old and no fault behind it. */
  lemma MovingCommandsAreFresh(c: Config, run: Run, i: nat, k: nat)
    requires IsRun(c, run) && i < |run.states| && k < |run.states[i].log.attempts|
    requires var a := run.states[i].log.attempts[k];
             a.command.speeds != ZERO && a.command.timestamp <= StopTime(c.route)
    ensures var att := run.states[i].log.attempts;
            && att[k].pose.Some?
            && att[k].pose.value <= att[k].command.timestamp <= att[k].pose.value + POSE_PERIOD
            && forall j :: 0 <= j <= k ==> att[j].fault.None? && (j < k ==> att[j].delivery.Sent?)
  {
    RunInv(c, run, i);
    assert FreshPose(c, run.states[i].log.attempts[k]);
  }

  /** The code's guards against impossible states never fire, and no exception leaves a callback. */
  lemma DeadBranches(c: Config, run: Run, i: nat)
    requires IsRun(c, run) && i < |run.states|
    ensures var s := run.states[i];
            && !s.escaped
            && s.fault != Some(PoseTimeStuck) && s.fault != Some(PoseMissing) && s.fault != Some(ControllerSkipped)
  {
    RunInv(c, run, i);
  }

  // ----- pose pairs -----

  /**
   Pairs complete in strictly increasing time order, every accepted sample is paired, pending or
   rejected for its identity, and the newest pose is never evicted from the four retained.
   */
  lemma PosePairing(c: Config, run: Run, i: nat)
    requires IsRun(c, run) && i < |run.states|
    ensures var s := run.states[i];
            var p, pairs := s.store, s.log.pairs;
            && Sorted(pairs)
            && p.pendingRtk.Keys !! p.pendingImu.Keys
            && p.rtk.expected == |pairs| + |p.pendingRtk| + s.log.rtkRejected
            && p.imu.expected == |pairs| + |p.pendingImu| + s.log.imuRejected
            && |p.poses| <= 4
            && (p.latest.Some? ==> IsGreatest(p.latest.value, p.poses.Keys))
            && (p.latest.None? ==> p.poses == map[])
  {
    RunInv(c, run, i);
  }

  // ----- the stop ramp -----

  predicate Shrinks(before: real, after: real) {
    0.0 <= after <= before || before <= after <= 0.0
  }

  lemma RampShrinks(v: Speeds)
    ensures Shrinks(v.left, RampDown(v).left) && Shrinks(v.right, RampDown(v).right)
    ensures RampDown(ZERO) == ZERO
  {
  }

  /** From the stop time on each wheel slows monotonically, keeps its direction and stays at zero. */
  lemma StopRamp(c: Config, run: Run, i: nat, k: nat)
    requires IsRun(c, run) && i < |run.states| && k < |run.states[i].log.attempts|
    requires run.states[i].log.attempts[k].command.timestamp >= StopTime(c.route)
    ensures var att := run.states[i].log.attempts;
            var before, now := Before(att, k), att[k].command.speeds;
            && Shrinks(before.left, now.left) && Shrinks(before.right, now.right)
            && (before == ZERO ==> now == ZERO)
            && now == if att[k].fault.Some? then ZERO else RampDown(before)
  {
    RunInv(c, run, i);
    var att := run.states[i].log.attempts;
    assert RampStep(c, att, k);
    RampShrinks(Before(att, k));
  }

  /** Whole wheel periods since the stop time. */
  function SinceStop(c: Config, timestamp: nat): nat
    requires c.Valid() && timestamp >= StopTime(c.route)
  {
    (timestamp - StopTime(c.route)) / WHEEL_PERIOD
  }

  function Remaining(vmax: real, steps: nat): real {
    if vmax <= RAMP_STEP * steps as real then 0.0 else vmax - RAMP_STEP * steps as real
  }

  lemma StepRemaining(v: Speeds, vmax: real, steps: nat)
    requires vmax >= 0.0 && Within(v, Remaining(vmax, steps))
    ensures Within(RampDown(v), Remaining(vmax, steps + 1))
  {
  }

  /** What the invariant says about one command past the stop and the one before it. */
  lemma PastStop(c: Config, s: Peer, k: nat)
    requires Inv(c, s) && k < |s.log.attempts| && s.log.attempts[k].command.timestamp >= StopTime(c.route)
    ensures var att := s.log.attempts;
            && c.Valid() && RampStep(c, att, k) && Within(Before(att, k), c.vmax)
            && (k > 0 ==> att[k - 1].command.timestamp + WHEEL_PERIOD == att[k].command.timestamp)
  {
    AttemptOrder(c, s);
    var att := s.log.attempts;
    assert RampStep(c, att, k);
    if k > 0 {
      assert att[k].command.timestamp == att[k - 1].command.timestamp + (k - (k - 1)) * WHEEL_PERIOD;
    }
  }

  /** The first command at or after the stop. */
  lemma RampStarts(c: Config, att: seq<Attempt>, k: nat)
    requires c.Valid() && k < |att| && RampStep(c, att, k) && Within(Before(att, k), c.vmax)
    requires att[k].command.timestamp >= StopTime(c.route)
    ensures Within(att[k].command.speeds, Remaining(c.vmax, 1))
  {
    StepRemaining(Before(att, k), c.vmax, 0);
  }

  lemma NeverMoved(c: Config, att: seq<Attempt>, steps: nat)
    requires c.Valid() && att != [] && RampStep(c, att, 0) && att[0].command.timestamp >= StopTime(c.route)
    ensures Within(att[0].command.speeds, Remaining(c.vmax, steps))
  {
    RampShrinks(ZERO);
  }

  lemma RampGoesOn(c: Config, att: seq<Attempt>, k: nat, steps: nat)
    requires c.Valid() && k < |att| && RampStep(c, att, k) && Within(Before(att, k), Remaining(c.vmax, steps))
    requires att[k].command.timestamp >= StopTime(c.route)
    ensures Within(att[k].command.speeds, Remaining(c.vmax, steps + 1))
  {
    StepRemaining(Before(att, k), c.vmax, steps);
  }

  lemma {:induction false} RampBound(c: Config, s: Peer, k: nat)
    requires Inv(c, s) && k < |s.log.attempts| && s.log.attempts[k].command.timestamp >= StopTime(c.route)
    ensures var a := s.log.attempts[k];
            Within(a.command.speeds, Remaining(c.vmax, SinceStop(c, a.command.timestamp) + 1))
    decreases k
  {
    hide Inv, RampStep, Within, Remaining, StopTime;
    var att := s.log.attempts;
    PastStop(c, s, k);
    if k == 0 {
      NeverMoved(c, att, SinceStop(c, att[k].command.timestamp) + 1);
    } else if att[k - 1].command.timestamp >= StopTime(c.route) {
      RampBound(c, s, k - 1);
      RampGoesOn(c, att, k, SinceStop(c, att[k - 1].command.timestamp) + 1);
    } else {
      RampStarts(c, att, k);
    }
  }

  /** Every command from the end of the ramp window on is zero, for every speed limit. */
  lemma StoppedAfterRamp(c: Config, run: Run, i: nat, k: nat)
    requires IsRun(c, run) && i < |run.states| && k < |run.states[i].log.attempts|
    requires run.states[i].log.attempts[k].command.timestamp >= StopTime(c.route) + RampPeriods(c.vmax) * POSE_PERIOD
    ensures run.states[i].log.attempts[k].command.speeds == ZERO
  {
    hide Inv;
    RunInv(c, run, i);
    var a := run.states[i].log.attempts[k];
    RampBound(c, run.states[i], k);
    RampWindowLength(c, a.command.timestamp);
  }

  lemma RampWindowLength(c: Config, timestamp: nat)
    requires c.Valid() && timestamp >= StopTime(c.route) + RampPeriods(c.vmax) * POSE_PERIOD
    ensures Remaining(c.vmax, SinceStop(c, timestamp) + 1) == 0.0
  {
    var steps := SinceStop(c, timestamp) + 1;
    assert steps >= 10 * RampPeriods(c.vmax) + 1;
    assert c.vmax <= RAMP_STEP * steps as real;
  }

  /** The speeds after a number of ramp steps from any start. */
  function RampFor(v: Speeds, steps: nat): Speeds {
    if steps == 0 then v else RampDown(RampFor(v, steps - 1))
  }

  lemma {:induction false} RampForRemaining(v: Speeds, vmax: real, steps: nat)
    requires vmax >= 0.0 && Within(v, vmax)
    ensures Within(RampFor(v, steps), Remaining(vmax, steps))
    ensures v == Speeds(vmax, vmax) ==> RampFor(v, steps) == Speeds(Remaining(vmax, steps), Remaining(vmax, steps))
  {
    if steps > 0 {
      RampForRemaining(v, vmax, steps - 1);
      StepRemaining(RampFor(v, steps - 1), vmax, steps - 1);
    }
  }

  /**
   The steps inside the ramp window bring every start within the limit to rest exactly when the
   limit is at most two rad/s per 100 ms of window; the comparison slack in the window's length can
   cost one step for limits just above that. The robot's 20 rad/s meets the condition.
   */
  lemma RampWindowSuffices(vmax: real)
    requires vmax >= 0.0
    ensures (forall v :: Within(v, vmax) ==> RampFor(v, 10 * RampPeriods(vmax)) == ZERO) <==>
              vmax <= 2.0 * RampPeriods(vmax) as real
    ensures RampPeriods(20.0) == 10
  {
    var steps := 10 * RampPeriods(vmax);
    forall v | Within(v, vmax) ensures Within(RampFor(v, steps), Remaining(vmax, steps)) {
      RampForRemaining(v, vmax, steps);
    }
    var top := Speeds(vmax, vmax);
    RampForRemaining(top, vmax, steps);
    assert Within(top, vmax);
    assert RAMP_STEP * steps as real == 2.0 * RampPeriods(vmax) as real;
    assert 20.0 / WHEEL_ACCELERATION * 10.0 == 10.0;
  }

  /** In a fault-free stretch past the stop the commands are exactly the ramp from the last moving one. */
  lemma {:induction false} RampIsExact(c: Config, run: Run, i: nat, k: nat, steps: nat)
    requires IsRun(c, run) && i < |run.states| && k + steps <= |run.states[i].log.attempts|
    requires var att := run.states[i].log.attempts;
             forall j :: k <= j < k + steps ==> att[j].fault.None? && att[j].command.timestamp >= StopTime(c.route)
    ensures var att := run.states[i].log.attempts;
            Before(att, k + steps) == RampFor(Before(att, k), steps)
    decreases steps
  {
    if steps > 0 {
      RampIsExact(c, run, i, k, steps - 1);
      StopRamp(c, run, i, k + steps - 1);
    }
  }

  // ----- finishing -----

  ghost predicate FirstZero(c: Config, att: seq<Attempt>, z: nat)
    requires c.Valid()
  {
    && (forall k :: 0 <= k < |att| && StopTime(c.route) <= att[k].command.timestamp < z ==>
         att[k].command.speeds != ZERO)
    && exists k :: 0 <= k < |att| && att[k].command.timestamp == z >= StopTime(c.route) && att[k].command.speeds == ZERO
  }

  lemma FirstZeroUnique(c: Config, a: seq<Attempt>, b: seq<Attempt>, z: nat, z': nat)
    requires c.Valid() && FirstZero(c, a, z) && FirstZero(c, b, z')
    requires |a| <= |b| && (forall k :: 0 <= k < |a| ==> b[k] == a[k])
    requires forall i, j :: 0 <= i <= j < |b| ==> b[i].command.timestamp <= b[j].command.timestamp
    ensures z == z'
  {
    var k :| 0 <= k < |a| && a[k].command.timestamp == z >= StopTime(c.route) && a[k].command.speeds == ZERO;
    assert b[k] == a[k];
    var j :| 0 <= j < |b| && b[j].command.timestamp == z' >= StopTime(c.route) && b[j].command.speeds == ZERO;
    assert j < |a| ==> a[j] == b[j];
  }

  lemma AttemptsOrdered(c: Config, s: Peer)
    requires Inv(c, s)
    ensures c.Valid()
    ensures var b := s.log.attempts;
            forall i, j :: 0 <= i <= j < |b| ==> b[i].command.timestamp <= b[j].command.timestamp
  {
    AttemptOrder(c, s);
  }

  lemma ZeroSinceIsFirst(c: Config, s: Peer)
    requires Inv(c, s) && s.fault.None?
    ensures s.completion.zeroSince.Some? ==> FirstZero(c, s.log.attempts, s.completion.zeroSince.value)
    ensures s.completion.zeroSince.None? ==> forall z :: !FirstZero(c, s.log.attempts, z)
  {
  }

  lemma FirstZeroPersists(c: Config, a: seq<Attempt>, b: seq<Attempt>, z: nat)
    requires c.Valid() && FirstZero(c, a, z)
    requires |a| <= |b| && (forall k :: 0 <= k < |a| ==> b[k] == a[k])
    requires forall i, j :: 0 <= i <= j < |b| ==> b[i].command.timestamp <= b[j].command.timestamp
    ensures FirstZero(c, b, z)
  {
    var k :| 0 <= k < |a| && a[k].command.timestamp == z >= StopTime(c.route) && a[k].command.speeds == ZERO;
    assert b[k] == a[k];
  }

  /** The remembered zero start never moves while no fault is latched. */
  lemma ZeroSinceStable(c: Config, s: Peer, r: Peer)
    requires Inv(c, s) && Inv(c, r) && Later(s, r) && s.completion.zeroSince.Some? && r.fault.None?
    ensures r.completion.zeroSince == s.completion.zeroSince
  {
    hide Inv, FirstZero;
    AttemptsOrdered(c, r);
    ZeroSinceIsFirst(c, s);
    ZeroSinceIsFirst(c, r);
    var a, b, z := s.log.attempts, r.log.attempts, s.completion.zeroSince.value;
    FirstZeroPersists(c, a, b, z);
    FirstZeroUnique(c, a, b, z, r.completion.zeroSince.value);
  }

  lemma LastTimeGrows(s: Peer, r: Peer)
    requires WheelStream(s.wheel, s.lastWheel, s.log.accepted) && WheelStream(r.wheel, r.lastWheel, r.log.accepted)
    requires Grown(s.log.accepted, r.log.accepted)
    ensures NotOlder(s.lastWheel, r.lastWheel)
  {
    var a, b := s.log.accepted, r.log.accepted;
    if a != [] {
      assert b[|a| - 1] == a[|a| - 1];
      assert b[|b| - 1].head.timestamp == b[0].head.timestamp + (|b| - 1) * WHEEL_PERIOD;
      assert b[|a| - 1].head.timestamp == b[0].head.timestamp + (|a| - 1) * WHEEL_PERIOD;
    }
  }

  lemma FinishedStep(c: Config, s: Peer, r: Peer)
    requires Inv(c, s) && Inv(c, r) && Later(s, r) && s.completion.finished && r.fault.None?
    ensures r.completion.finished
  {
    assert s.fault.None?;
    ZeroSinceStable(c, s, r);
    LastTimeGrows(s, r);
  }

  /** Once finished, a peer stays finished as long as no fault is latched. */
  lemma FinishedIsStable(c: Config, run: Run, i: nat, j: nat)
    requires IsRun(c, run) && i <= j < |run.states|
    requires run.states[i].completion.finished && run.states[j].fault.None?
    ensures run.states[j].completion.finished
  {
    hide Inv, Step;
    RunInv(c, run, i);
    RunInv(c, run, j);
    RunLater(c, run, i, j);
    FinishedStep(c, run.states[i], run.states[j]);
  }
}
