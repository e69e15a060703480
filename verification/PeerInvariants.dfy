/**
 What every callback of the command peer keeps. `Inv` holds initially and after every event, in
 any order and with any content, so it holds in every run.
 */
module PeerInvariants {
  import opened Basics
  import opened GolfPlan
  import opened PeerModel

  // ----- the invariant, clause by clause -----

  function LastTime(accepted: seq<WheelState>): Option<nat> {
    if accepted == [] then None else Some(accepted[|accepted| - 1].head.timestamp)
  }

  /** Accepted wheel states are numbered from zero and 10 ms apart. */
  ghost predicate WheelStream(wheel: Progress, lastWheel: Option<nat>, acc: seq<WheelState>) {
    && wheel.expected == |acc|
    && wheel.last == LastTime(acc)
    && lastWheel == LastTime(acc)
    && (forall i :: 0 <= i < |acc| ==> acc[i].head.sequence == i)
    && (forall i :: 0 <= i < |acc| ==> acc[i].head.timestamp == acc[0].head.timestamp + i * WHEEL_PERIOD)
  }

  function Lost(attempts: seq<Attempt>): nat {
    if attempts == [] then 0
    else Lost(attempts[..|attempts| - 1]) + if attempts[|attempts| - 1].delivery.Sent? then 0 else 1
  }

  /** The k-th command answers the k-th accepted wheel state. */
  ghost predicate Answered(c: Config, acc: seq<WheelState>, att: seq<Attempt>, nextSequence: nat, published: nat) {
    && |att| <= |acc|
    && nextSequence == |att|
    && (forall k :: 0 <= k < |att| ==> att[k].command == CommandFor(c, acc[k], att[k].command.speeds, k))
    && (forall k :: 0 <= k < |att| ==> att[k].wheel == acc[k])
    && (forall k :: 0 <= k < |att| ==> att[k].delivery == c.delivery(k))
    && published + Lost(att) == |att|
  }

  /** A fault, once latched, shows in every later command, which is then zero. */
  ghost predicate FaultHistory(att: seq<Attempt>, fault: Option<Fault>) {
    && (forall k :: 0 <= k < |att| && att[k].fault.Some? ==> att[k].command.speeds == ZERO && fault == att[k].fault)
    && (forall k :: 0 <= k < |att| && !att[k].delivery.Sent? ==> fault.Some?)
    && (forall i, j :: 0 <= i < j < |att| && (att[i].fault.Some? || !att[i].delivery.Sent?) ==> att[j].fault.Some?)
  }

  ghost predicate FreshPose(c: Config, a: Attempt)
    requires c.Valid()
  {
    a.fault.None? && a.command.timestamp <= StopTime(c.route) ==>
      a.pose.Some? && FreshFor(a.pose.value, a.command.timestamp) && a.progress.Some?
  }

  /** The speeds sent just before the k-th command, at rest before the first. */
  function Before(att: seq<Attempt>, k: nat): Speeds
    requires k <= |att|
  {
    if k == 0 then ZERO else att[k - 1].command.speeds
  }

  /** From the stop time on, a fault-free command is exactly one ramp step below the one before it. */
  ghost predicate RampStep(c: Config, att: seq<Attempt>, k: nat)
    requires c.Valid() && k < |att|
  {
    att[k].command.timestamp >= StopTime(c.route) ==>
      att[k].command.speeds == if att[k].fault.Some? then ZERO else RampDown(Before(att, k))
  }

  ghost predicate SpeedHistory(c: Config, att: seq<Attempt>, lastSpeeds: Speeds, fault: Option<Fault>)
    requires c.Valid()
  {
    && (forall k :: 0 <= k < |att| ==> FreshPose(c, att[k]))
    && (forall k :: 0 <= k < |att| ==> Within(att[k].command.speeds, c.vmax))
    && (forall k :: 0 <= k < |att| ==> RampStep(c, att, k))
    && Within(lastSpeeds, c.vmax)
    && (fault.None? ==> lastSpeeds == Before(att, |att|))
  }

  /** The controller is only ever behind the next wheel state, so it never refuses one. */
  ghost predicate ControllerClock(c: Config, ctl: Controller, att: seq<Attempt>) {
    && Within(ctl.speeds, c.vmax)
    && ctl.lastSeen == ctl.lastCommand
    && (ctl.lastSeen.Some? ==> att != [] && ctl.lastSeen.value <= att[|att| - 1].command.timestamp)
  }

  /** While no fault is latched, `zeroSince` is the first zero command at or after the stop time. */
  ghost predicate ZeroSince(c: Config, att: seq<Attempt>, fault: Option<Fault>, completion: Completion,
      lastSpeeds: Speeds)
    requires c.Valid()
  {
    var since := completion.zeroSince;
    fault.None? ==>
      && (since.None? ==> !completion.finished)
      && (since.None? ==> forall k :: 0 <= k < |att| && att[k].command.timestamp >= StopTime(c.route) ==>
           att[k].command.speeds != ZERO)
      && (since.Some? ==>
            && lastSpeeds == ZERO
            && (forall k :: 0 <= k < |att| && StopTime(c.route) <= att[k].command.timestamp < since.value ==>
                 att[k].command.speeds != ZERO)
            && exists k :: 0 <= k < |att| && att[k].command.timestamp == since.value >= StopTime(c.route) &&
                 att[k].command.speeds == ZERO)
  }

  ghost predicate Sorted(times: seq<nat>) {
    forall i, j :: 0 <= i < j < |times| ==> times[i] < times[j]
  }

  ghost predicate AtMost(times: seq<nat>, bound: Option<nat>) {
    forall i :: 0 <= i < |times| ==> bound.Some? && times[i] <= bound.value
  }

  /** RTK and IMU samples are paired once, in time order, and the newest pose is always retained. */
  ghost predicate PosePairs(p: PoseStore, pairs: seq<nat>, rtkRejected: nat, imuRejected: nat) {
    && Sorted(pairs)
    && AtMost(pairs, p.rtk.last) && AtMost(pairs, p.imu.last)
    && (forall t :: t in p.pendingRtk ==> p.rtk.last.Some? && t <= p.rtk.last.value)
    && (forall t :: t in p.pendingImu ==> p.imu.last.Some? && t <= p.imu.last.value)
    && p.pendingRtk.Keys !! p.pendingImu.Keys
    && Retained(p, pairs)
    && p.rtk.expected == |pairs| + |p.pendingRtk| + rtkRejected
    && p.imu.expected == |pairs| + |p.pendingImu| + imuRejected
  }

  ghost predicate Retained(p: PoseStore, pairs: seq<nat>) {
    && (forall t :: t in p.poses ==> t in pairs)
    && |p.poses| <= 4
    && (p.latest.None? <==> p.poses == map[])
    && (p.latest.Some? ==> p.latest.value in p.poses && forall t :: t in p.poses ==> t <= p.latest.value)
  }

  /** Branches of the code that no run reaches. */
  ghost predicate LiveFault(fault: Option<Fault>) {
    fault != Some(PoseTimeStuck) && fault != Some(PoseMissing) && fault != Some(ControllerSkipped)
  }

  /** Everything the invariant says that does not concern the pose store. */
  ghost predicate CommandCore(c: Config, s: Peer) {
    && Ready(c, s)
    && !s.escaped
    && WheelStream(s.wheel, s.lastWheel, s.log.accepted)
    && Answered(c, s.log.accepted, s.log.attempts, s.nextSequence, s.published)
    && FaultHistory(s.log.attempts, s.fault)
    && SpeedHistory(c, s.log.attempts, s.lastSpeeds, s.fault)
    && ControllerClock(c, s.controller, s.log.attempts)
    && ZeroSince(c, s.log.attempts, s.fault, s.completion, s.lastSpeeds)
    && LiveFault(s.fault)
  }

  ghost predicate Core(c: Config, s: Peer) {
    CommandCore(c, s) && PosePairs(s.store, s.log.pairs, s.log.rtkRejected, s.log.imuRejected)
  }

  /** At most one wheel state waits, and only for a pose that is not there yet. */
  ghost predicate Parking(c: Config, s: Peer)
    requires c.Valid()
  {
    var acc, att := s.log.accepted, s.log.attempts;
    && |acc| == |att| + (if s.parked.Some? then 1 else 0)
    && (s.parked.Some? ==>
          && s.parked.value.state == acc[|att|]
          && acc[|att|].head.timestamp <= StopTime(c.route)
          && (s.fault.None? ==> NeedsPose(c, s, acc[|att|].head.timestamp)))
  }

  ghost predicate Finishing(c: Config, s: Peer)
    requires c.Valid()
  {
    s.fault.None? ==> (s.completion.finished <==> FinishDue(c, s))
  }

  /** Commands are only added, and those added under a latched fault carry that fault. */
  ghost predicate Extends(before: seq<Attempt>, fault: Option<Fault>, after: seq<Attempt>, fault': Option<Fault>) {
    && |before| <= |after|
    && (forall k :: 0 <= k < |before| ==> after[k] == before[k])
    && (fault.Some? ==> fault' == fault && forall k :: |before| <= k < |after| ==> after[k].fault == fault)
  }

  /** The whole invariant; the comparison keeps it one fact for the verifier instead of thirty. */
  ghost predicate Inv(c: Config, s: Peer) {
    true == (Core(c, s) && Parking(c, s) && Finishing(c, s))
  }

  /** One callback keeps the invariant, only adds commands, and accepts the given wheel states. */
  ghost predicate Keeps(c: Config, s: Peer, r: Peer, taken: seq<WheelState>) {
    && Inv(c, r)
    && Extends(s.log.attempts, s.fault, r.log.attempts, r.fault)
    && r.log.accepted == s.log.accepted + taken
  }

  // ----- one publish -----

  lemma StepWithin(x: real, target: real, change: real, bound: real)
    requires Abs(x) <= bound && Abs(target) <= bound && 0.0 <= change
    ensures Abs(x + ClampAbs(target - x, change)) <= bound
  {
  }

  lemma ControllerWithin(c: Config, ctl: Controller, timestamp: nat, pose: BasePose)
    requires c.Valid() && ctl.segment < |c.route| && Within(ctl.speeds, c.vmax)
    ensures var r := UpdateController(c, ctl, timestamp, pose);
            r.Issued? ==> Within(r.next.speeds, c.vmax) && r.next.lastSeen == r.next.lastCommand == Some(timestamp)
  {
    hide ScaledSpeed, ClampAbs, Length;
    var r := UpdateController(c, ctl, timestamp, pose);
    if r.Issued? {
      var wanted := c.track(r.next.segment, pose).wanted;
      var target := Scaled(wanted, c.vmax);
      var elapsed := if ctl.lastCommand.None? then WHEEL_PERIOD else timestamp - ctl.lastCommand.value;
      var change := WHEEL_ACCELERATION * Seconds(elapsed);
      assert Seconds(elapsed) >= 0.0;
      StepWithin(ctl.speeds.left, target.left, change, c.vmax);
      StepWithin(ctl.speeds.right, target.right, change, c.vmax);
    }
  }

  /** What one publish adds, given that the wheel state may be answered. */
  ghost predicate Shape(c: Config, s: Peer, w: WheelState, r: Peer, a: Attempt)
    requires c.Valid()
  {
    var v, t := a.command.speeds, w.head.timestamp;
    && r == s.(fault := r.fault, nextSequence := s.nextSequence + 1, published := r.published,
         lastSpeeds := r.lastSpeeds,
               lagSince := r.lagSince, controller := r.controller, completion := r.completion,
               log := s.log.(attempts := s.log.attempts + [a]))
    && a.command == CommandFor(c, w, v, s.nextSequence) && a.wheel == w
    && a.delivery == c.delivery(s.nextSequence)
    && r.published == s.published + (if a.delivery.Sent? then 1 else 0)
    && (s.fault.Some? ==> a.fault == s.fault)
    && (a.fault.Some? ==> v == ZERO && r.fault == a.fault)
    && (!a.delivery.Sent? ==> r.fault.Some?)
    && (a.fault.None? && a.delivery.Sent? ==> r.fault.None?)
    && LiveFault(r.fault)
    && FreshPose(c, a)
    && Within(v, c.vmax)
    && (t >= StopTime(c.route) ==> v == if a.fault.Some? then ZERO else RampDown(s.lastSpeeds))
    && r.lastSpeeds == (if a.delivery.Sent? then v else s.lastSpeeds)
    && Within(r.controller.speeds, c.vmax)
    && (r.controller == s.controller || r.controller.lastSeen == r.controller.lastCommand == Some(t))
    && (s.fault.None? && r.fault.None? ==> Completed(c, s, r, t, v))
  }

  ghost predicate Completed(c: Config, s: Peer, r: Peer, t: nat, v: Speeds)
    requires c.Valid()
  {
    if t < StopTime(c.route) then r.completion == s.completion
    else
      && r.completion.zeroSince ==
           (if v != ZERO then None else if s.completion.zeroSince.None? then Some(t) else s.completion.zeroSince)
      && (if r.completion.zeroSince.Some? && r.lastWheel.Some? && r.store.latest.Some?
          then r.completion.finished == FinishDue(c, r)
          else r.completion.finished == s.completion.finished)
  }

  ghost predicate MayAnswer(c: Config, s: Peer, w: WheelState)
    requires c.Valid()
  {
    && |s.log.attempts| < |s.log.accepted| && w == s.log.accepted[|s.log.attempts|]
    && !NeedsPose(c, s, w.head.timestamp)
  }

  /** Computing the speeds can latch nothing but a route-progress fault and never raises. */
  lemma SpeedsOutcome(c: Config, s: Peer, w: WheelState)
    requires Ready(c, s) && ControllerClock(c, s.controller, s.log.attempts) && Within(s.lastSpeeds, c.vmax)
    requires s.log.attempts != [] ==>
               s.log.attempts[|s.log.attempts| - 1].command.timestamp + WHEEL_PERIOD == w.head.timestamp
    requires !NeedsPose(c, s, w.head.timestamp)
    ensures var (r, v) := CommandSpeeds(c, s, w.head.timestamp);
            && v.Some?
            && r == s.(fault := r.fault, lagSince := r.lagSince, controller := r.controller)
            && (r.fault == s.fault || (s.fault.None? && r.fault.Some? && r.fault.value.RouteFault?))
            && (r.fault.Some? ==> v.value == ZERO)
            && Within(v.value, c.vmax)
            && Within(r.controller.speeds, c.vmax)
            && (r.controller == s.controller ||
                 r.controller.lastSeen == r.controller.lastCommand == Some(w.head.timestamp))
  {
    var t := w.head.timestamp;
    RampWithin(s.lastSpeeds, c.vmax);
    if s.fault.None? && t <= StopTime(c.route) {
      var pose := LatestPoseAt(s.store.poses, t);
      ControllerWithin(c, s.controller, t, s.store.poses[pose.value]);
    }
  }

  lemma AttemptTimes(c: Config, s: Peer, w: WheelState)
    requires WheelStream(s.wheel, s.lastWheel, s.log.accepted) &&
               Answered(c, s.log.accepted, s.log.attempts, s.nextSequence, s.published)
    requires |s.log.attempts| < |s.log.accepted| && w == s.log.accepted[|s.log.attempts|]
    ensures s.log.attempts != [] ==>
              s.log.attempts[|s.log.attempts| - 1].command.timestamp + WHEEL_PERIOD == w.head.timestamp
  {
    var acc, n := s.log.accepted, |s.log.attempts|;
    if n > 0 {
      assert acc[n - 1].head.timestamp == acc[0].head.timestamp + (n - 1) * WHEEL_PERIOD;
      assert acc[n].head.timestamp == acc[0].head.timestamp + n * WHEEL_PERIOD;
    }
  }

  lemma RampWithin(v: Speeds, bound: real)
    requires Within(v, bound)
    ensures Within(RampDown(v), bound)
  {
  }

  lemma CompletionShape(c: Config, s: Peer, w: WheelState, v: Speeds)
    requires c.Valid() && s.fault.None?
    ensures var r := UpdateCompletion(c, s, w, v);
            r == s.(completion := r.completion) && Completed(c, s, r, w.head.timestamp, v)
  {
  }

  /** The command is chosen and logged, but not yet handed over. */
  ghost predicate Chosen(c: Config, s: Peer, w: WheelState, r: Peer, a: Attempt)
    requires c.Valid()
  {
    var v, t := a.command.speeds, w.head.timestamp;
    && r == s.(fault := r.fault, nextSequence := s.nextSequence + 1, lagSince := r.lagSince, controller := r.controller,
               log := s.log.(attempts := s.log.attempts + [a]))
    && a.command == CommandFor(c, w, v, s.nextSequence) && a.wheel == w
    && a.delivery == c.delivery(s.nextSequence)
    && a.fault == r.fault
    && (s.fault.Some? ==> a.fault == s.fault)
    && (a.fault.Some? ==> v == ZERO)
    && LiveFault(r.fault)
    && FreshPose(c, a)
    && Within(v, c.vmax)
    && (t >= StopTime(c.route) ==> v == if a.fault.Some? then ZERO else RampDown(s.lastSpeeds))
    && Within(r.controller.speeds, c.vmax)
    && (r.controller == s.controller || r.controller.lastSeen == r.controller.lastCommand == Some(t))
  }

  lemma NumberedShape(c: Config, s: Peer, w: WheelState)
    requires Core(c, s) && MayAnswer(c, s, w)
    ensures CommandSpeeds(c, s, w.head.timestamp).1.Some?
    ensures var (r, a) := Numbered(c, s, w); Chosen(c, s, w, r, a)
  {
    AttemptTimes(c, s, w);
    SpeedsOutcome(c, s, w);
    FreshSpeeds(c, s, w);
  }

  lemma PublishShape(c: Config, s: Peer, w: WheelState) returns (a: Attempt)
    requires Core(c, s) && MayAnswer(c, s, w)
    ensures Shape(c, s, w, Publish(c, s, w), a)
  {
    NumberedShape(c, s, w);
    a := Numbered(c, s, w).1;
    HandedShape(c, s, w, Numbered(c, s, w).0, a);
  }

  lemma HandedShape(c: Config, s: Peer, w: WheelState, s2: Peer, a: Attempt)
    requires c.Valid() && Within(s.lastSpeeds, c.vmax) && Chosen(c, s, w, s2, a)
    ensures Shape(c, s, w, HandOver(c, s2, w, a), a)
  {
    if a.delivery.Sent? && s2.fault.None? {
      CompletionShape(c, s2.(published := s2.published + 1, lastSpeeds := a.command.speeds), w, a.command.speeds);
    }
  }

  lemma FreshSpeeds(c: Config, s: Peer, w: WheelState)
    requires Ready(c, s) && !NeedsPose(c, s, w.head.timestamp)
    ensures var (r, v) := CommandSpeeds(c, s, w.head.timestamp);
            v.Some? && w.head.timestamp >= StopTime(c.route) ==> v.value == if r.fault.Some? then ZERO
              else RampDown(s.lastSpeeds)
    ensures var (r, v) := CommandSpeeds(c, s, w.head.timestamp);
            var pose := LatestPoseAt(s.store.poses, w.head.timestamp);
            v.Some? && r.fault.None? && w.head.timestamp <= StopTime(c.route) ==>
              && pose.Some? && FreshFor(pose.value, w.head.timestamp)
              && Achieved(c, s.fault, s.store.poses, s.controller, w.head.timestamp).Some?
  {
  }

  // ----- publish keeps the core -----

  lemma LostSnoc(att: seq<Attempt>, a: Attempt)
    ensures Lost(att + [a]) == Lost(att) + if a.delivery.Sent? then 0 else 1
  {
    assert (att + [a])[..|att|] == att;
  }

  lemma PublishAnswers(c: Config, s: Peer, w: WheelState, r: Peer, a: Attempt)
    requires c.Valid() && WheelStream(s.wheel, s.lastWheel, s.log.accepted) &&
               Answered(c, s.log.accepted, s.log.attempts, s.nextSequence, s.published) && MayAnswer(c, s, w) &&
                 Shape(c, s, w, r, a)
    ensures WheelStream(r.wheel, r.lastWheel, r.log.accepted) &&
              Answered(c, r.log.accepted, r.log.attempts, r.nextSequence, r.published)
  {
    hide Shape, CommandFor, NeedsPose, Lost;
    ShapeAnswer(c, s, w, r, a);
    LostSnoc(s.log.attempts, a);
  }

  lemma ShapeAnswer(c: Config, s: Peer, w: WheelState, r: Peer, a: Attempt)
    requires c.Valid() && Shape(c, s, w, r, a)
    ensures r.wheel == s.wheel && r.lastWheel == s.lastWheel
    ensures r.log.accepted == s.log.accepted && r.log.attempts == s.log.attempts + [a]
    ensures a.command == CommandFor(c, w, a.command.speeds, s.nextSequence) && a.wheel == w
    ensures a.delivery == c.delivery(s.nextSequence) && r.nextSequence == s.nextSequence + 1
    ensures r.published == s.published + if a.delivery.Sent? then 1 else 0
  {
  }

  lemma PublishFaults(c: Config, s: Peer, w: WheelState, r: Peer, a: Attempt)
    requires c.Valid() && FaultHistory(s.log.attempts, s.fault) && Shape(c, s, w, r, a)
    ensures FaultHistory(r.log.attempts, r.fault)
  {
    var before, att := s.log.attempts, r.log.attempts;
    assert att == before + [a];
    forall k | 0 <= k < |att| && att[k].fault.Some? ensures att[k].command.speeds == ZERO && r.fault == att[k].fault {
    }
  }

  lemma PublishSpeeds(c: Config, s: Peer, w: WheelState, r: Peer, a: Attempt)
    requires c.Valid() && SpeedHistory(c, s.log.attempts, s.lastSpeeds, s.fault) && Shape(c, s, w, r, a)
    ensures SpeedHistory(c, r.log.attempts, r.lastSpeeds, r.fault)
  {
    var before, att := s.log.attempts, r.log.attempts;
    assert att == before + [a];
    assert RampDown(ZERO) == ZERO;
    forall k | 0 <= k < |att| ensures RampStep(c, att, k) {
      if k < |before| {
        assert RampStep(c, before, k);
        assert att[k] == before[k] && Before(att, k) == Before(before, k);
      } else {
        assert att[k] == a && Before(att, k) == Before(before, k);
      }
    }
  }

  lemma PublishClock(c: Config, s: Peer, w: WheelState, r: Peer, a: Attempt)
    requires c.Valid() && WheelStream(s.wheel, s.lastWheel, s.log.accepted) &&
               Answered(c, s.log.accepted, s.log.attempts, s.nextSequence, s.published) &&
                 ControllerClock(c, s.controller, s.log.attempts) && MayAnswer(c, s, w) && Shape(c, s, w, r, a)
    ensures ControllerClock(c, r.controller, r.log.attempts)
  {
    AttemptTimes(c, s, w);
  }

  /** One more fault-free answer, later than all before it. */
  lemma ZeroGrows(c: Config, earlier: seq<Attempt>, a: Attempt, before: Completion, lastSpeeds: Speeds,
      after: Completion)
    requires c.Valid() && ZeroSince(c, earlier, None, before, lastSpeeds)
    requires forall k :: 0 <= k < |earlier| ==> earlier[k].command.timestamp < a.command.timestamp
    requires a.command.timestamp >= StopTime(c.route) && lastSpeeds == ZERO ==> a.command.speeds == ZERO
    requires a.command.timestamp < StopTime(c.route) ==> after == before
    requires a.command.timestamp >= StopTime(c.route) ==>
               && after.zeroSince == (if a.command.speeds != ZERO then None
                    else if before.zeroSince.None? then Some(a.command.timestamp) else before.zeroSince)
               && (after.zeroSince.None? ==> after.finished == before.finished)
    ensures ZeroSince(c, earlier + [a], None, after, a.command.speeds)
  {
    hide StopTime;
    var att := earlier + [a];
    assert att[|earlier|] == a;
    if before.zeroSince.Some? {
      var k :| 0 <= k < |earlier| && earlier[k].command.timestamp == before.zeroSince.value >= StopTime(c.route) &&
        earlier[k].command.speeds == ZERO;
      assert att[k] == earlier[k];
    }
  }

  lemma ShapeCompletes(c: Config, s: Peer, w: WheelState, r: Peer, a: Attempt)
    requires c.Valid() && Shape(c, s, w, r, a) && r.fault.None?
    ensures s.fault.None? && r.log.attempts == s.log.attempts + [a] && r.lastSpeeds == a.command.speeds
    ensures a.command.timestamp == w.head.timestamp
    ensures a.command.timestamp >= StopTime(c.route) ==> a.command.speeds == RampDown(s.lastSpeeds)
    ensures a.command.timestamp < StopTime(c.route) ==> r.completion == s.completion
    ensures a.command.timestamp >= StopTime(c.route) ==>
              && r.completion.zeroSince == (if a.command.speeds != ZERO then None
                   else if s.completion.zeroSince.None? then Some(a.command.timestamp) else s.completion.zeroSince)
              && (r.completion.zeroSince.None? ==> r.completion.finished == s.completion.finished)
  {
    hide StopTime, RampDown, FinishDue, Within, FreshPose;
  }

  lemma AnsweredBefore(c: Config, s: Peer, w: WheelState)
    requires Core(c, s) && MayAnswer(c, s, w)
    ensures forall k :: 0 <= k < |s.log.attempts| ==> s.log.attempts[k].command.timestamp < w.head.timestamp
  {
    AttemptTimes(c, s, w);
    AttemptOrder(c, s);
  }

  lemma CoreZero(c: Config, s: Peer)
    requires Core(c, s)
    ensures c.Valid() && ZeroSince(c, s.log.attempts, s.fault, s.completion, s.lastSpeeds)
  {
  }

  lemma PublishZero(c: Config, s: Peer, w: WheelState, r: Peer, a: Attempt)
    requires Core(c, s) && MayAnswer(c, s, w) && Shape(c, s, w, r, a)
    ensures ZeroSince(c, r.log.attempts, r.fault, r.completion, r.lastSpeeds)
  {
    if r.fault.None? {
      hide Core, MayAnswer, Shape, ZeroSince, StopTime;
      CoreZero(c, s);
      ShapeCompletes(c, s, w, r, a);
      AnsweredBefore(c, s, w);
      assert RampDown(ZERO) == ZERO;
      ZeroGrows(c, s.log.attempts, a, s.completion, s.lastSpeeds, r.completion);
    }
  }

  lemma AttemptOrder(c: Config, s: Peer)
    requires WheelStream(s.wheel, s.lastWheel, s.log.accepted) &&
               Answered(c, s.log.accepted, s.log.attempts, s.nextSequence, s.published)
    ensures var att := s.log.attempts; forall i, j :: 0 <= i <= j < |att| ==>
              att[j].command.timestamp == att[i].command.timestamp + (j - i) * WHEEL_PERIOD
  {
    var acc, att := s.log.accepted, s.log.attempts;
    forall i, j | 0 <= i <= j < |att|
      ensures att[j].command.timestamp == att[i].command.timestamp + (j - i) * WHEEL_PERIOD
    {
      assert acc[i].head.timestamp == acc[0].head.timestamp + i * WHEEL_PERIOD;
      assert acc[j].head.timestamp == acc[0].head.timestamp + j * WHEEL_PERIOD;
    }
  }

  lemma PublishKeepsCore(c: Config, s: Peer, w: WheelState) returns (a: Attempt)
    requires Core(c, s) && MayAnswer(c, s, w)
    ensures Shape(c, s, w, Publish(c, s, w), a) && Core(c, Publish(c, s, w))
    ensures Extends(s.log.attempts, s.fault, Publish(c, s, w).log.attempts, Publish(c, s, w).fault)
  {
    a := PublishShape(c, s, w);
    var r := Publish(c, s, w);
    PublishAnswers(c, s, w, r, a);
    PublishFaults(c, s, w, r, a);
    PublishClock(c, s, w, r, a);
    PublishSpeeds(c, s, w, r, a);
    PublishZero(c, s, w, r, a);
  }

  // ----- latching and accepting -----

  ghost predicate FaultStep(before: Option<Fault>, after: Option<Fault>) {
    after == before || (before.None? && LiveFault(after))
  }

  /** Identities and one first fault do not disturb anything already established. */
  lemma FaultKeeps(c: Config, s: Peer, r: Peer)
    requires Core(c, s) && FaultStep(s.fault, r.fault)
    requires r == s.(fault := r.fault, baseIdentity := r.baseIdentity, commandIdentity := r.commandIdentity)
    ensures Core(c, r)
  {
  }

  lemma CheckWheelShape(c: Config, s: Peer, w: WheelState)
    ensures var r := CheckWheel(c, s, w);
            r == s.(fault := r.fault, baseIdentity := r.baseIdentity, commandIdentity := r.commandIdentity) &&
            FaultStep(s.fault, r.fault)
  {
  }

  lemma AcceptKeepsCore(c: Config, s: Peer, w: WheelState)
    requires Core(c, s) && Accept(s.wheel, WHEEL_PERIOD, w.head).Accepted?
    ensures var next := Accept(s.wheel, WHEEL_PERIOD, w.head).next;
            var r := AcceptWheel(c, s, w, next);
            && Core(c, r) && FaultStep(s.fault, r.fault)
            && r.log.accepted == s.log.accepted + [w] && r.log.attempts == s.log.attempts
            && r.parked == s.parked && r.store == s.store && r.completion == s.completion
  {
    var next := Accept(s.wheel, WHEEL_PERIOD, w.head).next;
    var s1 := s.(wheel := next, lastWheel := Some(w.head.timestamp), log := s.log.(accepted := s.log.accepted + [w]));
    StreamSnoc(s.wheel, s.lastWheel, s.log.accepted, w);
    CheckWheelShape(c, s1, w);
    FaultKeeps(c, s1, CheckWheel(c, s1, w));
  }

  lemma StreamSnoc(wheel: Progress, last: Option<nat>, acc: seq<WheelState>, w: WheelState)
    requires WheelStream(wheel, last, acc) && Accept(wheel, WHEEL_PERIOD, w.head).Accepted?
    ensures WheelStream(Accept(wheel, WHEEL_PERIOD, w.head).next, Some(w.head.timestamp), acc + [w])
    ensures forall i :: 0 <= i < |acc| ==> acc[i].head.timestamp + WHEEL_PERIOD <= w.head.timestamp
  {
    if acc != [] {
      var n := |acc|;
      assert acc[n - 1].head.timestamp == acc[0].head.timestamp + (n - 1) * WHEEL_PERIOD;
    }
  }

  // ----- finishing -----

  lemma PublishFinishes(c: Config, s: Peer, w: WheelState, r: Peer, a: Attempt)
    requires Core(c, s) && MayAnswer(c, s, w) && Shape(c, s, w, r, a) && Core(c, r)
    requires |s.log.accepted| == |s.log.attempts| + 1
    requires s.fault.None? && s.completion.finished ==> s.store.latest.Some?
    ensures Finishing(c, r)
  {
    if r.fault.None? {
      assert r.lastWheel == Some(w.head.timestamp);
      if w.head.timestamp < StopTime(c.route) && s.completion.zeroSince.Some? {
        AttemptOrder(c, s);
        AttemptTimes(c, s, w);
      }
    }
  }

  ghost predicate Slot(s: Peer) {
    s.parked.Some? ==>
      && |s.log.attempts| + 1 == |s.log.accepted|
      && s.parked.value.state == s.log.accepted[|s.log.attempts|]
  }

  lemma AnswerKeeps(c: Config, s: Peer, w: WheelState)
    requires Core(c, s) && MayAnswer(c, s, w) && s.parked.None? && |s.log.accepted| == |s.log.attempts| + 1
    requires s.fault.None? && s.completion.finished ==> s.store.latest.Some?
    ensures var r := Publish(c, s, w);
            && Inv(c, r) && Extends(s.log.attempts, s.fault, r.log.attempts, r.fault)
            && r.log.accepted == s.log.accepted && r.store == s.store && r.log.pairs == s.log.pairs && r.parked.None?
  {
    var a := PublishKeepsCore(c, s, w);
    PublishFinishes(c, s, w, Publish(c, s, w), a);
  }

  lemma UnparkKeeps(c: Config, s: Peer)
    requires Core(c, s)
    ensures Core(c, s.(parked := None))
  {
  }

  /** Releasing the parked wheel state publishes exactly its answer, unless it still needs a pose. */
  lemma DispatchKeeps(c: Config, s: Peer)
    requires Core(c, s) && Slot(s)
    requires s.fault.None? && s.completion.finished ==> s.store.latest.Some?
    ensures var r := DispatchParked(c, s);
            if s.parked.None? || NeedsPose(c, s, s.parked.value.state.head.timestamp) then r == s
            else
              && Inv(c, r) && Extends(s.log.attempts, s.fault, r.log.attempts, r.fault)
              && r.log.accepted == s.log.accepted && r.store == s.store && r.log.pairs == s.log.pairs && r.parked.None?
  {
    if s.parked.Some? && !NeedsPose(c, s, s.parked.value.state.head.timestamp) {
      UnparkKeeps(c, s);
      AnswerKeeps(c, s.(parked := None), s.parked.value.state);
    }
  }

  // ----- pose pairs -----

  lemma {:induction false} TrimKeeps(poses: map<nat, BasePose>, newest: nat)
    requires IsGreatest(newest, poses.Keys)
    ensures var r := Trim(poses);
            && |r| <= 4 && newest in r && r.Keys <= poses.Keys
            && (forall k :: k in r ==> r[k] == poses[k])
            && (forall j, k :: j in poses && j !in r && k in r ==> j < k)
    decreases |poses|
  {
    if |poses| > 4 {
      var k := Oldest(poses.Keys);
      var rest := poses - {k};
      assert rest.Keys == poses.Keys - {k};
      assert |rest| == |rest.Keys|;
      assert poses.Keys != {newest} by { assert |poses.Keys| > 4; }
      TrimKeeps(rest, newest);
    }
  }

  lemma RememberKeeps(p: PoseStore, pairs: seq<nat>, timestamp: nat, pose: BasePose)
    requires Retained(p, pairs)
    requires forall i :: 0 <= i < |pairs| ==> pairs[i] < timestamp
    ensures p.latest.Some? ==> p.latest.value in p.poses && p.latest.value < timestamp
    ensures var r := Remember(p, timestamp, pose);
            && Retained(r, pairs + [timestamp]) && r.latest == Some(timestamp)
            && r == p.(previousOrientation := r.previousOrientation, speedSquared := r.speedSquared, poses := r.poses,
                 latest := r.latest)
  {
    var all := p.poses[timestamp := pose];
    assert forall k :: k in p.poses ==> k < timestamp;
    TrimKeeps(all, timestamp);
    assert (pairs + [timestamp])[|pairs|] == timestamp;
    assert forall k :: k in pairs ==> k in pairs + [timestamp];
  }

  /** A sample newer than every pair so far; both maps hold it, so it becomes the next pair. */
  ghost predicate Arrived(p: PoseStore, pairs: seq<nat>, rtkRejected: nat, imuRejected: nat, timestamp: nat) {
    && Sorted(pairs) && (forall i :: 0 <= i < |pairs| ==> pairs[i] < timestamp)
    && AtMost(pairs, p.rtk.last) && AtMost(pairs, p.imu.last)
    && (forall t :: t in p.pendingRtk ==> p.rtk.last.Some? && t <= p.rtk.last.value)
    && (forall t :: t in p.pendingImu ==> p.imu.last.Some? && t <= p.imu.last.value)
    && (forall t :: t in p.pendingRtk && t in p.pendingImu ==> t == timestamp)
    && Retained(p, pairs)
    && p.rtk.expected == |pairs| + |p.pendingRtk| + rtkRejected
    && p.imu.expected == |pairs| + |p.pendingImu| + imuRejected
  }

  lemma RtkArrived(p: PoseStore, pairs: seq<nat>, rtkRejected: nat, imuRejected: nat, m: RtkState)
    requires PosePairs(p, pairs, rtkRejected, imuRejected) && Accept(p.rtk, POSE_PERIOD, m.head).Accepted?
    ensures var q := p.(rtk := Accept(p.rtk, POSE_PERIOD, m.head).next);
            && PosePairs(q, pairs, rtkRejected + 1, imuRejected)
            && Arrived(q.(pendingRtk := q.pendingRtk[m.head.timestamp := m]), pairs, rtkRejected, imuRejected,
                 m.head.timestamp)
  {
    var t := m.head.timestamp;
    assert p.rtk.last.Some? ==> p.rtk.last.value < t;
    assert t !in p.pendingRtk;
    assert |p.pendingRtk[t := m]| == |p.pendingRtk| + 1;
  }

  lemma ImuArrived(p: PoseStore, pairs: seq<nat>, rtkRejected: nat, imuRejected: nat, m: ImuAttitude)
    requires PosePairs(p, pairs, rtkRejected, imuRejected) && Accept(p.imu, POSE_PERIOD, m.head).Accepted?
    ensures var q := p.(imu := Accept(p.imu, POSE_PERIOD, m.head).next);
            && PosePairs(q, pairs, rtkRejected, imuRejected + 1)
            && Arrived(q.(pendingImu := q.pendingImu[m.head.timestamp := m]), pairs, rtkRejected, imuRejected,
                 m.head.timestamp)
  {
    var t := m.head.timestamp;
    assert p.imu.last.Some? ==> p.imu.last.value < t;
    assert t !in p.pendingImu;
    assert |p.pendingImu[t := m]| == |p.pendingImu| + 1;
  }

  lemma RemoveCounts<V>(m: map<nat, V>, k: nat)
    requires k in m
    ensures |m - {k}| == |m| - 1 && (m - {k}).Keys == m.Keys - {k}
  {
    assert (m - {k}).Keys == m.Keys - {k};
    assert |m - {k}| == |(m - {k}).Keys| && |m| == |m.Keys|;
  }

  lemma PairTaken(p: PoseStore, pairs: seq<nat>, rtkRejected: nat, imuRejected: nat, timestamp: nat)
    requires Arrived(p, pairs, rtkRejected, imuRejected, timestamp)
    ensures timestamp !in p.pendingRtk || timestamp !in p.pendingImu ==> PosePairs(p, pairs, rtkRejected, imuRejected)
    ensures timestamp in p.pendingRtk && timestamp in p.pendingImu ==>
              PosePairs(p.(pendingRtk := p.pendingRtk - {timestamp}, pendingImu := p.pendingImu - {timestamp}),
                        pairs + [timestamp], rtkRejected, imuRejected)
  {
    if timestamp in p.pendingRtk && timestamp in p.pendingImu {
      RemoveCounts(p.pendingRtk, timestamp);
      RemoveCounts(p.pendingImu, timestamp);
      assert forall t :: t in p.poses ==> t in pairs + [timestamp];
    }
  }

  // ----- every callback keeps the invariant -----

  lemma StoreFrame(c: Config, s: Peer, r: Peer)
    requires CommandCore(c, s)
    requires r == s.(store := r.store, baseIdentity := r.baseIdentity, fault := r.fault,
                     log := s.log.(pairs := r.log.pairs, frames := r.log.frames,
                       rtkRejected := r.log.rtkRejected, imuRejected := r.log.imuRejected))
    requires FaultStep(s.fault, r.fault)
    ensures CommandCore(c, r)
  {
    hide WheelStream, Answered, ControllerClock;
  }

  /** The state once a pair left the pending maps, before its pose is recovered. */
  function Unpended(s: Peer, timestamp: nat): Peer
    requires timestamp in s.store.pendingRtk && timestamp in s.store.pendingImu
  {
    s.(store := s.store.(pendingRtk := s.store.pendingRtk - {timestamp},
      pendingImu := s.store.pendingImu - {timestamp}),
       log := s.log.(pairs := s.log.pairs + [timestamp],
         frames := s.log.frames + [Joined(s.store.pendingRtk[timestamp], s.store.pendingImu[timestamp])]))
  }

  lemma RecoveredKeeps(c: Config, s: Peer, pairs: seq<nat>, timestamp: nat, pose: BasePose)
    requires Core(c, s) && s.log.pairs == pairs + [timestamp] && Slot(s) && Parking(c, s.(fault := Some(PoseInvalid)))
    requires Retained(s.store, pairs) && forall i :: 0 <= i < |pairs| ==> pairs[i] < timestamp
    requires s.store.latest.Some? ==> s.store.latest.value in s.store.poses && s.store.latest.value < timestamp
    ensures var r := DispatchParked(c, s.(store := Remember(s.store, timestamp, pose)));
            && Core(c, r) && Parking(c, r) && r.store.latest.Some? &&
                 Extends(s.log.attempts, s.fault, r.log.attempts, r.fault) && r.log.accepted == s.log.accepted
  {
    RememberKeeps(s.store, pairs, timestamp, pose);
    var s2 := s.(store := Remember(s.store, timestamp, pose));
    StoreFrame(c, s, s2);
    DispatchKeeps(c, s2);
  }

  /** Neither guard of the code between recovery and storing can fail. */
  lemma CompleteUnfold(c: Config, s: Peer, timestamp: nat)
    requires Ready(c, s) && Retained(s.store, s.log.pairs)
    requires forall i :: 0 <= i < |s.log.pairs| ==> s.log.pairs[i] < timestamp
    requires timestamp in s.store.pendingRtk && timestamp in s.store.pendingImu
    ensures var p, s1 := s.store, Unpended(s, timestamp);
            var pose := c.recover(p.pendingRtk[timestamp], p.pendingImu[timestamp], p.previousOrientation);
            if pose.None? then CompletePair(c, s, timestamp) == Latch(s1, PoseInvalid)
            else
              && (s1.store.latest.Some? ==>
                   s1.store.latest.value in s1.store.poses && s1.store.latest.value < timestamp)
              && var s3 := DispatchParked(c, s1.(store := Remember(s1.store, timestamp, pose.value)));
                 CompletePair(c, s, timestamp) == if s3.escaped then s3 else MaybeFinish(c, s3)
  {
  }

  lemma UnpendedKeeps(c: Config, s: Peer, timestamp: nat)
    requires CommandCore(c, s) && Parking(c, s)
    requires Arrived(s.store, s.log.pairs, s.log.rtkRejected, s.log.imuRejected, timestamp)
    requires timestamp in s.store.pendingRtk && timestamp in s.store.pendingImu
    ensures var s1 := Unpended(s, timestamp);
            Core(c, s1) && Slot(s1) && Parking(c, s1.(fault := Some(PoseInvalid))) && Retained(s1.store, s.log.pairs)
  {
    hide WheelStream, Answered, FaultHistory, SpeedHistory, ControllerClock, ZeroSince, LiveFault, PosePairs;
    PairTaken(s.store, s.log.pairs, s.log.rtkRejected, s.log.imuRejected, timestamp);
    StoreFrame(c, s, Unpended(s, timestamp));
  }

  lemma InvalidKeeps(c: Config, s: Peer)
    requires Core(c, s) && Parking(c, s.(fault := Some(PoseInvalid)))
    ensures Inv(c, Latch(s, PoseInvalid))
  {
    FaultKeeps(c, s, Latch(s, PoseInvalid));
  }

  lemma CompleteKeeps(c: Config, s: Peer, timestamp: nat)
    requires CommandCore(c, s) && Parking(c, s) && Finishing(c, s)
    requires Arrived(s.store, s.log.pairs, s.log.rtkRejected, s.log.imuRejected, timestamp)
    ensures var r := CompletePair(c, s, timestamp);
            Inv(c, r) && Extends(s.log.attempts, s.fault, r.log.attempts, r.fault) && r.log.accepted == s.log.accepted
  {
    var p := s.store;
    if timestamp in p.pendingRtk && timestamp in p.pendingImu {
      hide CompletePair, DispatchParked, MaybeFinish;
      CompleteUnfold(c, s, timestamp);
      UnpendedKeeps(c, s, timestamp);
      var s1 := Unpended(s, timestamp);
      var pose := c.recover(p.pendingRtk[timestamp], p.pendingImu[timestamp], p.previousOrientation);
      if pose.None? {
        InvalidKeeps(c, s1);
      } else {
        RecoveredKeeps(c, s1, s.log.pairs, timestamp, pose.value);
        FinishKeeps(c, DispatchParked(c, s1.(store := Remember(s1.store, timestamp, pose.value))));
      }
    } else {
      PairTaken(p, s.log.pairs, s.log.rtkRejected, s.log.imuRejected, timestamp);
    }
  }

  lemma FinishKeeps(c: Config, s: Peer)
    requires Core(c, s) && Parking(c, s) && s.store.latest.Some?
    ensures Inv(c, MaybeFinish(c, s))
  {
  }

  lemma BaseIdentityShape(c: Config, s: Peer, head: Header, topic: Topic)
    ensures var (r, same) := AcceptBaseIdentity(c, s, head, topic);
            && r == s.(fault := r.fault, baseIdentity := r.baseIdentity) && FaultStep(s.fault, r.fault)
            && (same ==> r.fault == s.fault) && (!same ==> r.fault.Some?)
  {
  }

  /** Bookkeeping of the pose streams leaves parking and finishing as they were. */
  lemma StreamFrame(c: Config, s: Peer, r: Peer)
    requires Inv(c, s) && FaultStep(s.fault, r.fault)
    requires r == s.(store := r.store, baseIdentity := r.baseIdentity, fault := r.fault,
                     log := s.log.(rtkRejected := r.log.rtkRejected, imuRejected := r.log.imuRejected))
    requires r.store.poses == s.store.poses && r.store.latest == s.store.latest
    ensures CommandCore(c, r) && Parking(c, r) && Finishing(c, r)
  {
    StoreFrame(c, s, r);
  }

  lemma SampleKeeps(c: Config, s: Peer, r: Peer, timestamp: nat)
    requires Inv(c, s) && Arrived(r.store, r.log.pairs, r.log.rtkRejected, r.log.imuRejected, timestamp)
    requires r == s.(store := r.store, baseIdentity := r.baseIdentity)
    requires r.store.poses == s.store.poses && r.store.latest == s.store.latest
    ensures var e := CompletePair(c, r, timestamp);
            Keeps(c, s, e, [])
  {
    hide Arrived;
    StreamFrame(c, s, r);
    CompleteKeeps(c, r, timestamp);
  }

  lemma RejectKeeps(c: Config, s: Peer, r: Peer)
    requires Inv(c, s) && FaultStep(s.fault, r.fault)
    requires r == s.(store := r.store, baseIdentity := r.baseIdentity, fault := r.fault,
                     log := s.log.(rtkRejected := r.log.rtkRejected, imuRejected := r.log.imuRejected))
    requires r.store.poses == s.store.poses && r.store.latest == s.store.latest
    requires PosePairs(r.store, r.log.pairs, r.log.rtkRejected, r.log.imuRejected)
    ensures Keeps(c, s, r, [])
  {
    StreamFrame(c, s, r);
  }

  lemma InvParts(c: Config, s: Peer)
    requires Inv(c, s)
    ensures Ready(c, s) && PosePairs(s.store, s.log.pairs, s.log.rtkRejected, s.log.imuRejected)
  {
  }

  lemma RtkKeeps(c: Config, s: Peer, m: RtkState)
    requires Inv(c, s)
    ensures var r := OnRtk(c, s, m);
            Keeps(c, s, r, [])
  {
    hide Inv, Keeps, Arrived, PosePairs, CompletePair;
    InvParts(c, s);
    var verdict := Accept(s.store.rtk, POSE_PERIOD, m.head);
    if verdict.Accepted? {
      RtkArrived(s.store, s.log.pairs, s.log.rtkRejected, s.log.imuRejected, m);
      var s1 := s.(store := s.store.(rtk := verdict.next));
      BaseIdentityShape(c, s1, m.head, RtkTopic);
      var (s2, same) := AcceptBaseIdentity(c, s1, m.head, RtkTopic);
      if same {
        SampleKeeps(c, s, s2.(store := s2.store.(pendingRtk := s2.store.pendingRtk[m.head.timestamp := m])),
          m.head.timestamp);
      } else {
        RejectKeeps(c, s, s2.(log := s2.log.(rtkRejected := s2.log.rtkRejected + 1)));
      }
    } else {
      RejectKeeps(c, s, RejectStream(s, verdict, RtkTopic));
    }
  }

  lemma ImuKeeps(c: Config, s: Peer, m: ImuAttitude)
    requires Inv(c, s)
    ensures var r := OnImu(c, s, m);
            Keeps(c, s, r, [])
  {
    hide Inv, Keeps, Arrived, PosePairs, CompletePair;
    InvParts(c, s);
    var verdict := Accept(s.store.imu, POSE_PERIOD, m.head);
    if verdict.Accepted? {
      ImuArrived(s.store, s.log.pairs, s.log.rtkRejected, s.log.imuRejected, m);
      var s1 := s.(store := s.store.(imu := verdict.next));
      BaseIdentityShape(c, s1, m.head, ImuTopic);
      var (s2, same) := AcceptBaseIdentity(c, s1, m.head, ImuTopic);
      if same {
        SampleKeeps(c, s, s2.(store := s2.store.(pendingImu := s2.store.pendingImu[m.head.timestamp := m])),
          m.head.timestamp);
      } else {
        RejectKeeps(c, s, s2.(log := s2.log.(imuRejected := s2.log.imuRejected + 1)));
      }
    } else {
      RejectKeeps(c, s, RejectStream(s, verdict, ImuTopic));
    }
  }

  /** A second wheel state while one is parked: both are answered, in order, under the fault. */
  lemma ExtendsTrans(s: Peer, m: Peer, r: Peer)
    requires Extends(s.log.attempts, s.fault, m.log.attempts, m.fault) &&
               Extends(m.log.attempts, m.fault, r.log.attempts, r.fault)
    ensures Extends(s.log.attempts, s.fault, r.log.attempts, r.fault)
  {
  }

  lemma DoubleArrivalKeeps(c: Config, s: Peer, w: WheelState)
    requires Core(c, s) && s.fault.Some? && s.parked.Some?
    requires var acc, n := s.log.accepted, |s.log.attempts|;
             |acc| == n + 2 && s.parked.value.state == acc[n] && w == acc[n + 1]
    ensures var r := Publish(c, DispatchParked(c, s), w);
            && !DispatchParked(c, s).escaped
            && Core(c, r) && Parking(c, r) && Extends(s.log.attempts, s.fault, r.log.attempts, r.fault) &&
                 r.parked.None? && r.log.accepted == s.log.accepted
  {
    var s1 := s.(parked := None);
    var a := PublishKeepsCore(c, s1, s.parked.value.state);
    var s2 := Publish(c, s1, s.parked.value.state);
    assert s2 == DispatchParked(c, s);
    var b := PublishKeepsCore(c, s2, w);
    ExtendsTrans(s, s2, Publish(c, s2, w));
  }

  lemma ParkKeeps(c: Config, s: Peer, w: WheelState, at: real)
    requires Core(c, s) && NeedsPose(c, s, w.head.timestamp) && |s.log.accepted| == |s.log.attempts| + 1
    requires w == s.log.accepted[|s.log.attempts|]
    ensures Inv(c, s.(parked := Some(Parked(w, at))))
  {
    if s.completion.finished {
      AttemptOrder(c, s);
      AttemptTimes(c, s, w);
    }
  }

  ghost predicate JustAccepted(c: Config, s: Peer, w: WheelState) {
    && Core(c, s) && |s.log.accepted| == |s.log.attempts| + (if s.parked.Some? then 2 else 1)
    && w == s.log.accepted[|s.log.accepted| - 1]
    && (s.parked.Some? ==> s.parked.value.state == s.log.accepted[|s.log.attempts|])
    && (s.fault.None? && s.completion.finished ==> s.store.latest.Some?)
  }

  lemma CoreReady(c: Config, s: Peer)
    requires Core(c, s)
    ensures Ready(c, s)
  {
  }

  lemma OvertakenKeeps(c: Config, s: Peer, w: WheelState)
    requires JustAccepted(c, s, w) && s.parked.Some?
    ensures Ready(c, s)
    ensures var m := DispatchParked(c, Latch(s, AdvancedWhilePending));
            !m.escaped && Keeps(c, s, Publish(c, m, w), [])
  {
    hide Core, Parking, Publish, DispatchParked;
    CoreReady(c, s);
    var s2 := Latch(s, AdvancedWhilePending);
    FaultKeeps(c, s, s2);
    DoubleArrivalKeeps(c, s2, w);
  }

  lemma AcceptedWheelKeeps(c: Config, s: Peer, w: WheelState, at: real)
    requires JustAccepted(c, s, w)
    ensures var r := AfterAccept(c, s, w, at);
            Keeps(c, s, r, [])
  {
    hide Core, Inv, Publish, DispatchParked, NeedsPose;
    CoreReady(c, s);
    if s.parked.Some? {
      OvertakenKeeps(c, s, w);
    } else if NeedsPose(c, s, w.head.timestamp) {
      ParkKeeps(c, s, w, at);
    } else {
      AnswerKeeps(c, s, w);
    }
  }

  lemma AcceptReady(c: Config, s: Peer, w: WheelState)
    requires Inv(c, s) && Accept(s.wheel, WHEEL_PERIOD, w.head).Accepted?
    ensures var r := AcceptWheel(c, s, w, Accept(s.wheel, WHEEL_PERIOD, w.head).next);
            && JustAccepted(c, r, w) && r.log.attempts == s.log.attempts && FaultStep(s.fault, r.fault)
            && r.log.accepted == s.log.accepted + [w]
  {
    AcceptKeepsCore(c, s, w);
  }

  lemma WheelKeeps(c: Config, s: Peer, w: WheelState, at: real)
    requires Inv(c, s)
    ensures var r := OnWheel(c, s, w, at);
            Keeps(c, s, r, if Accept(s.wheel, WHEEL_PERIOD, w.head).Accepted? then [w] else [])
  {
    hide Inv, AfterAccept, AcceptWheel, JustAccepted, PosePairs;
    InvParts(c, s);
    var verdict := Accept(s.wheel, WHEEL_PERIOD, w.head);
    if !verdict.Accepted? {
      RejectKeeps(c, s, RejectStream(s, verdict, WheelTopic));
    } else {
      AcceptReady(c, s, w);
      AcceptedWheelKeeps(c, AcceptWheel(c, s, w, verdict.next), w, at);
    }
  }

  lemma LatchKeeps(c: Config, s: Peer, reason: Fault)
    requires Inv(c, s) && LiveFault(Some(reason))
    ensures var r := Latch(s, reason);
            Keeps(c, s, r, [])
  {
    RejectKeeps(c, s, Latch(s, reason));
  }

  lemma DispatchInv(c: Config, s: Peer)
    requires Inv(c, s)
    ensures var r := DispatchParked(c, s);
            Keeps(c, s, r, [])
  {
    DispatchKeeps(c, s);
  }

  lemma KeepsTrans(c: Config, s: Peer, m: Peer, r: Peer)
    requires Keeps(c, s, m, []) && Keeps(c, m, r, [])
    ensures Keeps(c, s, r, [])
  {
    ExtendsTrans(s, m, r);
  }

  lemma KeepsSelf(c: Config, s: Peer)
    requires Inv(c, s)
    ensures Keeps(c, s, s, [])
  {
  }

  lemma StaleKeeps(c: Config, s: Peer)
    requires Inv(c, s)
    ensures Keeps(c, s, DispatchParked(c, Latch(s, PoseStale)), [])
  {
    hide Inv, DispatchParked;
    InvParts(c, s);
    LatchKeeps(c, s, PoseStale);
    var s1 := Latch(s, PoseStale);
    DispatchInv(c, s1);
    KeepsTrans(c, s, s1, DispatchParked(c, s1));
  }

  lemma ServiceKeeps(c: Config, s: Peer, now: real)
    requires Inv(c, s)
    ensures Keeps(c, s, Service(c, s, now), [])
  {
    hide Inv, Keeps, DispatchParked, NeedsPose;
    InvParts(c, s);
    if s.parked.None? || now - s.parked.value.receivedAt < 0.0 {
      KeepsSelf(c, s);
    } else {
      StaleKeeps(c, s);
      DispatchInv(c, s);
    }
  }

  /** The wheel states an event adds to the accepted stream. */
  function Taken(s: Peer, e: Event): seq<WheelState> {
    if e.WheelArrives? && Accept(s.wheel, WHEEL_PERIOD, e.wheel.head).Accepted? then [e.wheel] else []
  }

  lemma MessageKeeps(c: Config, s: Peer, e: Event)
    requires Inv(c, s) && (e.WheelArrives? || e.RtkArrives? || e.ImuArrives?)
    ensures Keeps(c, s, Apply(c, s, e), Taken(s, e))
  {
    match e
    case WheelArrives(w, at) => WheelKeeps(c, s, w, at);
    case RtkArrives(m) => RtkKeeps(c, s, m);
    case ImuArrives(m) => ImuKeeps(c, s, m);
  }

  lemma ApplyKeeps(c: Config, s: Peer, e: Event)
    requires Inv(c, s)
    ensures Keeps(c, s, Apply(c, s, e), Taken(s, e))
  {
    if e.WheelArrives? || e.RtkArrives? || e.ImuArrives? {
      MessageKeeps(c, s, e);
    } else {
      hide DispatchParked;
      KeepsSelf(c, s);
      match e
      case BadPayload(topic) => LatchKeeps(c, s, PayloadInvalid(topic));
      case OperatorFault(reason) => LatchKeeps(c, s, External(reason));
      case Tick(now) => ServiceKeeps(c, s, now);
    }
  }

  lemma InitialInv(c: Config)
    requires c.Valid()
    ensures Inv(c, Initial())
  {
  }

  // ----- runs -----

  /** Events and the states between them; `states[i]` is the peer before event i. */
  datatype Run = Run(events: seq<Event>, states: seq<Peer>)

  ghost predicate Step(c: Config, s: Peer, e: Event, r: Peer) {
    Ready(c, s) && r == Apply(c, s, e)
  }

  ghost predicate IsRun(c: Config, run: Run) {
    && c.Valid()
    && |run.states| == |run.events| + 1
    && run.states[0] == Initial()
    && (forall i {:trigger run.events[i]} :: 0 <= i < |run.events| ==>
         Step(c, run.states[i], run.events[i], run.states[i + 1]))
  }

  /** Commands, accepted wheel states and the newest pose time only grow along a run. */
  ghost predicate Later(s: Peer, r: Peer) {
    && Extends(s.log.attempts, s.fault, r.log.attempts, r.fault)
    && Grown(s.log.accepted, r.log.accepted)
    && NotOlder(s.store.latest, r.store.latest)
  }

  ghost predicate Grown(a: seq<WheelState>, b: seq<WheelState>) {
    |a| <= |b| && a == b[..|a|]
  }

  ghost predicate NotOlder(a: Option<nat>, b: Option<nat>) {
    a.Some? ==> b.Some? && a.value <= b.value
  }

  lemma DispatchStore(c: Config, s: Peer)
    requires Ready(c, s)
    ensures DispatchParked(c, s).store == s.store
  {
  }

  lemma PublishStore(c: Config, s: Peer, w: WheelState)
    requires Ready(c, s)
    ensures Publish(c, s, w).store == s.store
  {
  }

  lemma PublishUnparked(c: Config, s: Peer, w: WheelState)
    requires Ready(c, s)
    ensures Publish(c, s, w).parked == s.parked
  {
  }

  lemma AcceptedStore(c: Config, s: Peer, w: WheelState, at: real)
    requires Ready(c, s)
    ensures AfterAccept(c, s, w, at).store == s.store
  {
    var s1 := Latch(s, AdvancedWhilePending);
    DispatchStore(c, s1);
    PublishStore(c, DispatchParked(c, s1), w);
    PublishStore(c, s, w);
  }

  lemma WheelLatest(c: Config, s: Peer, w: WheelState, at: real)
    requires Ready(c, s)
    ensures OnWheel(c, s, w, at).store == s.store
  {
    var verdict := Accept(s.wheel, WHEEL_PERIOD, w.head);
    if verdict.Accepted? {
      CheckWheelShape(c, s.(wheel := verdict.next, lastWheel := Some(w.head.timestamp),
                            log := s.log.(accepted := s.log.accepted + [w])), w);
      AcceptedStore(c, AcceptWheel(c, s, w, verdict.next), w, at);
    }
  }

  lemma CompleteLatest(c: Config, s: Peer, timestamp: nat)
    requires Ready(c, s)
    ensures NotOlder(s.store.latest, CompletePair(c, s, timestamp).store.latest)
  {
    var p := s.store;
    if timestamp in p.pendingRtk && timestamp in p.pendingImu {
      var s1 := Unpended(s, timestamp);
      var pose := c.recover(p.pendingRtk[timestamp], p.pendingImu[timestamp], p.previousOrientation);
      if pose.Some? && (p.latest.Some? ==> p.latest.value in p.poses && p.latest.value < timestamp) {
        DispatchStore(c, s1.(store := Remember(s1.store, timestamp, pose.value)));
      }
    }
  }

  lemma ApplyLatest(c: Config, s: Peer, e: Event)
    requires Inv(c, s)
    ensures NotOlder(s.store.latest, Apply(c, s, e).store.latest)
  {
    hide Inv, OnWheel, OnRtk, OnImu, DispatchParked, NeedsPose;
    InvParts(c, s);
    match e
    case WheelArrives(w, at) => WheelLatest(c, s, w, at);
    case RtkArrives(m) => RtkLatest(c, s, m);
    case ImuArrives(m) => ImuLatest(c, s, m);
    case BadPayload(topic) =>
    case OperatorFault(reason) =>
    case Tick(now) =>
      DispatchStore(c, s);
      DispatchStore(c, Latch(s, PoseStale));
  }

  lemma RtkLatest(c: Config, s: Peer, m: RtkState)
    requires Ready(c, s)
    ensures NotOlder(s.store.latest, OnRtk(c, s, m).store.latest)
  {
    var verdict := Accept(s.store.rtk, POSE_PERIOD, m.head);
    if verdict.Accepted? {
      var s1 := s.(store := s.store.(rtk := verdict.next));
      BaseIdentityShape(c, s1, m.head, RtkTopic);
      var s2 := AcceptBaseIdentity(c, s1, m.head, RtkTopic).0;
      CompleteLatest(c, s2.(store := s2.store.(pendingRtk := s2.store.pendingRtk[m.head.timestamp := m])),
        m.head.timestamp);
    }
  }

  lemma ImuLatest(c: Config, s: Peer, m: ImuAttitude)
    requires Ready(c, s)
    ensures NotOlder(s.store.latest, OnImu(c, s, m).store.latest)
  {
    var verdict := Accept(s.store.imu, POSE_PERIOD, m.head);
    if verdict.Accepted? {
      var s1 := s.(store := s.store.(imu := verdict.next));
      BaseIdentityShape(c, s1, m.head, ImuTopic);
      var s2 := AcceptBaseIdentity(c, s1, m.head, ImuTopic).0;
      CompleteLatest(c, s2.(store := s2.store.(pendingImu := s2.store.pendingImu[m.head.timestamp := m])),
        m.head.timestamp);
    }
  }

  lemma StepKeeps(c: Config, s: Peer, e: Event, r: Peer)
    requires Inv(c, s) && Step(c, s, e, r)
    ensures Inv(c, r) && Later(s, r) && r.log.accepted == s.log.accepted + Taken(s, e)
  {
    ApplyKeeps(c, s, e);
    ApplyLatest(c, s, e);
  }

  lemma {:induction false} RunInv(c: Config, run: Run, i: nat)
    requires IsRun(c, run) && i < |run.states|
    ensures Inv(c, run.states[i])
  {
    hide Step, Inv;
    if i == 0 {
      InitialInv(c);
    } else {
      RunInv(c, run, i - 1);
      var e := run.events[i - 1];
      StepKeeps(c, run.states[i - 1], e, run.states[i]);
    }
  }

  lemma {:induction false} RunLater(c: Config, run: Run, i: nat, j: nat)
    requires IsRun(c, run) && i <= j < |run.states|
    ensures Later(run.states[i], run.states[j])
    decreases j
  {
    hide Step, Inv;
    if i < j {
      RunLater(c, run, i, j - 1);
      RunInv(c, run, j - 1);
      var e := run.events[j - 1];
      StepKeeps(c, run.states[j - 1], e, run.states[j]);
      ExtendsTrans(run.states[i], run.states[j - 1], run.states[j]);
    }
  }
}
