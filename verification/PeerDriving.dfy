/**
 What the peer's commands are, over all runs: every driving command is one pursuit step from the newest
 recovered pose, every quiet reading is a base at rest, and the route deadline is enforced at the stop.
 */
module PeerDriving {
  import opened Basics
  import opened GolfPlan
  import opened PeerModel
  import opened PeerInvariants
  import opened PeerTheorems
  import opened PeerTrace
  import opened PeerHistory

  /**
   Every fault-free answer up to the stop takes one pursuit step, from where the answers before it led,
   towards the pose that its own entry names: the newest one recovered so far that is not later than the
   wheel state. Before the stop the command is that step's speeds, left and right.
   */
  lemma DrivingFollowsPoses(c: Config, run: Run, i: nat, k: nat)
    requires IsRun(c, run) && i < |run.states| && k < |run.states[i].log.attempts|
    requires var a := run.states[i].log.attempts[k]; a.fault.None? && a.command.timestamp <= StopTime(c.route)
    ensures var att, frames := run.states[i].log.attempts, run.states[i].log.frames;
            var a, basis := att[k], Basis(c, frames, att[k]);
            var before, after := Driven(c, frames, att[..k]), Driven(c, frames, att[..k + 1]);
            && basis.Some? && a.pose == Some(basis.value.timestamp)
            && FreshFor(basis.value.timestamp, a.command.timestamp)
            && after == Pursue(c, before, basis.value.pose) && a.progress == Some(after.distance)
            && (a.command.timestamp < StopTime(c.route) ==>
                  a.command.speeds.left == after.speeds.left && a.command.speeds.right == after.speeds.right)
  {
    hide Inv, Basis, Driven, Pursue, Resting, StopTime;
    RunTraced(c, run, i);
    var s := run.states[i];
    var att, frames := s.log.attempts, s.log.frames;
    AnswersFresh(c, run, i, k);
    assert Informed(c, frames, att[k]) && Follows(c, frames, att, k);
    DrivenSnoc(c, frames, att[..k], att[k]);
    assert att[..k + 1] == att[..k] + [att[k]];
  }

  lemma AnswersFresh(c: Config, run: Run, i: nat, k: nat)
    requires IsRun(c, run) && i < |run.states| && k < |run.states[i].log.attempts|
    ensures FreshPose(c, run.states[i].log.attempts[k])
  {
    RunInv(c, run, i);
  }

  ghost predicate WithinSlew(before: Speeds, after: Speeds) {
    Abs(after.left - before.left) <= SLEW && Abs(after.right - before.right) <= SLEW
  }

  lemma RampWithinSlew(v: Speeds)
    ensures WithinSlew(v, RampDown(v))
  {
  }

  lemma PursuitWithinSlew(c: Config, d: Drive, pose: BasePose)
    requires d.segment < |c.route|
    ensures WithinSlew(d.speeds, Pursue(c, d, pose).speeds)
  {
  }

  /** From one fault-free command to the next, and from rest to the first, no wheel changes by more than 0.2 rad/s. */
  lemma AccelerationLimit(c: Config, run: Run, i: nat, k: nat)
    requires IsRun(c, run) && i < |run.states| && k < |run.states[i].log.attempts|
    requires run.states[i].log.attempts[k].fault.None?
    ensures WithinSlew(Before(run.states[i].log.attempts, k), run.states[i].log.attempts[k].command.speeds)
  {
    hide Inv, Step, Basis, Driven, Pursue, StopTime, Before, WithinSlew, RampDown;
    var att, frames := run.states[i].log.attempts, run.states[i].log.frames;
    if att[k].command.timestamp >= StopTime(c.route) {
      StopRamp(c, run, i, k);
      RampWithinSlew(Before(att, k));
    } else {
      DrivingFollowsPoses(c, run, i, k);
      PursuitWithinSlew(c, Driven(c, frames, att[..k]), Basis(c, frames, att[k]).value.pose);
      DrivenSoFar(c, run, i, k);
    }
  }

  /** Before the stop the drive so far has the speeds of the last command. */
  lemma DrivenSoFar(c: Config, run: Run, i: nat, k: nat)
    requires IsRun(c, run) && i < |run.states| && k < |run.states[i].log.attempts|
    requires var a := run.states[i].log.attempts[k]; a.fault.None? && a.command.timestamp < StopTime(c.route)
    ensures Driven(c, run.states[i].log.frames, run.states[i].log.attempts[..k]).speeds ==
              Before(run.states[i].log.attempts, k)
  {
    if k > 0 {
      EarlierIsFaultless(c, run.states[i], k) by {
        RunInv(c, run, i);
      }
      hide Inv, Step, Basis, Pursue, StopTime;
      DrivingFollowsPoses(c, run, i, k - 1);
    }
  }

  lemma EarlierIsFaultless(c: Config, s: Peer, k: nat)
    requires Inv(c, s) && 0 < k < |s.log.attempts| && s.log.attempts[k].fault.None?
    ensures var a, b := s.log.attempts[k - 1], s.log.attempts[k];
            a.fault.None? && a.command.timestamp + WHEEL_PERIOD == b.command.timestamp
  {
    AttemptOrder(c, s);
  }

  /** Whether an answer read the base as quiet is whether the base was at rest, by the poses recovered until then. */
  lemma QuietMeansAtRest(c: Config, run: Run, i: nat, k: nat)
    requires IsRun(c, run) && i < |run.states| && k < |run.states[i].log.attempts|
    ensures var s := run.states[i];
            var a := s.log.attempts[k];
            var known := Recovered(c, s.log.frames[..Min(a.joined, |s.log.frames|)]);
            && a.joined <= |s.log.frames| && InOrder(known)
            && |WheelsOf(run.events, i).1| > k && a.wheel == WheelsOf(run.events, i).1[k]
            && (a.quiet <==> Resting(known, WheelsOf(run.events, i).1[k].driveSpeeds))
  {
    RunInv(c, run, i);
    AcceptedByEvents(c, run, i);
    hide Inv, Resting, Recovered, Step;
    RunTraced(c, run, i);
    assert Informed(c, run.states[i].log.frames, run.states[i].log.attempts[k]);
  }

  /**
   An answer that observed its distance ends the drive exactly when, at the stop, more than 0.75 m of the
   route are left; the observation is the pursued segment's start plus the distance along it.
   */
  lemma DeadlineExactly(c: Config, run: Run, i: nat, k: nat)
    requires IsRun(c, run) && i < |run.states| && k < |run.states[i].log.attempts|
    requires run.states[i].log.attempts[k].progress.Some?
    ensures var s := run.states[i];
            var a, d := s.log.attempts[k], Driven(c, s.log.frames, s.log.attempts[..k + 1]);
            && a.progress == Some(d.distance)
            && (a.fault == Some(RouteFault(DeadlineMissed)) <==>
                  a.command.timestamp == StopTime(c.route) && Length(c.route) - d.distance > 0.75)
  {
    hide Driven, Basis, StopTime, Length, Samples, WatchAll, Scheduled, Resting, Recovered;
    RunTraced(c, run, i);
    RunRecorded(c, run, i);
    var s := run.states[i];
    assert Informed(c, s.log.frames, s.log.attempts[k]) && Follows(c, s.log.frames, s.log.attempts, k);
    assert Watched(c, s.log.attempts, k);
  }

  // ----- where the joined samples come from -----

  ghost predicate HeardRtk(run: Run, n: nat, m: RtkState) {
    exists j :: 0 <= j < n && j < |run.events| && run.events[j] == RtkArrives(m)
  }

  ghost predicate HeardImu(run: Run, n: nat, m: ImuAttitude) {
    exists j :: 0 <= j < n && j < |run.events| && run.events[j] == ImuArrives(m)
  }

  /** A sample that waits afterwards waited before or just arrived; at most one pair of such samples joins. */
  ghost predicate Takes(s: Peer, e: Event, r: Peer) {
    && (forall t :: t in r.store.pendingRtk ==> FromRtk(s, e, r.store.pendingRtk[t]))
    && (forall t :: t in r.store.pendingImu ==> FromImu(s, e, r.store.pendingImu[t]))
    && (r.log.frames == s.log.frames ||
         exists f :: r.log.frames == s.log.frames + [f] && FromRtk(s, e, f.rtk) && FromImu(s, e, f.imu))
  }

  ghost predicate FromRtk(s: Peer, e: Event, m: RtkState) {
    e == RtkArrives(m) || exists t :: t in s.store.pendingRtk && s.store.pendingRtk[t] == m
  }

  ghost predicate FromImu(s: Peer, e: Event, m: ImuAttitude) {
    e == ImuArrives(m) || exists t :: t in s.store.pendingImu && s.store.pendingImu[t] == m
  }

  ghost predicate SameSamples(s: Peer, r: Peer) {
    && r.store.pendingRtk == s.store.pendingRtk && r.store.pendingImu == s.store.pendingImu
    && r.log.frames == s.log.frames
  }

  lemma PublishSamples(c: Config, s: Peer, w: WheelState)
    requires Ready(c, s)
    ensures SameSamples(s, Publish(c, s, w))
  {
  }

  lemma DispatchSamples(c: Config, s: Peer)
    requires Ready(c, s)
    ensures SameSamples(s, DispatchParked(c, s))
  {
    hide Publish, NeedsPose;
    if s.parked.Some? {
      PublishSamples(c, s.(parked := None), s.parked.value.state);
    }
  }

  /** Joining takes both samples of one time and nothing else. */
  lemma CompleteSamples(c: Config, s: Peer, timestamp: nat)
    requires Ready(c, s)
    ensures var p, r := s.store, CompletePair(c, s, timestamp);
            if timestamp in p.pendingRtk && timestamp in p.pendingImu then
              && r.log.frames == s.log.frames + [Joined(p.pendingRtk[timestamp], p.pendingImu[timestamp])]
              && r.store.pendingRtk == p.pendingRtk - {timestamp} && r.store.pendingImu == p.pendingImu - {timestamp}
            else SameSamples(s, r)
  {
    hide DispatchParked, Remember;
    var p := s.store;
    if timestamp in p.pendingRtk && timestamp in p.pendingImu {
      var s1 := Unpended(s, timestamp);
      var pose := c.recover(p.pendingRtk[timestamp], p.pendingImu[timestamp], p.previousOrientation);
      if pose.Some? && (p.latest.Some? ==> p.latest.value in p.poses && p.latest.value < timestamp) {
        RememberPending(s1.store, timestamp, pose.value);
        DispatchSamples(c, s1.(store := Remember(s1.store, timestamp, pose.value)));
      }
    }
  }

  lemma RtkTakes(c: Config, s: Peer, m: RtkState)
    requires Ready(c, s)
    ensures Takes(s, RtkArrives(m), OnRtk(c, s, m))
  {
    hide CompletePair;
    var verdict := Accept(s.store.rtk, POSE_PERIOD, m.head);
    if verdict.Accepted? {
      var s1 := s.(store := s.store.(rtk := verdict.next));
      BaseIdentityShape(c, s1, m.head, RtkTopic);
      var (r, same) := AcceptBaseIdentity(c, s1, m.head, RtkTopic);
      if same {
        CompleteSamples(c, r.(store := r.store.(pendingRtk := r.store.pendingRtk[m.head.timestamp := m])),
          m.head.timestamp);
      }
    }
  }

  lemma ImuTakes(c: Config, s: Peer, m: ImuAttitude)
    requires Ready(c, s)
    ensures Takes(s, ImuArrives(m), OnImu(c, s, m))
  {
    hide CompletePair;
    var verdict := Accept(s.store.imu, POSE_PERIOD, m.head);
    if verdict.Accepted? {
      var s1 := s.(store := s.store.(imu := verdict.next));
      BaseIdentityShape(c, s1, m.head, ImuTopic);
      var (r, same) := AcceptBaseIdentity(c, s1, m.head, ImuTopic);
      if same {
        CompleteSamples(c, r.(store := r.store.(pendingImu := r.store.pendingImu[m.head.timestamp := m])),
          m.head.timestamp);
      }
    }
  }

  lemma WheelSamples(c: Config, s: Peer, w: WheelState, at: real)
    requires Ready(c, s)
    ensures SameSamples(s, OnWheel(c, s, w, at))
  {
    hide Publish, DispatchParked, NeedsPose, CheckWheel;
    var verdict := Accept(s.wheel, WHEEL_PERIOD, w.head);
    if verdict.Accepted? {
      CheckWheelShape(c, s.(wheel := verdict.next, lastWheel := Some(w.head.timestamp),
                            log := s.log.(accepted := s.log.accepted + [w])), w);
      var r := AcceptWheel(c, s, w, verdict.next);
      var s1 := Latch(r, AdvancedWhilePending);
      DispatchSamples(c, s1);
      PublishSamples(c, DispatchParked(c, s1), w);
      PublishSamples(c, r, w);
    }
  }

  lemma ApplyTakes(c: Config, s: Peer, e: Event)
    requires Ready(c, s)
    ensures Takes(s, e, Apply(c, s, e))
  {
    hide OnWheel, OnRtk, OnImu, DispatchParked, NeedsPose;
    match e
    case WheelArrives(w, at) => WheelSamples(c, s, w, at);
    case RtkArrives(m) => RtkTakes(c, s, m);
    case ImuArrives(m) => ImuTakes(c, s, m);
    case BadPayload(topic) =>
    case OperatorFault(reason) =>
    case Tick(now) =>
      DispatchSamples(c, s);
      DispatchSamples(c, Latch(s, PoseStale));
  }

  ghost predicate Sourced(run: Run, n: nat, s: Peer) {
    && (forall t :: t in s.store.pendingRtk ==> HeardRtk(run, n, s.store.pendingRtk[t]))
    && (forall t :: t in s.store.pendingImu ==> HeardImu(run, n, s.store.pendingImu[t]))
    && (forall k :: 0 <= k < |s.log.frames| ==>
          HeardRtk(run, n, s.log.frames[k].rtk) && HeardImu(run, n, s.log.frames[k].imu))
  }

  lemma TakesSourced(run: Run, n: nat, s: Peer, r: Peer)
    requires n < |run.events| && Sourced(run, n, s) && Takes(s, run.events[n], r)
    ensures Sourced(run, n + 1, r)
  {
    forall m | FromRtk(s, run.events[n], m) ensures HeardRtk(run, n + 1, m) {
      assert run.events[n] == RtkArrives(m) || HeardRtk(run, n, m);
    }
    forall m | FromImu(s, run.events[n], m) ensures HeardImu(run, n + 1, m) {
      assert run.events[n] == ImuArrives(m) || HeardImu(run, n, m);
    }
    forall k | 0 <= k < |s.log.frames|
      ensures HeardRtk(run, n + 1, s.log.frames[k].rtk) && HeardImu(run, n + 1, s.log.frames[k].imu)
    {
      assert HeardRtk(run, n, s.log.frames[k].rtk) && HeardImu(run, n, s.log.frames[k].imu);
    }
  }

  lemma {:induction false} RunSourced(c: Config, run: Run, i: nat)
    requires IsRun(c, run) && i < |run.states|
    ensures Sourced(run, i, run.states[i])
  {
    hide Sourced, Takes, Apply;
    if i == 0 {
      NothingSourced(run);
    } else {
      RunSourced(c, run, i - 1);
      ApplyTakes(c, run.states[i - 1], run.events[i - 1]);
      TakesSourced(run, i - 1, run.states[i - 1], run.states[i]);
    }
  }

  lemma NothingSourced(run: Run)
    ensures Sourced(run, 0, Initial())
  {
  }

  /**
   The retained poses are the four newest recoveries. Each recovery is of an RTK and an IMU sample of one
   time that both arrived, given the orientation recovered before it, and the samples join in time order.
   */
  lemma PosesAreRecoveries(c: Config, run: Run, i: nat)
    requires IsRun(c, run) && i < |run.states|
    ensures var s, known := run.states[i], Recovered(c, run.states[i].log.frames);
            && InOrder(known) && Kept(s.store.poses, known)
            && |s.log.frames| == |s.log.pairs|
            && (forall k :: 0 <= k < |s.log.frames| ==>
                  var f := s.log.frames[k];
                  && f.rtk.head.timestamp == f.imu.head.timestamp == s.log.pairs[k]
                  && HeardRtk(run, i, f.rtk) && HeardImu(run, i, f.imu))
            && (forall j, k :: 0 <= j < k < |s.log.frames| ==>
                  s.log.frames[j].rtk.head.timestamp < s.log.frames[k].rtk.head.timestamp)
  {
    RunTraced(c, run, i);
    PosePairing(c, run, i);
    RunSourced(c, run, i);
    hide Inv, Step, Recovered, Answers, Steered, Kept, HeardRtk, HeardImu, IsRun;
    var s := run.states[i];
    assert Sourced(run, i, s);
  }
}
