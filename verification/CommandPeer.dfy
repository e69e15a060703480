/**
 The command peer in the form the process runs it: an object whose callbacks update its fields in
 place. Every method is proved to change the object's abstract value exactly as the corresponding
 function of `PeerModel` does, and every callback keeps `Valid`.
 */
module CommandPeer {
  import opened Basics
  import opened GolfPlan
  import opened PeerModel
  import opened PeerInvariants

  /** Strict sequence and cadence of one input stream. */
  class StreamProgress {
    const period: nat
    var expected: nat
    var last: Option<nat>

    constructor (period: nat)
      ensures this.period == period && Value() == FRESH
    {
      this.period := period;
      expected, last := 0, None;
    }

    function Value(): Progress
      reads this
    {
      Progress(expected, last)
    }

    method Accept(head: Header) returns (verdict: Verdict)
      modifies this
      ensures verdict == PeerModel.Accept(old(Value()), period, head)
      ensures Value() == if verdict.Accepted? then verdict.next else old(Value())
    {
      if head.sequence != expected {
        return WrongSequence;
      }
      if last.Some? && head.timestamp != last.value + period {
        return WrongCadence;
      }
      expected, last := expected + 1, Some(head.timestamp);
      return Accepted(Progress(expected, last));
    }
  }

  /** What follows the recovery of a pose, or its failure. */
  function AfterRecovery(c: Config, s: Peer, timestamp: nat, pose: Option<BasePose>): (r: Peer)
    requires Ready(c, s)
  {
    var p := s.store;
    if pose.None? then Latch(s, PoseInvalid)
    else if p.latest.Some? && p.latest.value !in p.poses then s.(escaped := true)
    else if p.latest.Some? && timestamp <= p.latest.value then
      Latch(s.(store := p.(previousOrientation := Some(pose.value.orientation))), PoseTimeStuck)
    else
      var s2 := DispatchParked(c, s.(store := Remember(p, timestamp, pose.value)));
      if s2.escaped then s2 else MaybeFinish(c, s2)
  }

  lemma CompletePairSteps(c: Config, s: Peer, timestamp: nat)
    requires Ready(c, s) && timestamp in s.store.pendingRtk && timestamp in s.store.pendingImu
    ensures var p := s.store;
            CompletePair(c, s, timestamp) ==
              AfterRecovery(c, Unpended(s, timestamp), timestamp,
                            c.recover(p.pendingRtk[timestamp], p.pendingImu[timestamp], p.previousOrientation))
  {
    hide DispatchParked, MaybeFinish;
  }

  class GolfCommandPeer {
    const c: Config
    const wheelProgress: StreamProgress
    const rtkProgress: StreamProgress
    const imuProgress: StreamProgress
    var fault: Option<Fault>
    var escaped: bool
    var baseIdentity: Option<(Bytes, nat)>
    var commandIdentity: Option<CommandIdentity>
    var pendingRtk: map<nat, RtkState>
    var pendingImu: map<nat, ImuAttitude>
    var poses: map<nat, BasePose>
    var previousOrientation: Option<Quaternion>
    var nextSequence: nat
    var published: nat
    var lastWheel: Option<nat>
    var latestPose: Option<nat>
    var latestSpeedSquared: real
    var lastSpeeds: Speeds
    var lagSince: Option<nat>
    var controller: Controller
    var parked: Option<Parked>
    var zeroSince: Option<nat>
    var quiet: nat
    var finished: bool
    ghost var log: Log

    ghost function Repr(): set<object> {
      {this, wheelProgress, rtkProgress, imuProgress}
    }

    ghost predicate Shaped()
      reads this
    {
      && wheelProgress != rtkProgress && wheelProgress != imuProgress && rtkProgress != imuProgress
      && wheelProgress.period == WHEEL_PERIOD && rtkProgress.period == POSE_PERIOD && imuProgress.period == POSE_PERIOD
    }

    ghost function Store(): PoseStore
      reads this, rtkProgress, imuProgress
    {
      PoseStore(rtkProgress.Value(), imuProgress.Value(), pendingRtk, pendingImu, poses, previousOrientation,
        latestPose, latestSpeedSquared)
    }

    /** The abstract value all the theorems speak about. */
    ghost function View(): Peer
      reads Repr()
    {
      Peer(fault, escaped, baseIdentity, commandIdentity, wheelProgress.Value(), Store(), nextSequence, published,
           lastWheel, lastSpeeds, lagSince, controller, parked, Completion(zeroSince, quiet, finished), log)
    }

    ghost predicate Valid()
      reads Repr()
    {
      Shaped() && Inv(c, View())
    }

    constructor (c: Config)
      requires c.Valid()
      ensures Valid() && this.c == c && View() == Initial()
      ensures fresh(Repr())
    {
      this.c := c;
      wheelProgress := new StreamProgress(WHEEL_PERIOD);
      rtkProgress := new StreamProgress(POSE_PERIOD);
      imuProgress := new StreamProgress(POSE_PERIOD);
      fault, escaped, baseIdentity, commandIdentity := None, false, None, None;
      pendingRtk, pendingImu, poses, previousOrientation := map[], map[], map[], None;
      nextSequence, published, lastWheel, latestPose, latestSpeedSquared := 0, 0, None, None, 0.0;
      lastSpeeds, lagSince, controller, parked := ZERO, None, Controller(None, None, ZERO, 0), None;
      zeroSince, quiet, finished := None, 0, false;
      log := Log([], [], [], [], 0, 0);
      new;
      InitialInv(c);
    }

    // ----- faults and identities -----

    method LatchFault(reason: Fault)
      modifies this`fault
      ensures fault == if old(fault).None? then Some(reason) else old(fault)
    {
      if fault.None? {
        fault := Some(reason);
      }
    }

    method AcceptBaseIdentity(head: Header, topic: Topic) returns (same: bool)
      modifies this`fault, this`baseIdentity
      ensures (View(), same) == PeerModel.AcceptBaseIdentity(c, old(View()), head, topic)
    {
      if head.descriptor != c.descriptor {
        LatchFault(DescriptorDiffers(topic));
        return false;
      }
      if baseIdentity.None? {
        baseIdentity := Some((head.session, head.world));
        return true;
      }
      if baseIdentity.value != (head.session, head.world) {
        LatchFault(IdentityChanged(topic));
        return false;
      }
      return true;
    }

    // ----- computing and publishing a command -----

    method CommandSpeeds(timestamp: nat) returns (speeds: Option<Speeds>)
      requires Ready(c, View())
      modifies this`fault, this`controller, this`lagSince
      ensures var (r, v) := PeerModel.CommandSpeeds(c, old(View()), timestamp);
              speeds == v && fault == r.fault && controller == r.controller && lagSince == r.lagSince
    {
      if fault.Some? {
        return Some(ZERO);
      }
      if timestamp > StopTime(c.route) {
        return Some(RampDown(lastSpeeds));
      }
      var pose := LatestPoseAt(poses, timestamp);
      if pose.None? {
        if timestamp > POSE_PERIOD {
          LatchFault(PoseMissing);
        }
        return Some(ZERO);
      }
      if timestamp - pose.value > POSE_PERIOD {
        LatchFault(PoseStale);
        return Some(ZERO);
      }
      var command := UpdateController(c, controller, timestamp, poses[pose.value]);
      if command.Backwards? {
        return None;
      }
      controller := command.next;
      if command.Skipped? {
        LatchFault(ControllerSkipped);
        return Some(ZERO);
      }
      ObserveRouteProgress(timestamp, command.distance);
      if fault.Some? {
        return Some(ZERO);
      }
      return Some(if timestamp == StopTime(c.route) then RampDown(lastSpeeds) else controller.speeds);
    }

    method ObserveRouteProgress(timestamp: nat, distance: real)
      requires c.Valid() && fault.None?
      modifies this`fault, this`lagSince
      ensures var watch := Observe(c.route, old(lagSince), timestamp, distance);
              && lagSince == watch.since
              && fault == if watch.fault.Some? then Some(RouteFault(watch.fault.value)) else None
    {
      var remaining := Length(c.route) - distance;
      if timestamp >= StopTime(c.route) && remaining > LAG_LIMIT_M {
        LatchFault(RouteFault(DeadlineMissed));
        return;
      }
      var scheduled := ScheduledRouteDistance(c.route, timestamp);
      if scheduled - distance <= LAG_LIMIT_M {
        lagSince := None;
        return;
      }
      if lagSince.None? {
        lagSince := Some(timestamp);
        return;
      }
      if timestamp - lagSince.value >= LAG_DURATION {
        LatchFault(RouteFault(Lagging));
      }
    }

    method MaybeFinish()
      requires c.Valid()
      modifies this`finished
      ensures View() == PeerModel.MaybeFinish(c, old(View()))
    {
      if fault.Some? || zeroSince.None? || lastWheel.None? || latestPose.None? {
        return;
      }
      finished :=
        && lastWheel.value >= FinishTime(c.route, c.vmax)
        && latestPose.value >= FinishTime(c.route, c.vmax)
        && lastWheel.value - zeroSince.value >= ZERO_TAIL;
    }

    method UpdateCompletion(w: WheelState, speeds: Speeds)
      requires c.Valid()
      modifies this`finished, this`quiet, this`zeroSince
      ensures View() == PeerModel.UpdateCompletion(c, old(View()), w, speeds)
    {
      if fault.Some? {
        var still := latestSpeedSquared < 0.0004 && forall i :: 0 <= i < |w.driveSpeeds| ==>
          Abs(w.driveSpeeds[i]) < 0.1;
        quiet := if still then quiet + 1 else 0;
        finished := quiet >= 20;
        return;
      }
      if w.head.timestamp < StopTime(c.route) {
        return;
      }
      if speeds == ZERO {
        if zeroSince.None? {
          zeroSince := Some(w.head.timestamp);
        }
      } else {
        zeroSince := None;
      }
      MaybeFinish();
    }

    /** The newest entry of the log is this command and what the transport does with it. */
    ghost predicate IsNewest(command: WheelCommand)
      reads this
    {
      && log.attempts != []
      && log.attempts[|log.attempts| - 1].command == command
      && log.attempts[|log.attempts| - 1].delivery == c.delivery(command.sequence)
    }

    /** Computes, numbers and logs the answer to a wheel state; None when an exception leaves. */
    method ChooseCommand(w: WheelState) returns (chosen: Option<WheelCommand>)
      requires Ready(c, View())
      modifies this`fault, this`controller, this`lagSince, this`nextSequence, this`log
      ensures chosen.Some? <==> PeerModel.CommandSpeeds(c, old(View()), w.head.timestamp).1.Some?
      ensures chosen.None? ==> View() == PeerModel.CommandSpeeds(c, old(View()), w.head.timestamp).0
      ensures chosen.Some? ==>
                && log.attempts != []
                && (View(), log.attempts[|log.attempts| - 1]) == Numbered(c, old(View()), w)
                && IsNewest(chosen.value)
    {
      hide PeerModel.CommandSpeeds;
      ghost var basis := LatestPoseAt(poses, w.head.timestamp);
      ghost var progress := Achieved(c, fault, poses, controller, w.head.timestamp);
      var speeds := CommandSpeeds(w.head.timestamp);
      if speeds.None? {
        return None;
      }
      var command := CommandFor(c, w, speeds.value, nextSequence);
      nextSequence := nextSequence + 1;
      ghost var attempt := Attempt(command, c.delivery(command.sequence), fault, basis, progress,
        AtRest(latestSpeedSquared, w.driveSpeeds), w, |log.frames|);
      log := log.(attempts := log.attempts + [attempt]);
      return Some(command);
    }

    /** Hands a command to the transport and records what came of it. */
    method HandOverCommand(w: WheelState, command: WheelCommand)
      requires c.Valid() && IsNewest(command)
      modifies this`fault, this`published, this`lastSpeeds, this`finished, this`quiet, this`zeroSince
      ensures View() == HandOver(c, old(View()), w, log.attempts[|log.attempts| - 1])
    {
      hide PeerModel.UpdateCompletion;
      match c.delivery(command.sequence)
      case Raised => LatchFault(PublishRaised);
      case Refused => LatchFault(PublishRefused);
      case Sent =>
        published := published + 1;
        lastSpeeds := command.speeds;
        UpdateCompletion(w, command.speeds);
    }

    method PublishCommand(w: WheelState)
      requires Ready(c, View())
      modifies this
      ensures View() == Publish(c, old(View()), w)
      ensures parked == old(parked) && Store() == old(Store())
    {
      hide PeerModel.CommandSpeeds, Numbered, HandOver;
      PublishStore(c, View(), w);
      PublishUnparked(c, View(), w);
      var chosen := ChooseCommand(w);
      if chosen.None? {
        escaped := true;
      } else {
        HandOverCommand(w, chosen.value);
      }
    }

    method DispatchPendingWheel()
      requires Ready(c, View())
      modifies this
      ensures View() == DispatchParked(c, old(View()))
    {
      if parked.None? {
        return;
      }
      var state := parked.value.state;
      if WheelNeedsPose(state.head.timestamp) {
        return;
      }
      parked := None;
      PublishCommand(state);
    }

    predicate WheelNeedsPose(timestamp: nat)
      requires Ready(c, View())
      reads Repr()
      ensures WheelNeedsPose(timestamp) == NeedsPose(c, View(), timestamp)
    {
      if fault.Some? || timestamp > StopTime(c.route) then false
      else
        var pose := LatestPoseAt(poses, timestamp);
        pose.None? || timestamp - pose.value > POSE_PERIOD
    }

    // ----- callbacks -----

    method CompletePosePair(timestamp: nat)
      requires Ready(c, View())
      modifies this
      ensures View() == CompletePair(c, old(View()), timestamp)
    {
      if timestamp !in pendingRtk || timestamp !in pendingImu {
        return;
      }
      CompletePairSteps(c, View(), timestamp);
      hide CompletePair, AfterRecovery;
      var pose := c.recover(pendingRtk[timestamp], pendingImu[timestamp], previousOrientation);
      log := log.(pairs := log.pairs + [timestamp],
        frames := log.frames + [Joined(pendingRtk[timestamp], pendingImu[timestamp])]);
      pendingRtk, pendingImu := pendingRtk - {timestamp}, pendingImu - {timestamp};
      AcceptPose(timestamp, pose);
    }

    method AcceptPose(timestamp: nat, pose: Option<BasePose>)
      requires Ready(c, View())
      modifies this
      ensures View() == AfterRecovery(c, old(View()), timestamp, pose)
    {
      hide DispatchParked, Remember, PeerModel.MaybeFinish;
      if pose.None? {
        LatchFault(PoseInvalid);
        return;
      }
      if latestPose.Some? && latestPose.value !in poses {
        escaped := true;
        return;
      }
      if latestPose.Some? && timestamp <= latestPose.value {
        previousOrientation := Some(pose.value.orientation);
        LatchFault(PoseTimeStuck);
        return;
      }
      RememberPose(timestamp, pose.value);
      DispatchPendingWheel();
      if !escaped {
        MaybeFinish();
      }
    }

    /** The recovered pose joins the retained ones and gives the observed speed. */
    method RememberPose(timestamp: nat, pose: BasePose)
      requires latestPose.Some? ==> latestPose.value in poses && latestPose.value < timestamp
      modifies this`poses, this`latestPose, this`latestSpeedSquared, this`previousOrientation
      ensures View() == old(View()).(store := Remember(old(Store()), timestamp, pose))
    {
      hide Trim, SquaredDistance;
      if latestPose.Some? {
        var elapsed := Seconds(timestamp - latestPose.value);
        latestSpeedSquared := SpeedSquared(SquaredDistance(poses[latestPose.value].position, pose.position), elapsed);
      }
      previousOrientation := Some(pose.orientation);
      TrimPoses(poses[timestamp := pose]);
      latestPose := Some(timestamp);
    }

    /** Keeps the four newest poses, deleting the oldest one at a time. */
    method TrimPoses(all: map<nat, BasePose>)
      modifies this`poses
      ensures poses == Trim(all)
    {
      poses := all;
      while |poses| > 4
        invariant Trim(poses) == Trim(all)
        decreases |poses|
      {
        var oldest := Oldest(poses.Keys);
        RemoveCounts(poses, oldest);
        poses := poses - {oldest};
      }
    }

    method LatchLive(reason: Fault)
      requires Valid() && LiveFault(Some(reason))
      modifies this`fault
      ensures Valid() && View() == Latch(old(View()), reason)
    {
      hide Inv;
      LatchKeeps(c, View(), reason);
      LatchFault(reason);
    }

    method AcceptRtkMessage(m: RtkState)
      requires Shaped() && Ready(c, View())
      modifies this, rtkProgress
      ensures View() == OnRtk(c, old(View()), m)
    {
      hide CompletePair, PeerModel.AcceptBaseIdentity;
      var verdict := rtkProgress.Accept(m.head);
      if !verdict.Accepted? {
        LatchFault(if verdict.WrongSequence? then SequenceBroken(RtkTopic) else CadenceBroken(RtkTopic));
        return;
      }
      var same := AcceptBaseIdentity(m.head, RtkTopic);
      if !same {
        log := log.(rtkRejected := log.rtkRejected + 1);
        return;
      }
      pendingRtk := pendingRtk[m.head.timestamp := m];
      CompletePosePair(m.head.timestamp);
    }

    /** The subscriber callback; a payload that does not decode arrives as None. */
    method OnRtkPayload(decoded: Option<RtkState>)
      requires Valid()
      modifies this, rtkProgress
      ensures Valid()
      ensures View() == if decoded.None? then Latch(old(View()), PayloadInvalid(RtkTopic))
                else OnRtk(c, old(View()), decoded.value)
    {
      assert Ready(c, View());
      hide Inv, OnRtk;
      if decoded.None? {
        LatchLive(PayloadInvalid(RtkTopic));
      } else {
        RtkKeeps(c, View(), decoded.value);
        AcceptRtkMessage(decoded.value);
      }
    }

    method AcceptImuMessage(m: ImuAttitude)
      requires Shaped() && Ready(c, View())
      modifies this, imuProgress
      ensures View() == OnImu(c, old(View()), m)
    {
      hide CompletePair, PeerModel.AcceptBaseIdentity;
      var verdict := imuProgress.Accept(m.head);
      if !verdict.Accepted? {
        LatchFault(if verdict.WrongSequence? then SequenceBroken(ImuTopic) else CadenceBroken(ImuTopic));
        return;
      }
      var same := AcceptBaseIdentity(m.head, ImuTopic);
      if !same {
        log := log.(imuRejected := log.imuRejected + 1);
        return;
      }
      pendingImu := pendingImu[m.head.timestamp := m];
      CompletePosePair(m.head.timestamp);
    }

    /** The subscriber callback; a payload that does not decode arrives as None. */
    method OnImuPayload(decoded: Option<ImuAttitude>)
      requires Valid()
      modifies this, imuProgress
      ensures Valid()
      ensures View() == if decoded.None? then Latch(old(View()), PayloadInvalid(ImuTopic))
                else OnImu(c, old(View()), decoded.value)
    {
      assert Ready(c, View());
      hide Inv, OnImu;
      if decoded.None? {
        LatchLive(PayloadInvalid(ImuTopic));
      } else {
        ImuKeeps(c, View(), decoded.value);
        AcceptImuMessage(decoded.value);
      }
    }

    method CheckWheelContent(w: WheelState)
      modifies this`fault, this`baseIdentity, this`commandIdentity
      ensures View() == CheckWheel(c, old(View()), w)
    {
      hide PeerModel.AcceptBaseIdentity, IdentityOf;
      var _ := AcceptBaseIdentity(w.head, WheelTopic);
      if w.robotModel != "df_mid" || |w.driveSpeeds| != 2 || w.steeringAngles != [] {
        LatchFault(WheelOrderDiffers);
      }
      if w.peerCount != 1 || (w.authority != Claimable && w.authority != Active) {
        LatchFault(PeerCountDiffers);
      }
      if w.authority == Active && (w.ownerId != c.sourceId || w.ownerSession != c.sourceSession) {
        LatchFault(CommandOwnerDiffers);
      }
      if commandIdentity.None? {
        commandIdentity := Some(IdentityOf(w));
      } else if commandIdentity.value != IdentityOf(w) {
        LatchFault(CommandIdentityChanged);
      }
    }

    method AcceptWheelState(w: WheelState) returns (accepted: bool)
      requires Shaped() && Ready(c, View())
      modifies this, wheelProgress
      ensures Ready(c, View())
      ensures var verdict := Accept(old(wheelProgress.Value()), WHEEL_PERIOD, w.head);
              && accepted == verdict.Accepted?
              && View() == if accepted then AcceptWheel(c, old(View()), w, verdict.next)
                   else RejectStream(old(View()), verdict, WheelTopic)
    {
      var verdict := wheelProgress.Accept(w.head);
      if !verdict.Accepted? {
        LatchFault(if verdict.WrongSequence? then SequenceBroken(WheelTopic) else CadenceBroken(WheelTopic));
        return false;
      }
      lastWheel := Some(w.head.timestamp);
      log := log.(accepted := log.accepted + [w]);
      CheckWheelContent(w);
      return true;
    }

    method AnswerWheelState(w: WheelState, receivedAt: real)
      requires Ready(c, View())
      modifies this
      ensures View() == AfterAccept(c, old(View()), w, receivedAt)
    {
      if parked.Some? {
        LatchFault(AdvancedWhilePending);
        DispatchPendingWheel();
        if !escaped {
          PublishCommand(w);
        }
      } else if WheelNeedsPose(w.head.timestamp) {
        parked := Some(Parked(w, receivedAt));
      } else {
        PublishCommand(w);
      }
    }

    method OnWheelState(w: WheelState, receivedAt: real)
      requires Shaped() && Ready(c, View())
      modifies this, wheelProgress
      ensures View() == OnWheel(c, old(View()), w, receivedAt)
    {
      hide AfterAccept, AcceptWheel;
      var accepted := AcceptWheelState(w);
      if accepted {
        AnswerWheelState(w, receivedAt);
      }
    }

    method OnWheelPayload(decoded: Option<WheelState>, receivedAt: real)
      requires Valid()
      modifies this, wheelProgress
      ensures Valid()
      ensures View() == if decoded.None? then Latch(old(View()), PayloadInvalid(WheelTopic))
                else OnWheel(c, old(View()), decoded.value, receivedAt)
    {
      assert Ready(c, View());
      hide Inv, OnWheel;
      if decoded.None? {
        LatchLive(PayloadInvalid(WheelTopic));
      } else {
        WheelKeeps(c, View(), decoded.value, receivedAt);
        OnWheelState(decoded.value, receivedAt);
      }
    }

    /** External code reports a fault; an empty reason is refused before any change. */
    method LatchExternalFault(reason: string)
      requires Valid()
      modifies this
      ensures Valid() && View() == if reason == "" then old(View()) else Latch(old(View()), External(reason))
    {
      if reason != "" {
        LatchLive(External(reason));
      }
    }

    method ServicePendingWheel(now: real)
      requires Valid()
      modifies this
      ensures Valid() && View() == Service(c, old(View()), now)
    {
      hide Inv, DispatchParked, NeedsPose;
      InvParts(c, View());
      ServiceKeeps(c, View(), now);
      if parked.None? {
        return;
      }
      var age := now - parked.value.receivedAt;
      if age < 0.0 {
        return;
      }
      if fault.None? && age >= GRACE_SEC && WheelNeedsPose(parked.value.state.head.timestamp) {
        LatchFault(PoseStale);
      }
      DispatchPendingWheel();
    }
  }
}
