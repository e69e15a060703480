/**
 Executions without a fault: when messages carry one identity and the expected content, every pose can be
 recovered, nothing is lost and the route is shorter than the lag limit, some execution reaches the end
 of the window with a finished peer. So the theorems about fault-free executions speak about some.
 */
module BenignExecutions {
  import opened Basics
  import opened GolfPlan
  import opened PeerModel
  import opened PeerInvariants
  import opened PeerIdentities
  import opened PeerResponses
  import opened PeerDeliveries
  import PeerTheorems
  import opened Lockstep
  import opened LockstepTheorems
  import opened LockstepCompletion

  /** No observation of the route progress can be out of bounds. */
  ghost predicate EasyRoute(c: Config) {
    c.Valid() && Length(c.route) <= LAG_LIMIT_M && forall segment, pose :: c.track(segment, pose).along >= 0.0
  }

  ghost predicate Benign(p: Plant, base: (Bytes, nat), command: CommandIdentity) {
    && p.Valid() && Lossless(p) && EasyRoute(p.c)
    && (forall m, n, previous :: p.c.recover(m, n, previous).Some?)
    && (forall k: nat :: Consistent(p.c, Some(base), Some(command), p.wheel(k)))
    && (forall m: nat :: p.rtk(m).head.descriptor == p.c.descriptor && BaseOf(p.rtk(m).head) == base)
    && (forall m: nat :: p.imu(m).head.descriptor == p.c.descriptor && BaseOf(p.imu(m).head) == base)
  }

  /** No fault so far, and the frozen identities are the common ones. */
  predicate Calm(s: Peer, base: (Bytes, nat), command: CommandIdentity) {
    && s.fault.None?
    && (s.baseIdentity.None? || s.baseIdentity == Some(base))
    && (s.commandIdentity.None? || s.commandIdentity == Some(command))
  }

  lemma EasyObservation(c: Config, since: Option<nat>, timestamp: nat, distance: real)
    requires EasyRoute(c) && distance >= 0.0
    ensures Observe(c.route, since, timestamp, distance).fault.None?
  {
    hide Scheduled, Length, StopTime;
    assert Seconds(timestamp) >= 0.0;
    ScheduledBounds(c.route, Seconds(timestamp));
  }

  lemma TravelledNonnegative(c: Config, segment: nat)
    requires c.Valid() && segment <= |c.route|
    ensures Travelled(c.route, segment) >= 0.0
  {
    LengthNonnegative(c.route[..segment]);
  }

  lemma EasyDistance(c: Config, ctl: Controller, timestamp: nat, pose: BasePose)
    requires EasyRoute(c) && ctl.segment < |c.route|
    ensures var r := UpdateController(c, ctl, timestamp, pose);
            r.Issued? ==> r.distance >= 0.0 && r.next.segment < |c.route|
  {
    hide Travelled, Scaled, Length;
    TravelledNonnegative(c, ctl.segment);
    if ctl.segment + 1 < |c.route| {
      TravelledNonnegative(c, ctl.segment + 1);
    }
  }

  lemma EasySpeeds(c: Config, s: Peer, timestamp: nat)
    requires Ready(c, s) && EasyRoute(c) && s.fault.None? && !NeedsPose(c, s, timestamp)
    ensures var r := CommandSpeeds(c, s, timestamp).0.fault; r.None? || r == Some(ControllerSkipped)
  {
    hide UpdateController, Observe, EasyRoute;
    if timestamp <= StopTime(c.route) {
      var pose := LatestPoseAt(s.store.poses, timestamp);
      EasyDistance(c, s.controller, timestamp, s.store.poses[pose.value]);
      var command := UpdateController(c, s.controller, timestamp, s.store.poses[pose.value]);
      if command.Issued? {
        EasyObservation(c, s.lagSince, timestamp, command.distance);
      }
    }
  }

  /** An answer latches nothing but what the invariant excludes. */
  lemma EasyPublish(c: Config, s: Peer, w: WheelState)
    requires Ready(c, s) && EasyRoute(c) && s.fault.None? && !NeedsPose(c, s, w.head.timestamp)
    requires c.delivery(s.nextSequence).Sent?
    ensures var r := Publish(c, s, w).fault; r.None? || r == Some(ControllerSkipped)
  {
    EasySpeeds(c, s, w.head.timestamp);
    hide CommandSpeeds, EasyRoute, NeedsPose, Achieved, UpdateCompletion;
    SpeedsKeepSequence(c, s, w.head.timestamp);
  }

  lemma SpeedsKeepSequence(c: Config, s: Peer, timestamp: nat)
    requires Ready(c, s)
    ensures CommandSpeeds(c, s, timestamp).0.nextSequence == s.nextSequence
  {
  }

  lemma EasyDispatch(c: Config, s: Peer)
    requires Ready(c, s) && EasyRoute(c) && s.fault.None? && c.delivery(s.nextSequence).Sent?
    ensures var r := DispatchParked(c, s).fault; r.None? || r == Some(ControllerSkipped)
  {
    hide Publish, EasyRoute;
    if s.parked.Some? && !NeedsPose(c, s, s.parked.value.state.head.timestamp) {
      EasyPublish(c, s.(parked := None), s.parked.value.state);
    }
  }

  lemma EasyPair(c: Config, s: Peer, timestamp: nat)
    requires Ready(c, s) && EasyRoute(c) && s.fault.None? && c.delivery(s.nextSequence).Sent?
    requires forall m, n, previous :: c.recover(m, n, previous).Some?
    ensures var r := CompletePair(c, s, timestamp).fault; r.None? || Unreached(r.value)
  {
    hide DispatchParked, Remember, EasyRoute;
    var p := s.store;
    if timestamp in p.pendingRtk && timestamp in p.pendingImu {
      var pose := c.recover(p.pendingRtk[timestamp], p.pendingImu[timestamp], p.previousOrientation);
      if p.latest.Some? ==> p.latest.value in p.poses && p.latest.value < timestamp {
        var s1 := Unpended(s, timestamp);
        EasyDispatch(c, s1.(store := Remember(s1.store, timestamp, pose.value)));
      }
    }
  }

  lemma Reached(c: Config, s: Peer)
    requires Inv(c, s)
    ensures s.fault.Some? ==> !Unreached(s.fault.value)
  {
  }

  // ----- every delivery keeps the calm -----

  lemma CalmWheel(p: Plant, j: Joint, at: real, base: (Bytes, nat), command: CommandIdentity)
    requires Sound(p, j) && Benign(p, base, command) && Calm(j.peer, base, command) && j.wheels != []
    ensures Ready(p.c, j.peer) && Calm(OnWheel(p.c, j.peer, j.wheels[0], at), base, command)
  {
    hide Sound, OnWheel, Inv, NeedsPose, CheckWheel;
    SoundInv(p, j);
    var w := NextWheel(p, j);
    var next := Accept(j.peer.wheel, WHEEL_PERIOD, w.head).next;
    CheckWheelExactly(p.c, j.peer.(wheel := next, lastWheel := Some(w.head.timestamp),
                                   log := j.peer.log.(accepted := j.peer.log.accepted + [w])), w);
    WheelKeeps(p.c, j.peer, w, at);
    Reached(p.c, OnWheel(p.c, j.peer, w, at));
    EasyWheel(p.c, j.peer, w, at);
  }

  lemma NextWheel(p: Plant, j: Joint) returns (w: WheelState)
    requires Sound(p, j) && j.wheels != []
    ensures w == j.wheels[0] == p.wheel(|j.peer.log.accepted|) && j.peer.parked.None? && Ready(p.c, j.peer)
    ensures Accept(j.peer.wheel, WHEEL_PERIOD, w.head).Accepted?
  {
    w := j.wheels[0];
    WheelIsNext(p, j);
    hide Inv;
    assert j.wheels[0] == p.wheel(|j.peer.log.accepted| + 0);
  }

  lemma EasyWheel(c: Config, s: Peer, w: WheelState, at: real)
    requires Ready(c, s) && EasyRoute(c) && s.parked.None? && Accept(s.wheel, WHEEL_PERIOD, w.head).Accepted?
    requires AcceptWheel(c, s, w, Accept(s.wheel, WHEEL_PERIOD, w.head).next).fault.None?
    requires forall k: nat :: c.delivery(k).Sent?
    ensures var r, checked := OnWheel(c, s, w, at), AcceptWheel(c, s, w, Accept(s.wheel, WHEEL_PERIOD, w.head).next);
            && (r.fault.None? || Unreached(r.fault.value))
            && r.baseIdentity == checked.baseIdentity && r.commandIdentity == checked.commandIdentity
  {
    hide AcceptWheel, CheckWheel, Publish, EasyRoute, NeedsPose;
    var next := Accept(s.wheel, WHEEL_PERIOD, w.head).next;
    ChecksOnly(c, s, w, next);
    var s1 := AcceptWheel(c, s, w, next);
    PublishIdentity(c, s1, w);
    if !NeedsPose(c, s1, w.head.timestamp) {
      EasyPublish(c, s1, w);
    }
  }

  lemma CalmRtk(p: Plant, j: Joint, base: (Bytes, nat), command: CommandIdentity)
    requires Sound(p, j) && Benign(p, base, command) && Calm(j.peer, base, command) && j.rtks != []
    ensures Ready(p.c, j.peer) && Calm(OnRtk(p.c, j.peer, j.rtks[0]), base, command)
  {
    hide Sound, Inv, CompletePair, EasyRoute, Lossless;
    SoundInv(p, j);
    var m := NextRtk(p, j);
    RtkKeeps(p.c, j.peer, m);
    Reached(p.c, OnRtk(p.c, j.peer, m));
    var next := Accept(j.peer.store.rtk, POSE_PERIOD, m.head).next;
    var s1 := AcceptBaseIdentity(p.c, j.peer.(store := j.peer.store.(rtk := next)), m.head, RtkTopic).0;
    var joined := s1.(store := s1.store.(pendingRtk := s1.store.pendingRtk[m.head.timestamp := m]));
    AllSentAt(p, joined.nextSequence);
    EasyPair(p.c, joined, m.head.timestamp);
    CompleteIdentity(p.c, joined, m.head.timestamp);
  }

  lemma CalmImu(p: Plant, j: Joint, base: (Bytes, nat), command: CommandIdentity)
    requires Sound(p, j) && Benign(p, base, command) && Calm(j.peer, base, command) && j.imus != []
    ensures Ready(p.c, j.peer) && Calm(OnImu(p.c, j.peer, j.imus[0]), base, command)
  {
    hide Sound, Inv, CompletePair, EasyRoute, Lossless;
    SoundInv(p, j);
    var m := NextImu(p, j);
    ImuKeeps(p.c, j.peer, m);
    Reached(p.c, OnImu(p.c, j.peer, m));
    var next := Accept(j.peer.store.imu, POSE_PERIOD, m.head).next;
    var s1 := AcceptBaseIdentity(p.c, j.peer.(store := j.peer.store.(imu := next)), m.head, ImuTopic).0;
    var joined := s1.(store := s1.store.(pendingImu := s1.store.pendingImu[m.head.timestamp := m]));
    AllSentAt(p, joined.nextSequence);
    EasyPair(p.c, joined, m.head.timestamp);
    CompleteIdentity(p.c, joined, m.head.timestamp);
  }

  lemma AllSentAt(p: Plant, k: nat)
    requires Lossless(p)
    ensures p.c.delivery(k).Sent?
  {
  }

  lemma NextRtk(p: Plant, j: Joint) returns (m: RtkState)
    requires Sound(p, j) && j.rtks != []
    ensures m == j.rtks[0] == p.rtk(j.peer.store.rtk.expected)
    ensures Accept(j.peer.store.rtk, POSE_PERIOD, m.head).Accepted?
  {
    hide Inv;
    m := j.rtks[0];
    assert j.rtks[0] == p.rtk(j.peer.store.rtk.expected + 0);
    RtkTaken(p, j.peer.store.rtk, j.rtks, j.sim.rtk);
  }

  lemma NextImu(p: Plant, j: Joint) returns (m: ImuAttitude)
    requires Sound(p, j) && j.imus != []
    ensures m == j.imus[0] == p.imu(j.peer.store.imu.expected)
    ensures Accept(j.peer.store.imu, POSE_PERIOD, m.head).Accepted?
  {
    hide Inv;
    m := j.imus[0];
    assert j.imus[0] == p.imu(j.peer.store.imu.expected + 0);
    ImuTaken(p, j.peer.store.imu, j.imus, j.sim.imu);
  }

  // ----- a calm execution to the end -----

  lemma CalmMove(p: Plant, j: Joint, move: Move, base: (Bytes, nat), command: CommandIdentity)
    requires Sound(p, j) && Benign(p, base, command) && Calm(j.peer, base, command)
    requires Enabled(j, move) && (LockstepTheorems.Delivery(move) || move.SimMoves?)
    ensures Calm(Do(p, j, move).peer, base, command)
  {
    hide Sound, Benign, Calm, OnWheel, OnRtk, OnImu, Service, Latch, Outgoing, Inv;
    SoundReady(p, j);
    match move
    case SimMoves =>
    case DeliverWheel(at) => CalmWheel(p, j, at, base, command);
    case DeliverRtk => CalmRtk(p, j, base, command);
    case DeliverImu => CalmImu(p, j, base, command);
    case DeliverCommand =>
  }

  /** With nothing left to deliver, an unfaulted simulator that waits has its command. */
  lemma CalmIsServed(p: Plant, j: Joint)
    requires Sound(p, j) && Lossless(p) && !j.sim.refused && Drained(j) && j.peer.fault.None?
    requires !j.sim.pc.Done? && !j.sim.pc.Stopped?
    ensures Enabled(j, SimMoves)
  {
    hide Sound;
    DrainedIsServed(p, j);
    if j.sim.pc.Await? {
      LosslessIsServed(p, j);
    }
  }

  lemma {:induction false} CalmCompletes(p: Plant, j: Joint, base: (Bytes, nat), command: CommandIdentity)
    returns (moves: seq<Move>, r: Joint)
    requires Sound(p, j) && Benign(p, base, command) && Calm(j.peer, base, command)
    requires !j.sim.refused && !j.sim.pc.Stopped?
    ensures Leads(p, j, moves, r) && Sound(p, r) && r.sim.pc.Done? && Drained(r) && Calm(r.peer, base, command)
    decreases Ahead(p, j.sim), Work(j)
  {
    hide Sound, Do, Work, Ahead, Calm, EasyRoute, Consistent;
    var move := if j.wheels != [] then DeliverWheel(0.0)
                else if j.rtks != [] then DeliverRtk
                else if j.imus != [] then DeliverImu
                else if j.commands != [] then DeliverCommand
                else SimMoves;
    if move.SimMoves? {
      if j.sim.pc.Done? {
        return [], j;
      }
      CalmHasNoFault(j.peer, base, command);
      CalmIsServed(p, j);
      SimStepSound(p, j);
    } else {
      DeliveryReducesWork(p, j, move);
      MoveSound(p, j, move);
      NotRefused(p, j, move);
      DeliveryLeavesAhead(p, j, move);
    }
    CalmMove(p, j, move, base, command);
    var rest;
    rest, r := CalmCompletes(p, Do(p, j, move), base, command);
    moves := [move] + rest;
    assert moves[1..] == rest;
  }

  lemma CalmHasNoFault(s: Peer, base: (Bytes, nat), command: CommandIdentity)
    requires Calm(s, base, command)
    ensures s.fault.None?
  {
  }

  lemma DeliveryLeavesAhead(p: Plant, j: Joint, move: Move)
    requires Enabled(j, move) && LockstepTheorems.Delivery(move)
    ensures Ahead(p, Do(p, j, move).sim) == Ahead(p, j.sim) && Do(p, j, move).sim.pc == j.sim.pc
  {
    hide OnWheel, OnRtk, OnImu, Service, Outgoing;
  }

  /** In a benign plant some execution of the planned window ends without a fault and with a finished peer. */
  lemma BenignExecutionFinishes(p: Plant, base: (Bytes, nat), command: CommandIdentity) returns (e: Execution)
    requires Benign(p, base, command) && Planned(p)
    ensures IsExecution(p, e)
    ensures var j := e.states[|e.states| - 1];
            && j.sim.pc.Done? && Drained(j) && j.peer.fault.None?
            && (j.peer.completion.finished <==> StopPeriods(p.c.route) + RampPeriods(p.c.vmax) > 0)
  {
    hide Sound, Leads, EasyRoute, Lossless, Consistent, Planned;
    StartSound(p);
    var moves, r := CalmCompletes(p, Start(), base, command);
    e := Extended(p, Execution([], [Start()]), moves, r);
    hide IsExecution;
    FinishedAtTheEnd(p, e, |e.states| - 1);
  }

  // ----- such a plant exists -----

  const BASE: (Bytes, nat) := ([], 0)
  const COMMAND := CommandIdentity([], 0, 0, "df_mid")

  /** Half a metre of road at one metre a second, which is less than the lag limit. */
  const ROAD: Route := [Segment(0.5, 1.0)]

  const HERE := Vec3(0.0, 0.0, 0.0)

  function QuietConfig(): Config {
    Config(ROAD, ROBOT_LIMIT, [], "peer", [],
           (m: RtkState, n: ImuAttitude, previous: Option<Quaternion>) =>
             Some(BasePose(HERE, Quaternion(0.0, 0.0, 0.0, 1.0))),
           (segment: nat, pose: BasePose) => Tracking(0.0, Speeds(2.0, 2.0)),
           (k: nat) => Sent)
  }

  function QuietPlant(): Plant {
    Plant(QuietConfig(), FinishTime(ROAD, ROBOT_LIMIT),
          (k: nat) => WheelState(Header((k + 1) * WHEEL_PERIOD, k, [], 0, []), 0, "df_mid", [0.0, 0.0], [],
                                 Claimable, "", [], 1),
          (m: nat) => RtkState(Header(Frame(m), m, [], 0, []), HERE, HERE, HERE, 0.0),
          (m: nat) => ImuAttitude(Header(Frame(m), m, [], 0, []), 0.0, 0.0),
          (k: nat) => true)
  }

  lemma QuietPlantIsBenign()
    ensures Benign(QuietPlant(), BASE, COMMAND) && Planned(QuietPlant())
  {
    var p := QuietPlant();
    assert Length(ROAD) == 0.5 by { assert ROAD[1..] == []; }
    assert ValidRoute(ROAD);
    assert p.duration % POSE_PERIOD == 0;
  }

  /** On that road, at the robot's own speed limit, some execution is all that the theorems assume and ends finished. */
  lemma SomeExecutionFinishes() returns (e: Execution)
    ensures IsExecution(QuietPlant(), e)
    ensures var j := e.states[|e.states| - 1];
            j.sim.pc.Done? && Drained(j) && j.peer.fault.None? && j.peer.completion.finished
  {
    hide IsExecution, Benign, Planned;
    QuietPlantIsBenign();
    e := BenignExecutionFinishes(QuietPlant(), BASE, COMMAND);
    PeerTheorems.RampWindowSuffices(ROBOT_LIMIT);
  }
}
