/**
 The Golf command peer as functions on its state: what each callback does to the state, and the
 list of commands it hands to the transport. One transition per callback, because every callback
 of the peer runs under one re-entrant lock.
 */
module PeerModel {
  import opened Basics
  import opened GolfPlan

  // ----- messages -----

  /** Fields every decoded simulator message carries. */
  datatype Header = Header(timestamp: nat, sequence: nat, session: Bytes, world: nat, descriptor: Bytes)

  datatype Vec3 = Vec3(x: real, y: real, z: real)

  datatype Quaternion = Quaternion(x: real, y: real, z: real, w: real)

  datatype RtkState = RtkState(head: Header, left: Vec3, center: Vec3, right: Vec3, heading: real)

  datatype ImuAttitude = ImuAttitude(head: Header, roll: real, pitch: real)

  datatype Authority = Waiting | Claimable | Active | Conflict

  datatype WheelState = WheelState(
    head: Header,
    commandGeneration: nat,
    robotModel: string,
    driveSpeeds: seq<real>,
    steeringAngles: seq<real>,
    authority: Authority,
    ownerId: string,
    ownerSession: Bytes,
    peerCount: nat)

  datatype Speeds = Speeds(left: real, right: real)

  const ZERO := Speeds(0.0, 0.0)

  datatype WheelCommand = WheelCommand(
    timestamp: nat,
    speeds: Speeds,
    sequence: nat,
    world: nat,
    commandGeneration: nat,
    sourceId: string,
    sourceSession: Bytes,
    robotModel: string,
    session: Bytes,
    descriptor: Bytes)

  // ----- what the peer is given -----

  datatype BasePose = BasePose(position: Vec3, orientation: Quaternion)

  /** Geometry of one controller query: distance along the segment and the wanted wheel speeds. */
  datatype Tracking = Tracking(along: real, wanted: Speeds)

  /** What `transport.publish` did with a command. */
  datatype Delivery = Sent | Refused | Raised

  /**
   The fixed environment of one peer. Pose recovery, the geometry of the route controller and the
   transport's answers are arbitrary functions; `delivery` maps a command's sequence to its answer.
   */
  datatype Config = Config(
    route: Route,
    vmax: real,
    descriptor: Bytes,
    sourceId: string,
    sourceSession: Bytes,
    recover: (RtkState, ImuAttitude, Option<Quaternion>) -> Option<BasePose>,
    track: (nat, BasePose) -> Tracking,
    delivery: nat -> Delivery)
  {
    ghost predicate Valid() {
      ValidRoute(route) && route != [] && vmax >= 0.0
    }
  }

  // ----- state -----

  datatype Topic = WheelTopic | RtkTopic | ImuTopic

  datatype Fault =
    | External(reason: string)
    | PayloadInvalid(topic: Topic)
    | SequenceBroken(topic: Topic)
    | CadenceBroken(topic: Topic)
    | DescriptorDiffers(topic: Topic)
    | IdentityChanged(topic: Topic)
    | PoseInvalid
    | PoseTimeStuck
    | AdvancedWhilePending
    | WheelOrderDiffers
    | PeerCountDiffers
    | CommandOwnerDiffers
    | CommandIdentityChanged
    | PoseMissing
    | PoseStale
    | ControllerSkipped
    | RouteFault(watch: WatchFault)
    | PublishRaised
    | PublishRefused

  datatype Progress = Progress(expected: nat, last: Option<nat>)

  datatype PoseStore = PoseStore(
    rtk: Progress,
    imu: Progress,
    pendingRtk: map<nat, RtkState>,
    pendingImu: map<nat, ImuAttitude>,
    poses: map<nat, BasePose>,
    previousOrientation: Option<Quaternion>,
    latest: Option<nat>,
    speedSquared: real)

  datatype Controller = Controller(lastSeen: Option<nat>, lastCommand: Option<nat>, speeds: Speeds, segment: nat)

  datatype Completion = Completion(zeroSince: Option<nat>, quiet: nat, finished: bool)

  datatype CommandIdentity = CommandIdentity(session: Bytes, world: nat, commandGeneration: nat, robotModel: string)

  datatype Parked = Parked(state: WheelState, receivedAt: real)

  /**
   One call of `transport.publish`, with what its command was computed from: the fault, the pose, the
   route distance observed on the way, whether wheels and base were quiet, the answered wheel state, and
   how many samples were joined before it.
   */
  datatype Attempt = Attempt(
    command: WheelCommand,
    delivery: Delivery,
    fault: Option<Fault>,
    pose: Option<nat>,
    progress: Option<real>,
    quiet: bool,
    wheel: WheelState,
    joined: nat)

  /** An RTK and an IMU sample of one time. */
  datatype Joined = Joined(rtk: RtkState, imu: ImuAttitude)

  /** History that the code does not keep: accepted wheel states, publish calls, pose pairs and their samples. */
  datatype Log = Log(
    accepted: seq<WheelState>,
    attempts: seq<Attempt>,
    pairs: seq<nat>,
    frames: seq<Joined>,
    rtkRejected: nat,
    imuRejected: nat)

  datatype Peer = Peer(
    fault: Option<Fault>,
    escaped: bool,
    baseIdentity: Option<(Bytes, nat)>,
    commandIdentity: Option<CommandIdentity>,
    wheel: Progress,
    store: PoseStore,
    nextSequence: nat,
    published: nat,
    lastWheel: Option<nat>,
    lastSpeeds: Speeds,
    lagSince: Option<nat>,
    controller: Controller,
    parked: Option<Parked>,
    completion: Completion,
    log: Log)

  const FRESH := Progress(0, None)

  function Initial(): Peer {
    Peer(None, false, None, None, FRESH,
         PoseStore(FRESH, FRESH, map[], map[], map[], None, None, 0.0),
         0, 0, None, ZERO, None, Controller(None, None, ZERO, 0), None,
         Completion(None, 0, false), Log([], [], [], [], 0, 0))
  }

  /** The controller's segment index is a valid index; the code never leaves this. */
  ghost predicate Ready(c: Config, s: Peer) {
    c.Valid() && s.controller.segment < |c.route|
  }

  // ----- small steps -----

  function Latch(s: Peer, reason: Fault): Peer {
    if s.fault.None? then s.(fault := Some(reason)) else s
  }

  datatype Verdict = Accepted(next: Progress) | WrongSequence | WrongCadence

  function Accept(p: Progress, period: nat, head: Header): Verdict {
    if head.sequence != p.expected then WrongSequence
    else if p.last.Some? && head.timestamp != p.last.value + period then WrongCadence
    else Accepted(Progress(p.expected + 1, Some(head.timestamp)))
  }

  function RejectStream(s: Peer, verdict: Verdict, topic: Topic): Peer
    requires !verdict.Accepted?
  {
    Latch(s, if verdict.WrongSequence? then SequenceBroken(topic) else CadenceBroken(topic))
  }

  function AcceptBaseIdentity(c: Config, s: Peer, head: Header, topic: Topic): (Peer, bool) {
    if head.descriptor != c.descriptor then (Latch(s, DescriptorDiffers(topic)), false)
    else if s.baseIdentity.None? then (s.(baseIdentity := Some((head.session, head.world))), true)
    else if s.baseIdentity.value != (head.session, head.world) then (Latch(s, IdentityChanged(topic)), false)
    else (s, true)
  }

  // ----- retained poses -----

  ghost predicate IsLeast(k: nat, keys: set<nat>) {
    k in keys && forall j :: j in keys ==> k <= j
  }

  ghost predicate IsGreatest(k: nat, keys: set<nat>) {
    k in keys && forall j :: j in keys ==> j <= k
  }

  lemma {:induction false} HasExtremes(keys: set<nat>) returns (low: nat, high: nat)
    requires keys != {}
    ensures IsLeast(low, keys) && IsGreatest(high, keys)
    decreases keys
  {
    var any :| any in keys;
    var rest := keys - {any};
    assert forall j :: j in keys ==> j == any || j in rest;
    low, high := any, any;
    if rest != {} {
      low, high := HasExtremes(rest);
      low, high := Min(any, low), Max(any, high);
    }
  }

  /** The smallest retained pose time, Python's `min(self._poses)`. */
  function Oldest(keys: set<nat>): (k: nat)
    requires keys != {}
    ensures IsLeast(k, keys)
  {
    assert exists k :: IsLeast(k, keys) by { var low, high := HasExtremes(keys); }
    var k :| k in keys && forall j :: j in keys ==> k <= j;
    k
  }

  function Newest(keys: set<nat>): (k: nat)
    requires keys != {}
    ensures IsGreatest(k, keys)
  {
    assert exists k :: IsGreatest(k, keys) by { var low, high := HasExtremes(keys); }
    var k :| k in keys && forall j :: j in keys ==> j <= k;
    k
  }

  /** Only the four newest poses are kept. */
  function Trim(poses: map<nat, BasePose>): map<nat, BasePose>
    decreases |poses|
  {
    if |poses| > 4 then
      var k := Oldest(poses.Keys);
      assert (poses - {k}).Keys == poses.Keys - {k};
      assert |poses - {k}| == |(poses - {k}).Keys|;
      Trim(poses - {k})
    else poses
  }

  /** The newest retained pose not after the given time. */
  function LatestPoseAt(poses: map<nat, BasePose>, timestamp: nat): (r: Option<nat>)
    ensures r.None? ==> forall k :: k in poses ==> k > timestamp
    ensures r.Some? ==> r.value in poses && r.value <= timestamp
    ensures r.Some? ==> forall k :: k in poses && k <= timestamp ==> k <= r.value
  {
    var eligible := set k | k in poses && k <= timestamp;
    if eligible == {} then
      assert forall k :: k in poses && k <= timestamp ==> k in eligible;
      None
    else
      assert forall k :: k in poses && k <= timestamp ==> k in eligible;
      Some(Newest(eligible))
  }

  predicate NeedsPose(c: Config, s: Peer, timestamp: nat)
    requires c.Valid()
  {
    if s.fault.Some? || timestamp > StopTime(c.route) then false
    else
      var pose := LatestPoseAt(s.store.poses, timestamp);
      pose.None? || timestamp - pose.value > POSE_PERIOD
  }

  /** A retained pose from 0 to 100 ms before a wheel state. */
  predicate FreshFor(pose: nat, timestamp: nat) {
    pose <= timestamp <= pose + POSE_PERIOD
  }

  /** A pose is missing exactly when a fault-free wheel state up to the stop has no retained pose up to 100 ms old. */
  lemma MissingPose(c: Config, s: Peer, timestamp: nat)
    requires c.Valid()
    ensures NeedsPose(c, s, timestamp) <==>
              s.fault.None? && timestamp <= StopTime(c.route) && forall p :: p in s.store.poses ==>
                !FreshFor(p, timestamp)
  {
    var pose := LatestPoseAt(s.store.poses, timestamp);
    if pose.Some? && FreshFor(pose.value, timestamp) {
      assert !NeedsPose(c, s, timestamp);
    }
  }

  // ----- route controller -----

  function ClampAbs(x: real, bound: real): real {
    if x > bound then bound else if x < -bound then -bound else x
  }

  /** One wheel speed after both are scaled so that the larger meets the limit. */
  function ScaledSpeed(x: real, largest: real, vmax: real): (r: real)
    requires Abs(x) <= largest && 0.0 <= vmax < largest
    ensures Abs(r) <= vmax
  {
    var scale := vmax / largest;
    ScaleBound(x, largest, scale);
    x * scale
  }

  /** Both wheels scaled by one factor so that neither exceeds the limit. */
  function Scaled(wanted: Speeds, vmax: real): (r: Speeds)
    requires vmax >= 0.0
    ensures Within(r, vmax)
  {
    var largest := if Abs(wanted.left) < Abs(wanted.right) then Abs(wanted.right) else Abs(wanted.left);
    if largest > vmax then Speeds(ScaledSpeed(wanted.left, largest, vmax), ScaledSpeed(wanted.right, largest, vmax))
    else wanted
  }

  lemma ScaleBound(x: real, largest: real, scale: real)
    requires Abs(x) <= largest && 0.0 <= scale
    ensures Abs(x * scale) <= largest * scale
  {
    Products(x, largest, scale);
    Products(-x, largest, scale);
  }

  ghost predicate Within(v: Speeds, bound: real) {
    Abs(v.left) <= bound && Abs(v.right) <= bound
  }

  datatype ControlResult = Backwards | Skipped(next: Controller) | Issued(next: Controller, distance: real)

  function Travelled(route: Route, segment: nat): real
    requires segment <= |route|
  {
    Length(route[..segment])
  }

  function UpdateController(c: Config, ctl: Controller, timestamp: nat, pose: BasePose): ControlResult
    requires c.Valid() && ctl.segment < |c.route|
  {
    if ctl.lastSeen.Some? && timestamp < ctl.lastSeen.value then Backwards
    else
      var seen := ctl.(lastSeen := Some(timestamp));
      if ctl.lastCommand.Some? && timestamp - ctl.lastCommand.value < WHEEL_PERIOD then Skipped(seen)
      else
        var first := c.track(ctl.segment, pose);
        var advance := ctl.segment + 1 < |c.route| && c.route[ctl.segment].length - first.along <= 0.000000001;
        var segment := if advance then ctl.segment + 1 else ctl.segment;
        var tracking := if advance then c.track(segment, pose) else first;
        var target := Scaled(tracking.wanted, c.vmax);
        var elapsed := if ctl.lastCommand.None? then WHEEL_PERIOD else timestamp - ctl.lastCommand.value;
        var change := WHEEL_ACCELERATION * Seconds(elapsed);
        var speeds := Speeds(ctl.speeds.left + ClampAbs(target.left - ctl.speeds.left, change),
                             ctl.speeds.right + ClampAbs(target.right - ctl.speeds.right, change));
        Issued(Controller(Some(timestamp), Some(timestamp), speeds, segment),
               Travelled(c.route, segment) + tracking.along)
  }

  // ----- commands -----

  const RAMP_STEP := WHEEL_ACCELERATION * 10_000_000.0 / 1_000_000_000.0

  function TowardZero(value: real, change: real): real {
    if Abs(value) <= change then 0.0
    else if value < 0.0 then value + change
    else value - change
  }

  function RampDown(v: Speeds): Speeds {
    Speeds(TowardZero(v.left, RAMP_STEP), TowardZero(v.right, RAMP_STEP))
  }

  /** The speeds answered to a wheel state; None when an exception leaves the callback. */
  function CommandSpeeds(c: Config, s: Peer, timestamp: nat): (r: (Peer, Option<Speeds>))
    requires Ready(c, s)
    ensures Ready(c, r.0) && r.0 == s.(fault := r.0.fault, controller := r.0.controller, lagSince := r.0.lagSince)
  {
    if s.fault.Some? then (s, Some(ZERO))
    else if timestamp > StopTime(c.route) then (s, Some(RampDown(s.lastSpeeds)))
    else
      var pose := LatestPoseAt(s.store.poses, timestamp);
      if pose.None? then (if timestamp > POSE_PERIOD then Latch(s, PoseMissing) else s, Some(ZERO))
      else if timestamp - pose.value > POSE_PERIOD then (Latch(s, PoseStale), Some(ZERO))
      else
        match UpdateController(c, s.controller, timestamp, s.store.poses[pose.value])
        case Backwards => (s, None)
        case Skipped(next) => (Latch(s.(controller := next), ControllerSkipped), Some(ZERO))
        case Issued(next, distance) =>
          var watch := Observe(c.route, s.lagSince, timestamp, distance);
          var s1 := s.(controller := next, lagSince := watch.since);
          if watch.fault.Some? then (Latch(s1, RouteFault(watch.fault.value)), Some(ZERO))
          else if timestamp == StopTime(c.route) then (s1, Some(RampDown(s.lastSpeeds)))
          else (s1, Some(next.speeds))
  }

  /** The route distance that computing the speeds observes, if it gets that far. */
  function Achieved(c: Config, fault: Option<Fault>, poses: map<nat, BasePose>, ctl: Controller,
      timestamp: nat): Option<real>
    requires c.Valid() && ctl.segment < |c.route|
  {
    if fault.Some? || timestamp > StopTime(c.route) then None
    else
      var pose := LatestPoseAt(poses, timestamp);
      if pose.None? || timestamp - pose.value > POSE_PERIOD then None
      else
        match UpdateController(c, ctl, timestamp, poses[pose.value])
        case Issued(_, distance) => Some(distance)
        case _ => None
  }

  predicate FinishDue(c: Config, s: Peer)
    requires c.Valid()
  {
    && s.completion.zeroSince.Some? && s.lastWheel.Some? && s.store.latest.Some?
    && s.lastWheel.value >= FinishTime(c.route, c.vmax)
    && s.store.latest.value >= FinishTime(c.route, c.vmax)
    && s.lastWheel.value - s.completion.zeroSince.value >= ZERO_TAIL
  }

  function MaybeFinish(c: Config, s: Peer): (r: Peer)
    requires c.Valid()
    ensures r == s.(completion := r.completion)
  {
    if s.fault.Some? || s.completion.zeroSince.None? || s.lastWheel.None? || s.store.latest.None? then s
    else s.(completion := s.completion.(finished := FinishDue(c, s)))
  }

  predicate AtRest(speedSquared: real, driveSpeeds: seq<real>) {
    speedSquared < 0.0004 && forall i :: 0 <= i < |driveSpeeds| ==> Abs(driveSpeeds[i]) < 0.1
  }

  predicate Quiet(s: Peer, w: WheelState) {
    AtRest(s.store.speedSquared, w.driveSpeeds)
  }

  function UpdateCompletion(c: Config, s: Peer, w: WheelState, speeds: Speeds): (r: Peer)
    requires c.Valid()
    ensures r == s.(completion := r.completion)
  {
    if s.fault.Some? then
      var quiet := if Quiet(s, w) then s.completion.quiet + 1 else 0;
      s.(completion := s.completion.(quiet := quiet, finished := quiet >= 20))
    else if w.head.timestamp < StopTime(c.route) then s
    else
      var since := if speeds != ZERO then None
                   else if s.completion.zeroSince.None? then Some(w.head.timestamp)
                   else s.completion.zeroSince;
      MaybeFinish(c, s.(completion := s.completion.(zeroSince := since)))
  }

  function CommandFor(c: Config, w: WheelState, speeds: Speeds, sequence: nat): WheelCommand {
    WheelCommand(w.head.timestamp, speeds, sequence, w.head.world, w.commandGeneration, c.sourceId, c.sourceSession,
                 w.robotModel, w.head.session, w.head.descriptor)
  }

  /** The command is chosen, numbered and about to be handed to the transport. */
  function Numbered(c: Config, s: Peer, w: WheelState): (Peer, Attempt)
    requires Ready(c, s) && CommandSpeeds(c, s, w.head.timestamp).1.Some?
  {
    var (s1, speeds) := CommandSpeeds(c, s, w.head.timestamp);
    var attempt := Attempt(CommandFor(c, w, speeds.value, s1.nextSequence), c.delivery(s1.nextSequence), s1.fault,
                           LatestPoseAt(s.store.poses, w.head.timestamp),
                           Achieved(c, s.fault, s.store.poses, s.controller, w.head.timestamp), Quiet(s, w),
                           w, |s.log.frames|);
    (s1.(nextSequence := s1.nextSequence + 1, log := s1.log.(attempts := s1.log.attempts + [attempt])), attempt)
  }

  function HandOver(c: Config, s: Peer, w: WheelState, a: Attempt): Peer
    requires c.Valid()
  {
    match a.delivery
    case Raised => Latch(s, PublishRaised)
    case Refused => Latch(s, PublishRefused)
    case Sent => UpdateCompletion(c, s.(published := s.published + 1, lastSpeeds := a.command.speeds), w,
      a.command.speeds)
  }

  function Publish(c: Config, s: Peer, w: WheelState): (r: Peer)
    requires Ready(c, s)
    ensures Ready(c, r)
  {
    if CommandSpeeds(c, s, w.head.timestamp).1.None? then CommandSpeeds(c, s, w.head.timestamp).0.(escaped := true)
    else
      var (s1, attempt) := Numbered(c, s, w);
      HandOver(c, s1, w, attempt)
  }

  function DispatchParked(c: Config, s: Peer): (r: Peer)
    requires Ready(c, s)
    ensures Ready(c, r)
  {
    if s.parked.None? || NeedsPose(c, s, s.parked.value.state.head.timestamp) then s
    else Publish(c, s.(parked := None), s.parked.value.state)
  }

  // ----- callbacks -----

  function SquaredDistance(a: Vec3, b: Vec3): real {
    (a.x - b.x) * (a.x - b.x) + (a.y - b.y) * (a.y - b.y) + (a.z - b.z) * (a.z - b.z)
  }

  function SpeedSquared(distanceSquared: real, elapsed: real): real
    requires elapsed > 0.0
  {
    distanceSquared / (elapsed * elapsed)
  }

  /** The store after a recovered pose joined it; the older pose gives the observed speed. */
  function Remember(p: PoseStore, timestamp: nat, pose: BasePose): PoseStore
    requires p.latest.Some? ==> p.latest.value in p.poses && p.latest.value < timestamp
  {
    var squared :=
      if p.latest.None? then p.speedSquared
      else
        SpeedSquared(SquaredDistance(p.poses[p.latest.value].position, pose.position),
          Seconds(timestamp - p.latest.value));
    p.(previousOrientation := Some(pose.orientation), speedSquared := squared,
       poses := Trim(p.poses[timestamp := pose]), latest := Some(timestamp))
  }

  function CompletePair(c: Config, s: Peer, timestamp: nat): (r: Peer)
    requires Ready(c, s)
    ensures Ready(c, r)
  {
    var p := s.store;
    if timestamp !in p.pendingRtk || timestamp !in p.pendingImu then s
    else
      var p1 := p.(pendingRtk := p.pendingRtk - {timestamp}, pendingImu := p.pendingImu - {timestamp});
      var s1 := s.(store := p1, log := s.log.(pairs := s.log.pairs + [timestamp],
        frames := s.log.frames + [Joined(p.pendingRtk[timestamp], p.pendingImu[timestamp])]));
      match c.recover(p.pendingRtk[timestamp], p.pendingImu[timestamp], p.previousOrientation)
      case None => Latch(s1, PoseInvalid)
      case Some(pose) =>
        if p.latest.Some? && p.latest.value !in p.poses then s1.(escaped := true)
        else if p.latest.Some? && timestamp <= p.latest.value then
          Latch(s1.(store := p1.(previousOrientation := Some(pose.orientation))), PoseTimeStuck)
        else
          var s2 := DispatchParked(c, s1.(store := Remember(p1, timestamp, pose)));
          if s2.escaped then s2 else MaybeFinish(c, s2)
  }

  function OnRtk(c: Config, s: Peer, m: RtkState): (r: Peer)
    requires Ready(c, s)
    ensures Ready(c, r)
  {
    var verdict := Accept(s.store.rtk, POSE_PERIOD, m.head);
    if !verdict.Accepted? then RejectStream(s, verdict, RtkTopic)
    else
      var (s1, same) := AcceptBaseIdentity(c, s.(store := s.store.(rtk := verdict.next)), m.head, RtkTopic);
      if !same then s1.(log := s1.log.(rtkRejected := s1.log.rtkRejected + 1))
      else
        CompletePair(c, s1.(store := s1.store.(pendingRtk := s1.store.pendingRtk[m.head.timestamp := m])),
          m.head.timestamp)
  }

  function OnImu(c: Config, s: Peer, m: ImuAttitude): (r: Peer)
    requires Ready(c, s)
    ensures Ready(c, r)
  {
    var verdict := Accept(s.store.imu, POSE_PERIOD, m.head);
    if !verdict.Accepted? then RejectStream(s, verdict, ImuTopic)
    else
      var (s1, same) := AcceptBaseIdentity(c, s.(store := s.store.(imu := verdict.next)), m.head, ImuTopic);
      if !same then s1.(log := s1.log.(imuRejected := s1.log.imuRejected + 1))
      else
        CompletePair(c, s1.(store := s1.store.(pendingImu := s1.store.pendingImu[m.head.timestamp := m])),
          m.head.timestamp)
  }

  function IdentityOf(w: WheelState): CommandIdentity {
    CommandIdentity(w.head.session, w.head.world, w.commandGeneration, w.robotModel)
  }

  /** The content checks of an accepted wheel state; each can only latch a fault. */
  function CheckWheel(c: Config, s: Peer, w: WheelState): Peer {
    var s1 := AcceptBaseIdentity(c, s, w.head, WheelTopic).0;
    var s2 := if w.robotModel != "df_mid" || |w.driveSpeeds| != 2 ||
      w.steeringAngles != [] then Latch(s1, WheelOrderDiffers) else s1;
    var s3 := if w.peerCount != 1 ||
      (w.authority != Claimable && w.authority != Active) then Latch(s2, PeerCountDiffers) else s2;
    var s4 := if w.authority == Active && (w.ownerId != c.sourceId || w.ownerSession != c.sourceSession)
              then Latch(s3, CommandOwnerDiffers) else s3;
    if s4.commandIdentity.None? then s4.(commandIdentity := Some(IdentityOf(w)))
    else if s4.commandIdentity.value != IdentityOf(w) then Latch(s4, CommandIdentityChanged)
    else s4
  }

  function AcceptWheel(c: Config, s: Peer, w: WheelState, next: Progress): Peer
  {
    CheckWheel(c, s.(wheel := next, lastWheel := Some(w.head.timestamp),
      log := s.log.(accepted := s.log.accepted + [w])), w)
  }

  /** Where an accepted wheel state leads: answered at once, parked, or answered after the parked one. */
  function AfterAccept(c: Config, s: Peer, w: WheelState, receivedAt: real): (r: Peer)
    requires Ready(c, s)
    ensures Ready(c, r)
  {
    if s.parked.Some? then
      var s1 := DispatchParked(c, Latch(s, AdvancedWhilePending));
      if s1.escaped then s1 else Publish(c, s1, w)
    else if NeedsPose(c, s, w.head.timestamp) then s.(parked := Some(Parked(w, receivedAt)))
    else Publish(c, s, w)
  }

  function OnWheel(c: Config, s: Peer, w: WheelState, receivedAt: real): (r: Peer)
    requires Ready(c, s)
    ensures Ready(c, r)
  {
    var verdict := Accept(s.wheel, WHEEL_PERIOD, w.head);
    if !verdict.Accepted? then RejectStream(s, verdict, WheelTopic)
    else AfterAccept(c, AcceptWheel(c, s, w, verdict.next), w, receivedAt)
  }

  const GRACE_SEC := 0.5

  function Service(c: Config, s: Peer, now: real): (r: Peer)
    requires Ready(c, s)
    ensures Ready(c, r)
  {
    if s.parked.None? || now - s.parked.value.receivedAt < 0.0 then s
    else
      var stale := s.fault.None? && now - s.parked.value.receivedAt >= GRACE_SEC &&
                   NeedsPose(c, s, s.parked.value.state.head.timestamp);
      DispatchParked(c, if stale then Latch(s, PoseStale) else s)
  }

  // ----- runs -----

  datatype Event =
    | WheelArrives(wheel: WheelState, receivedAt: real)
    | RtkArrives(rtk: RtkState)
    | ImuArrives(imu: ImuAttitude)
    | BadPayload(topic: Topic)
    | OperatorFault(reason: string)
    | Tick(now: real)

  function Apply(c: Config, s: Peer, e: Event): (r: Peer)
    requires Ready(c, s)
    ensures Ready(c, r)
  {
    match e
    case WheelArrives(w, at) => OnWheel(c, s, w, at)
    case RtkArrives(m) => OnRtk(c, s, m)
    case ImuArrives(m) => OnImu(c, s, m)
    case BadPayload(topic) => Latch(s, PayloadInvalid(topic))
    case OperatorFault(reason) => if reason == "" then s else Latch(s, External(reason))
    case Tick(now) => Service(c, s, now)
  }
}
