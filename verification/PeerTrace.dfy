/**
 An independent reading of the peer's samples and answers, and the invariant that ties the peer's fields
 to it: the poses are the recoveries of the joined samples in order, each answer is computed from the
 newest pose known at its time, and the commands up to the stop are the limited, slew-bounded pursuit of
 those poses.
 */
module PeerTrace {
  import opened Basics
  import opened GolfPlan
  import opened PeerModel
  import opened PeerInvariants
  import opened PeerTheorems

  // ----- poses, from the joined samples -----

  datatype Seen = Seen(timestamp: nat, pose: BasePose)

  function Facing(known: seq<Seen>): Option<Quaternion> {
    if known == [] then None else Some(known[|known| - 1].pose.orientation)
  }

  /** The poses recovered from the joined samples, each with the orientation of the one before. */
  function Recovered(c: Config, frames: seq<Joined>): seq<Seen> {
    if frames == [] then []
    else
      var before, f := Recovered(c, frames[..|frames| - 1]), frames[|frames| - 1];
      match c.recover(f.rtk, f.imu, Facing(before))
      case None => before
      case Some(pose) => before + [Seen(f.rtk.head.timestamp, pose)]
  }

  /** The newest known pose that is not later than the given time. */
  function NewestAt(known: seq<Seen>, timestamp: nat): Option<Seen> {
    if known == [] then None
    else if known[|known| - 1].timestamp <= timestamp then Some(known[|known| - 1])
    else NewestAt(known[..|known| - 1], timestamp)
  }

  ghost predicate InOrder(known: seq<Seen>) {
    forall i, j :: 0 <= i < j < |known| ==> known[i].timestamp < known[j].timestamp
  }

  const QUIET_MPS := 0.02
  const QUIET_RAD_S := 0.1

  function Square(x: real): real {
    x * x
  }

  lemma SquarePositive(x: real)
    requires x > 0.0
    ensures Square(x) > 0.0
  {
    QuotientSign(Square(x), x);
    assert Square(x) / x == x;
  }

  lemma QuotientSign(q: real, x: real)
    requires x > 0.0
    ensures q <= 0.0 ==> q / x <= 0.0
  {
  }

  function Moved(a: BasePose, b: BasePose): real {
    var x, y, z := a.position.x - b.position.x, a.position.y - b.position.y, a.position.z - b.position.z;
    x * x + y * y + z * z
  }

  /** The base is at rest: below 2 cm/s between the two newest poses, and every wheel below 0.1 rad/s. */
  ghost predicate Resting(known: seq<Seen>, driveSpeeds: seq<real>)
    requires InOrder(known)
  {
    && (|known| >= 2 ==>
          var a, b := known[|known| - 2], known[|known| - 1];
          Moved(a.pose, b.pose) < Square(QUIET_MPS * Seconds(b.timestamp - a.timestamp)))
    && forall i :: 0 <= i < |driveSpeeds| ==> Abs(driveSpeeds[i]) < QUIET_RAD_S
  }

  // ----- commands, from the poses -----

  const SLEW := 0.2

  /** One wheel's next speed: the goal if it is within 0.2 rad/s, else 0.2 rad/s closer to it. */
  function Toward(v: real, goal: real): (r: real)
    ensures Abs(r - v) <= SLEW && Abs(goal - r) <= Abs(goal - v)
    ensures r == goal || Abs(r - v) == SLEW
  {
    if goal - v > SLEW then v + SLEW else if v - goal > SLEW then v - SLEW else goal
  }

  /** `x` reduced in the proportion that brings the faster wheel to the limit. */
  function Share(x: real, vmax: real, faster: real): real
    requires faster > 0.0
  {
    x * vmax / faster
  }

  /** Both wheels in proportion, the faster one at the limit. */
  function Limited(wanted: Speeds, vmax: real): Speeds {
    var faster := if Abs(wanted.left) >= Abs(wanted.right) then Abs(wanted.left) else Abs(wanted.right);
    if faster <= vmax || faster <= 0.0 then wanted
    else Speeds(Share(wanted.left, vmax, faster), Share(wanted.right, vmax, faster))
  }

  datatype Drive = Drive(speeds: Speeds, segment: nat, distance: real)

  /** One controller step: leave a segment when at most a nanometre of it is left, then pursue the current one. */
  function Pursue(c: Config, d: Drive, pose: BasePose): (r: Drive)
    requires d.segment < |c.route|
    ensures r.segment < |c.route|
  {
    var left := c.route[d.segment].length - c.track(d.segment, pose).along;
    var segment := if left <= 0.000000001 && d.segment < |c.route| - 1 then d.segment + 1 else d.segment;
    var aim := c.track(segment, pose);
    var goal := Limited(aim.wanted, c.vmax);
    Drive(Speeds(Toward(d.speeds.left, goal.left), Toward(d.speeds.right, goal.right)), segment,
          Length(c.route[..segment]) + aim.along)
  }

  /** The pose an answer is computed from. */
  function Basis(c: Config, frames: seq<Joined>, a: Attempt): Option<Seen> {
    if a.joined > |frames| then None else NewestAt(Recovered(c, frames[..a.joined]), a.command.timestamp)
  }

  /** The drive after the given answers: a pursuit step for each answer up to the stop, from rest. */
  function Driven(c: Config, frames: seq<Joined>, att: seq<Attempt>): (r: Drive)
    requires c.Valid()
    ensures r.segment < |c.route|
  {
    if att == [] then Drive(ZERO, 0, 0.0)
    else
      var before, a := Driven(c, frames, att[..|att| - 1]), att[|att| - 1];
      var basis := Basis(c, frames, a);
      if a.command.timestamp > StopTime(c.route) || basis.None? then before else Pursue(c, before, basis.value.pose)
  }

  // ----- the trace invariant -----

  /** Exactly the four newest poses are retained. */
  ghost predicate Kept(poses: map<nat, BasePose>, known: seq<Seen>) {
    && |poses| == Min(4, |known|)
    && (forall i :: 0 <= i < |known| && |known| - 4 <= i ==>
          known[i].timestamp in poses && poses[known[i].timestamp] == known[i].pose)
    && (forall t :: t in poses ==> exists i :: 0 <= i < |known| && |known| - 4 <= i && known[i].timestamp == t)
  }

  function Speed(known: seq<Seen>): real
    requires InOrder(known)
  {
    if |known| < 2 then 0.0
    else
      var a, b := known[|known| - 2], known[|known| - 1];
      var elapsed := Seconds(b.timestamp - a.timestamp);
      SquarePositive(elapsed);
      Moved(a.pose, b.pose) / Square(elapsed)
  }

  ghost predicate Stored(c: Config, p: PoseStore, frames: seq<Joined>) {
    var known := Recovered(c, frames);
    && InOrder(known) && Kept(p.poses, known)
    && p.previousOrientation == Facing(known)
    && p.latest == (if known == [] then None else Some(known[|known| - 1].timestamp))
    && p.speedSquared == Speed(known)
  }

  /** Waiting samples wait under their own time. */
  ghost predicate Keyed(p: PoseStore) {
    && (forall t :: t in p.pendingRtk ==> p.pendingRtk[t].head.timestamp == t)
    && (forall t :: t in p.pendingImu ==> p.pendingImu[t].head.timestamp == t)
  }

  ghost predicate Paired(pairs: seq<nat>, frames: seq<Joined>) {
    && |frames| == |pairs|
    && forall i :: 0 <= i < |frames| ==> frames[i].rtk.head.timestamp == frames[i].imu.head.timestamp == pairs[i]
  }

  /** What one answer was computed from. */
  ghost predicate Informed(c: Config, frames: seq<Joined>, a: Attempt)
    requires c.Valid()
  {
    && a.joined <= |frames|
    && (a.pose.Some? ==> Basis(c, frames, a).Some? && Basis(c, frames, a).value.timestamp == a.pose.value)
    && InOrder(Recovered(c, frames[..a.joined]))
    && (a.quiet <==> Resting(Recovered(c, frames[..a.joined]), a.wheel.driveSpeeds))
    && (a.progress.Some? ==> a.command.timestamp <= StopTime(c.route) && a.pose.Some?)
  }

  /** An answer that observed its distance is the pursuit so far. */
  ghost predicate Follows(c: Config, frames: seq<Joined>, att: seq<Attempt>, k: nat)
    requires c.Valid() && k < |att|
  {
    var a, d := att[k], Driven(c, frames, att[..k + 1]);
    a.progress.Some? ==>
      && a.progress.value == d.distance
      && (a.fault.None? && a.command.timestamp < StopTime(c.route) ==>
            a.command.speeds.left == d.speeds.left && a.command.speeds.right == d.speeds.right)
  }

  ghost predicate Steered(c: Config, frames: seq<Joined>, att: seq<Attempt>, ctl: Controller)
    requires c.Valid()
  {
    var d := Driven(c, frames, att);
    && ctl.speeds == d.speeds && ctl.segment == d.segment && ctl.lastSeen == ctl.lastCommand
    && (att == [] ==> ctl.lastCommand.None?)
    && (att != [] && att[|att| - 1].command.timestamp <= StopTime(c.route) ==>
          ctl.lastCommand == Some(att[|att| - 1].command.timestamp))
  }

  ghost predicate Answers(c: Config, frames: seq<Joined>, att: seq<Attempt>)
    requires c.Valid()
  {
    && (forall k :: 0 <= k < |att| ==> Informed(c, frames, att[k]))
    && (forall k :: 0 <= k < |att| ==> Follows(c, frames, att, k))
  }

  ghost predicate Traced(c: Config, s: Peer)
    requires c.Valid()
  {
    && Stored(c, s.store, s.log.frames) && Keyed(s.store) && Paired(s.log.pairs, s.log.frames)
    && Answers(c, s.log.frames, s.log.attempts)
    && (s.fault.None? ==> Steered(c, s.log.frames, s.log.attempts, s.controller))
  }

  // ----- reading the store -----

  lemma {:induction false} NewestAtIs(known: seq<Seen>, i: nat, timestamp: nat)
    requires InOrder(known) && i < |known| && known[i].timestamp <= timestamp
    requires forall j :: i < j < |known| ==> known[j].timestamp > timestamp
    ensures NewestAt(known, timestamp) == Some(known[i])
  {
    if i < |known| - 1 {
      NewestAtIs(known[..|known| - 1], i, timestamp);
    }
  }

  /** The newest retained pose up to a time is the newest known one: eviction only takes older poses. */
  lemma LatestIsNewest(c: Config, p: PoseStore, frames: seq<Joined>, timestamp: nat)
    requires Stored(c, p, frames) && LatestPoseAt(p.poses, timestamp).Some?
    ensures var t := LatestPoseAt(p.poses, timestamp).value;
            NewestAt(Recovered(c, frames), timestamp) == Some(Seen(t, p.poses[t]))
  {
    hide LatestPoseAt, Recovered;
    var known, t := Recovered(c, frames), LatestPoseAt(p.poses, timestamp).value;
    var i :| 0 <= i < |known| && |known| - 4 <= i && known[i].timestamp == t;
    forall j | i < j < |known| ensures known[j].timestamp > timestamp {
      assert known[j].timestamp in p.poses && known[j].timestamp > t;
    }
    NewestAtIs(known, i, timestamp);
  }

  lemma RatioBelow(moved: real, square: real, bound: real)
    requires square > 0.0
    ensures moved / square < bound <==> moved < bound * square
  {
    var ratio := moved / square;
    assert ratio * square == moved;
  }

  lemma SquareOfProduct(x: real, y: real)
    ensures Square(x * y) == Square(x) * Square(y)
  {
  }

  lemma SpeedBelow(moved: real, elapsed: real)
    requires elapsed > 0.0 && Square(elapsed) > 0.0
    ensures moved / Square(elapsed) < 0.0004 <==> moved < Square(QUIET_MPS * elapsed)
  {
    hide Square;
    RatioBelow(moved, Square(elapsed), 0.0004);
    SquareOfProduct(QUIET_MPS, elapsed);
    QuietSquare();
  }

  lemma QuietSquare()
    ensures Square(QUIET_MPS) == 0.0004
  {
  }

  lemma SomeSeconds(elapsed: nat)
    requires elapsed > 0
    ensures Seconds(elapsed) > 0.0
  {
  }

  lemma QuietIsRest(c: Config, p: PoseStore, frames: seq<Joined>, driveSpeeds: seq<real>)
    requires Stored(c, p, frames)
    ensures AtRest(p.speedSquared, driveSpeeds) <==> Resting(Recovered(c, frames), driveSpeeds)
  {
    hide Recovered, Moved, Kept, Square, Seconds, Facing;
    var known := Recovered(c, frames);
    if |known| >= 2 {
      var a, b := known[|known| - 2], known[|known| - 1];
      SomeSeconds(b.timestamp - a.timestamp);
      SquarePositive(Seconds(b.timestamp - a.timestamp));
      SpeedBelow(Moved(a.pose, b.pose), Seconds(b.timestamp - a.timestamp));
    }
  }

  // ----- more samples change nothing that was known -----

  lemma BasisGrows(c: Config, frames: seq<Joined>, f: Joined, a: Attempt)
    requires a.joined <= |frames|
    ensures Basis(c, frames + [f], a) == Basis(c, frames, a)
    ensures (frames + [f])[..a.joined] == frames[..a.joined]
  {
    assert (frames + [f])[..a.joined] == frames[..a.joined];
  }

  lemma {:induction false} DrivenGrows(c: Config, frames: seq<Joined>, f: Joined, att: seq<Attempt>)
    requires c.Valid() && forall k :: 0 <= k < |att| ==> att[k].joined <= |frames|
    ensures Driven(c, frames + [f], att) == Driven(c, frames, att)
  {
    hide Basis, Pursue, StopTime;
    if att != [] {
      DrivenGrows(c, frames, f, att[..|att| - 1]);
      BasisGrows(c, frames, f, att[|att| - 1]);
    }
  }

  lemma AnswersGrow(c: Config, frames: seq<Joined>, f: Joined, att: seq<Attempt>)
    requires c.Valid() && Answers(c, frames, att)
    ensures Answers(c, frames + [f], att)
    ensures Driven(c, frames + [f], att) == Driven(c, frames, att)
  {
    hide Basis, Driven, StopTime, Resting, Recovered;
    assert forall k :: 0 <= k < |att| ==> Informed(c, frames, att[k]);
    forall k | 0 <= k < |att| ensures Informed(c, frames + [f], att[k]) {
      BasisGrows(c, frames, f, att[k]);
    }
    forall k | 0 <= k < |att| ensures Follows(c, frames + [f], att, k) {
      assert Follows(c, frames, att, k);
      DrivenGrows(c, frames, f, att[..k + 1]);
    }
    DrivenGrows(c, frames, f, att);
  }

  // ----- one answer -----

  lemma Proportion(x: real, vmax: real, faster: real)
    requires Abs(x) <= faster && 0.0 <= vmax < faster
    ensures ScaledSpeed(x, faster, vmax) == Share(x, vmax, faster)
  {
    var scale := vmax / faster;
    assert scale * faster == vmax;
    var product := x * vmax;
    assert product == x * (scale * faster);
    assert product == (x * scale) * faster;
  }

  lemma LimitedIsScaled(wanted: Speeds, vmax: real)
    requires vmax >= 0.0
    ensures Limited(wanted, vmax) == Scaled(wanted, vmax)
  {
    hide ScaledSpeed, Share;
    var faster := if Abs(wanted.left) < Abs(wanted.right) then Abs(wanted.right) else Abs(wanted.left);
    if faster > vmax {
      Proportion(wanted.left, vmax, faster);
      Proportion(wanted.right, vmax, faster);
    }
  }

  lemma TowardIsClamp(v: real, goal: real)
    ensures v + ClampAbs(goal - v, SLEW) == Toward(v, goal)
  {
  }

  /** One period after its last command, the controller takes one pursuit step. */
  lemma ControllerPursues(c: Config, ctl: Controller, d: Drive, timestamp: nat, pose: BasePose)
    requires c.Valid() && ctl.segment == d.segment < |c.route| && ctl.speeds == d.speeds
    requires ctl.lastSeen == ctl.lastCommand
    requires ctl.lastCommand.Some? ==> timestamp == ctl.lastCommand.value + WHEEL_PERIOD
    ensures var r := Pursue(c, d, pose);
            UpdateController(c, ctl, timestamp, pose) ==
              Issued(Controller(Some(timestamp), Some(timestamp), r.speeds, r.segment), r.distance)
  {
    hide Scaled, Limited, Length, ClampAbs, Toward;
    var r := Pursue(c, d, pose);
    var goal := c.track(r.segment, pose).wanted;
    LimitedIsScaled(goal, c.vmax);
    var target := Scaled(goal, c.vmax);
    assert WHEEL_ACCELERATION * Seconds(WHEEL_PERIOD) == SLEW;
    TowardIsClamp(ctl.speeds.left, target.left);
    TowardIsClamp(ctl.speeds.right, target.right);
  }

  /** The wheel state comes one period after the last answered one. */
  predicate Timely(att: seq<Attempt>, w: WheelState) {
    att != [] ==> att[|att| - 1].command.timestamp + WHEEL_PERIOD == w.head.timestamp
  }

  ghost predicate Answerable(c: Config, s: Peer, w: WheelState)
    requires c.Valid()
  {
    s.fault.None? ==> Timely(s.log.attempts, w) && !NeedsPose(c, s, w.head.timestamp)
  }

  /** What computing the speeds does, in terms of the drive so far. */
  ghost predicate Pursued(c: Config, s: Peer, t: nat, d: Drive, r: Peer, v: Option<Speeds>, progress: Option<real>)
    requires c.Valid() && d.segment < |c.route|
  {
    var pose := LatestPoseAt(s.store.poses, t);
    && v.Some?
    && (progress.Some? ==>
          && s.fault.None? && t <= StopTime(c.route) && pose.Some?
          && var e := Pursue(c, d, s.store.poses[pose.value]);
             && progress.value == e.distance
             && r.controller == Controller(Some(t), Some(t), e.speeds, e.segment)
             && (r.fault.None? && t < StopTime(c.route) ==> v.value == e.speeds))
    && (progress.None? ==> r.controller == s.controller && (r.fault.None? ==> t > StopTime(c.route)))
  }

  lemma SpeedsPursue(c: Config, s: Peer, w: WheelState)
    requires Ready(c, s) && Answerable(c, s, w)
    requires s.fault.None? ==> Steered(c, s.log.frames, s.log.attempts, s.controller)
    ensures var t := w.head.timestamp;
            var (r, v) := CommandSpeeds(c, s, t);
            Pursued(c, s, t, Driven(c, s.log.frames, s.log.attempts), r, v,
              Achieved(c, s.fault, s.store.poses, s.controller, t))
  {
    hide Pursue, UpdateController, Observe, Driven, StopTime;
    var t := w.head.timestamp;
    if s.fault.None? && t <= StopTime(c.route) {
      var pose := LatestPoseAt(s.store.poses, t);
      ControllerPursues(c, s.controller, Driven(c, s.log.frames, s.log.attempts), t, s.store.poses[pose.value]);
    }
  }

  /** The drive after one more answer. */
  lemma DrivenSnoc(c: Config, frames: seq<Joined>, att: seq<Attempt>, a: Attempt)
    requires c.Valid()
    ensures var d, basis := Driven(c, frames, att), Basis(c, frames, a);
            Driven(c, frames, att + [a]) ==
              if a.command.timestamp > StopTime(c.route) || basis.None? then d else Pursue(c, d, basis.value.pose)
  {
    hide Basis, Pursue, StopTime;
    assert (att + [a])[..|att|] == att;
  }

  /** The new entry of the log. */
  ghost predicate NewAnswer(c: Config, s: Peer, w: WheelState, r: Peer, a: Attempt) {
    && r.log == s.log.(attempts := s.log.attempts + [a]) && r.store == s.store && r.fault == a.fault
    && a.command.timestamp == w.head.timestamp && a.wheel == w && a.joined == |s.log.frames|
    && a.pose == LatestPoseAt(s.store.poses, w.head.timestamp) && a.quiet == Quiet(s, w)
  }

  lemma StoredInOrder(c: Config, p: PoseStore, frames: seq<Joined>)
    requires Stored(c, p, frames)
    ensures InOrder(Recovered(c, frames))
  {
  }

  lemma NewIsInformed(c: Config, s: Peer, w: WheelState, r: Peer, a: Attempt)
    requires c.Valid() && Stored(c, s.store, s.log.frames) && NewAnswer(c, s, w, r, a)
    requires a.progress.Some? ==> w.head.timestamp <= StopTime(c.route) && a.pose.Some?
    ensures Informed(c, s.log.frames, a)
    ensures a.pose.Some? ==>
              Basis(c, s.log.frames, a) == Some(Seen(a.pose.value, s.store.poses[a.pose.value]))
  {
    hide Resting, AtRest, Recovered, Stored, LatestPoseAt, StopTime;
    assert s.log.frames[..a.joined] == s.log.frames;
    StoredInOrder(c, s.store, s.log.frames);
    QuietIsRest(c, s.store, s.log.frames, w.driveSpeeds);
    if a.pose.Some? {
      LatestIsNewest(c, s.store, s.log.frames, w.head.timestamp);
    }
  }

  /** The earlier answers keep what is known of them. */
  lemma AnswersSnoc(c: Config, frames: seq<Joined>, att: seq<Attempt>, a: Attempt)
    requires c.Valid() && Answers(c, frames, att) && Informed(c, frames, a) && Follows(c, frames, att + [a], |att|)
    ensures Answers(c, frames, att + [a])
  {
    hide Informed, Driven, StopTime;
    var all := att + [a];
    forall k | 0 <= k < |all| ensures Informed(c, frames, all[k]) && Follows(c, frames, all, k) {
      if k < |att| {
        assert Informed(c, frames, att[k]) && Follows(c, frames, att, k);
        assert all[..k + 1] == att[..k + 1];
      }
    }
  }

  lemma NumberedTraced(c: Config, s: Peer, w: WheelState)
    requires Ready(c, s) && Traced(c, s) && Answerable(c, s, w)
    ensures CommandSpeeds(c, s, w.head.timestamp).1.Some?
    ensures Traced(c, Numbered(c, s, w).0)
  {
    hide CommandSpeeds, Achieved, Answerable, Stored, Keyed, Paired, Answers, Informed;
    SpeedsPursue(c, s, w);
    var (r, a) := Numbered(c, s, w);
    SpeedsFrameOf(c, s, w.head.timestamp);
    NewIsInformed(c, s, w, r, a);
    PursuitTraced(c, s, w, r, a);
  }

  lemma SpeedsFrameOf(c: Config, s: Peer, timestamp: nat)
    requires Ready(c, s)
    ensures var r := CommandSpeeds(c, s, timestamp).0;
            r == s.(fault := r.fault, controller := r.controller, lagSince := r.lagSince)
            && (s.fault.Some? ==> r.fault == s.fault)
  {
  }

  lemma PursuitTraced(c: Config, s: Peer, w: WheelState, r: Peer, a: Attempt)
    requires c.Valid() && Traced(c, s) && NewAnswer(c, s, w, r, a) && (s.fault.Some? ==> r.fault == s.fault)
    requires Pursued(c, s, w.head.timestamp, Driven(c, s.log.frames, s.log.attempts), r, Some(a.command.speeds),
               a.progress)
    requires Informed(c, s.log.frames, a)
    requires a.pose.Some? ==> Basis(c, s.log.frames, a) == Some(Seen(a.pose.value, s.store.poses[a.pose.value]))
    ensures Traced(c, r)
  {
    hide Stored, Keyed, Paired, Answers, Informed, Driven, Basis, Pursue, LatestPoseAt, StopTime;
    var frames, att := s.log.frames, s.log.attempts;
    DrivenSnoc(c, frames, att, a);
    assert (att + [a])[..|att| + 1] == att + [a];
    AnswersSnoc(c, frames, att, a);
  }

  /** Nothing that the trace speaks about changed, and no fault was cleared. */
  ghost predicate TraceFrame(s: Peer, r: Peer) {
    && r.log.attempts == s.log.attempts && r.log.frames == s.log.frames && r.log.pairs == s.log.pairs
    && r.store == s.store.(rtk := r.store.rtk, imu := r.store.imu, pendingRtk := r.store.pendingRtk,
         pendingImu := r.store.pendingImu)
    && (Keyed(s.store) ==> Keyed(r.store))
    && r.controller == s.controller && (s.fault.Some? ==> r.fault.Some?)
  }

  lemma FrameTraced(c: Config, s: Peer, r: Peer)
    requires c.Valid() && Traced(c, s) && TraceFrame(s, r)
    ensures Traced(c, r)
  {
    hide Answers, Steered, Recovered, Paired;
  }

  lemma HandOverFrame(c: Config, s: Peer, w: WheelState, a: Attempt)
    requires c.Valid()
    ensures TraceFrame(s, HandOver(c, s, w, a))
  {
  }

  lemma PublishTraced(c: Config, s: Peer, w: WheelState)
    requires Ready(c, s) && Traced(c, s) && Answerable(c, s, w)
    ensures Traced(c, Publish(c, s, w))
  {
    hide CommandSpeeds, Numbered, HandOver, Traced, Answerable, TraceFrame;
    NumberedTraced(c, s, w);
    var (r, a) := Numbered(c, s, w);
    HandOverFrame(c, r, w, a);
    FrameTraced(c, r, HandOver(c, r, w, a));
  }

  // ----- every event -----

  /** A parked wheel state is the next to be answered. */
  predicate Queued(s: Peer) {
    s.fault.None? && s.parked.Some? ==> Timely(s.log.attempts, s.parked.value.state)
  }

  lemma DispatchTraced(c: Config, s: Peer)
    requires Ready(c, s) && Traced(c, s) && Queued(s)
    ensures Traced(c, DispatchParked(c, s))
  {
    hide Publish, NeedsPose, Traced, Timely;
    if s.parked.Some? && !NeedsPose(c, s, s.parked.value.state.head.timestamp) {
      var s1 := s.(parked := None);
      FrameTraced(c, s, s1);
      SameNeed(c, s, s1, s.parked.value.state.head.timestamp);
      PublishTraced(c, s1, s.parked.value.state);
    }
  }

  lemma SameNeed(c: Config, s: Peer, r: Peer, timestamp: nat)
    requires c.Valid() && r.fault == s.fault && r.store.poses == s.store.poses
    ensures NeedsPose(c, r, timestamp) == NeedsPose(c, s, timestamp)
  {
  }

  lemma KeptBefore(poses: map<nat, BasePose>, known: seq<Seen>, next: Seen)
    requires InOrder(known + [next]) && Kept(poses, known)
    ensures forall t :: t in poses ==> t < next.timestamp
  {
    var grown := known + [next];
    forall t | t in poses ensures t < next.timestamp {
      var i :| 0 <= i < |known| && |known| - 4 <= i && known[i].timestamp == t;
      assert grown[i] == known[i] && grown[|known|] == next;
    }
  }

  lemma OneMorePose(poses: map<nat, BasePose>, next: Seen)
    requires next.timestamp !in poses
    ensures |poses[next.timestamp := next.pose]| == |poses| + 1
  {
    assert poses[next.timestamp := next.pose].Keys == poses.Keys + {next.timestamp};
  }

  /** With four poses kept, the next one makes five, of known times. */
  lemma JoinsKept(poses: map<nat, BasePose>, known: seq<Seen>, next: Seen)
    requires Kept(poses, known) && |known| >= 4 && forall t :: t in poses ==> t < next.timestamp
    ensures var all := poses[next.timestamp := next.pose];
            && |poses| == 4
            && (forall i :: |known| - 4 <= i < |known| ==>
                 known[i].timestamp in all && all[known[i].timestamp] == known[i].pose)
            && (forall t :: t in all ==>
                 t == next.timestamp || exists i :: |known| - 4 <= i < |known| && known[i].timestamp == t)
  {
    var all := poses[next.timestamp := next.pose];
    forall i | |known| - 4 <= i < |known|
      ensures known[i].timestamp in all && all[known[i].timestamp] == known[i].pose
    {
      assert known[i].timestamp in poses && known[i].timestamp < next.timestamp;
    }
    forall t | t in all && t != next.timestamp
      ensures exists i :: |known| - 4 <= i < |known| && known[i].timestamp == t
    {
      assert t in poses;
      var i :| 0 <= i < |known| && |known| - 4 <= i && known[i].timestamp == t;
    }
  }

  /** The newest four after a fifth joined are those without the oldest. */
  lemma TrimKept(poses: map<nat, BasePose>, known: seq<Seen>, next: Seen)
    requires InOrder(known + [next]) && Kept(poses, known)
    ensures Kept(Trim(poses[next.timestamp := next.pose]), known + [next])
  {
    var all, grown := poses[next.timestamp := next.pose], known + [next];
    hide Trim;
    KeptBefore(poses, known, next);
    OneMorePose(poses, next);
    if |known| >= 4 {
      hide Kept, InOrder;
      JoinsKept(poses, known, next);
      TrimOne(all, known, next);
    } else {
      KeptAll(poses, known, next);
    }
  }

  /** Up to the fourth pose nothing is evicted. */
  lemma KeptAll(poses: map<nat, BasePose>, known: seq<Seen>, next: Seen)
    requires InOrder(known + [next]) && Kept(poses, known) && |known| < 4 && next.timestamp !in poses
    requires |poses[next.timestamp := next.pose]| == |poses| + 1
    ensures Kept(Trim(poses[next.timestamp := next.pose]), known + [next])
  {
    var all, grown := poses[next.timestamp := next.pose], known + [next];
    forall t | t in all ensures exists i :: 0 <= i < |grown| && |grown| - 4 <= i && grown[i].timestamp == t {
      if t == next.timestamp {
        assert grown[|known|].timestamp == t;
      } else {
        var i :| 0 <= i < |known| && |known| - 4 <= i && known[i].timestamp == t;
        assert grown[i].timestamp == t;
      }
    }
    forall i | 0 <= i < |grown| ensures grown[i].timestamp in all && all[grown[i].timestamp] == grown[i].pose {
      if i < |known| {
        assert grown[i] == known[i];
      }
    }
  }

  lemma TrimOne(all: map<nat, BasePose>, known: seq<Seen>, next: Seen)
    requires InOrder(known + [next]) && |known| >= 4 && |all| == 5
    requires forall i :: |known| - 4 <= i < |known| ==>
               known[i].timestamp in all && all[known[i].timestamp] == known[i].pose
    requires next.timestamp in all && all[next.timestamp] == next.pose
    requires forall t :: t in all ==>
               t == next.timestamp || exists i :: |known| - 4 <= i < |known| && known[i].timestamp == t
    ensures Kept(Trim(all), known + [next])
  {
    var grown, first := known + [next], known[|known| - 4].timestamp;
    assert grown[|known| - 4] == known[|known| - 4] && grown[|known|] == next;
    forall t | t in all ensures first <= t {
      if t != next.timestamp {
        var i :| |known| - 4 <= i < |known| && known[i].timestamp == t;
        assert grown[i] == known[i];
      }
    }
    assert Oldest(all.Keys) == first;
    RemoveCounts(all, first);
    assert Trim(all) == all - {first};
    forall t | t in all - {first} ensures exists i :: |grown| - 4 <= i < |grown| && grown[i].timestamp == t {
      if t == next.timestamp {
        assert grown[|known|].timestamp == t;
      } else {
        var i :| |known| - 4 <= i < |known| && known[i].timestamp == t;
        assert grown[i].timestamp == t;
      }
    }
    forall i | |grown| - 4 <= i < |grown|
      ensures grown[i].timestamp in all - {first} && all[grown[i].timestamp] == grown[i].pose
    {
      assert grown[|known| - 4].timestamp < grown[i].timestamp;
      if i < |known| {
        assert grown[i] == known[i];
      }
    }
  }

  lemma RecoveredSnoc(c: Config, frames: seq<Joined>, f: Joined)
    ensures var known := Recovered(c, frames);
            var pose := c.recover(f.rtk, f.imu, Facing(known));
            Recovered(c, frames + [f]) ==
              if pose.None? then known else known + [Seen(f.rtk.head.timestamp, pose.value)]
  {
    assert (frames + [f])[..|frames|] == frames;
  }

  lemma SpeedIs(a: BasePose, b: BasePose, elapsed: real)
    requires elapsed > 0.0
    ensures Square(elapsed) > 0.0
    ensures SpeedSquared(SquaredDistance(a.position, b.position), elapsed) == Moved(a, b) / Square(elapsed)
  {
    SquarePositive(elapsed);
  }

  lemma RememberSpeed(p: PoseStore, known: seq<Seen>, next: Seen)
    requires InOrder(known) && InOrder(known + [next])
    requires p.speedSquared == Speed(known)
    requires p.latest == (if known == [] then None else Some(known[|known| - 1].timestamp))
    requires known != [] ==>
               && known[|known| - 1].timestamp in p.poses
               && p.poses[known[|known| - 1].timestamp] == known[|known| - 1].pose
    requires p.latest.Some? ==> p.latest.value < next.timestamp
    ensures Remember(p, next.timestamp, next.pose).speedSquared == Speed(known + [next])
  {
    hide Trim, Square, Seconds, Moved, SquaredDistance, SpeedSquared;
    if known != [] {
      var grown := known + [next];
      assert grown[|grown| - 2] == known[|known| - 1] && grown[|grown| - 1] == next;
      SomeSeconds(next.timestamp - known[|known| - 1].timestamp);
      SpeedIs(known[|known| - 1].pose, next.pose, Seconds(next.timestamp - known[|known| - 1].timestamp));
    }
  }

  lemma RememberStored(c: Config, p: PoseStore, frames: seq<Joined>, f: Joined, pose: BasePose)
    requires Stored(c, p, frames) && c.recover(f.rtk, f.imu, p.previousOrientation) == Some(pose)
    requires p.latest.Some? ==> p.latest.value in p.poses && p.latest.value < f.rtk.head.timestamp
    ensures Stored(c, Remember(p, f.rtk.head.timestamp, pose), frames + [f])
  {
    hide Recovered, Trim, Moved, SquaredDistance, Kept, Seconds, Square;
    RecoveredSnoc(c, frames, f);
    var known, next := Recovered(c, frames), Seen(f.rtk.head.timestamp, pose);
    assert InOrder(known + [next]);
    if known != [] {
      LastKept(p, known);
    }
    RememberSpeed(p, known, next);
    TrimKept(p.poses, known, next);
  }

  lemma LastKept(p: PoseStore, known: seq<Seen>)
    requires Kept(p.poses, known) && known != []
    ensures known[|known| - 1].timestamp in p.poses && p.poses[known[|known| - 1].timestamp] == known[|known| - 1].pose
  {
  }

  /** A pair joined the log; the store is already what it becomes. */
  lemma JoinedTraced(c: Config, s: Peer, timestamp: nat, p: PoseStore)
    requires c.Valid() && Traced(c, s) && timestamp in s.store.pendingRtk && timestamp in s.store.pendingImu
    requires Stored(c, p, Unpended(s, timestamp).log.frames)
    requires p.pendingRtk == s.store.pendingRtk - {timestamp} && p.pendingImu == s.store.pendingImu - {timestamp}
    ensures Traced(c, Unpended(s, timestamp).(store := p))
  {
    hide Stored, Answers, Driven;
    var f := Joined(s.store.pendingRtk[timestamp], s.store.pendingImu[timestamp]);
    AnswersGrow(c, s.log.frames, f, s.log.attempts);
  }

  lemma UnpendedStored(c: Config, s: Peer, timestamp: nat)
    requires c.Valid() && Traced(c, s) && timestamp in s.store.pendingRtk && timestamp in s.store.pendingImu
    ensures var p, r := s.store, Unpended(s, timestamp);
            var f := Joined(p.pendingRtk[timestamp], p.pendingImu[timestamp]);
            && f.rtk.head.timestamp == timestamp && r.log.frames == s.log.frames + [f]
            && Stored(c, r.store, s.log.frames)
            && (c.recover(f.rtk, f.imu, p.previousOrientation).None? ==> Stored(c, r.store, r.log.frames))
  {
    hide Answers, Steered, Kept, Recovered, Speed, InOrder;
    var p := s.store;
    RecoveredSnoc(c, s.log.frames, Joined(p.pendingRtk[timestamp], p.pendingImu[timestamp]));
  }

  lemma FinishTraced(c: Config, s: Peer)
    requires c.Valid() && Traced(c, s)
    ensures Traced(c, MaybeFinish(c, s))
  {
    hide Traced;
    FrameTraced(c, s, MaybeFinish(c, s));
  }

  lemma CompleteTraced(c: Config, s: Peer, timestamp: nat)
    requires Ready(c, s) && Traced(c, s) && Queued(s)
    requires Retained(s.store, s.log.pairs) && forall i :: 0 <= i < |s.log.pairs| ==> s.log.pairs[i] < timestamp
    ensures Traced(c, CompletePair(c, s, timestamp))
  {
    var p := s.store;
    if timestamp in p.pendingRtk && timestamp in p.pendingImu {
      hide CompletePair, DispatchParked, Remember, Traced, MaybeFinish, Stored, Retained, TraceFrame;
      CompleteUnfold(c, s, timestamp);
      UnpendedStored(c, s, timestamp);
      var s1 := Unpended(s, timestamp);
      var f := Joined(p.pendingRtk[timestamp], p.pendingImu[timestamp]);
      var pose := c.recover(f.rtk, f.imu, p.previousOrientation);
      if pose.None? {
        JoinedTraced(c, s, timestamp, s1.store);
        LatchTraced(c, s1, PoseInvalid);
      } else {
        RememberPending(s1.store, timestamp, pose.value);
        RememberStored(c, s1.store, s.log.frames, f, pose.value);
        JoinedTraced(c, s, timestamp, Remember(s1.store, timestamp, pose.value));
        var s2 := s1.(store := Remember(s1.store, timestamp, pose.value));
        DispatchTraced(c, s2);
        FinishTraced(c, DispatchParked(c, s2));
      }
    }
  }

  lemma RememberPending(p: PoseStore, timestamp: nat, pose: BasePose)
    requires p.latest.Some? ==> p.latest.value in p.poses && p.latest.value < timestamp
    ensures var r := Remember(p, timestamp, pose); r.pendingRtk == p.pendingRtk && r.pendingImu == p.pendingImu
  {
  }

  lemma LatchTraced(c: Config, s: Peer, reason: Fault)
    requires c.Valid() && Traced(c, s)
    ensures Traced(c, Latch(s, reason))
  {
    hide Traced;
    FrameTraced(c, s, Latch(s, reason));
  }

  /** A parked wheel state is next, one period after the last answered one. */
  lemma QueueHolds(c: Config, s: Peer)
    requires Inv(c, s)
    ensures Ready(c, s) && Queued(s)
  {
    if s.parked.Some? {
      AttemptTimes(c, s, s.parked.value.state);
    }
  }

  lemma NextIsTimely(c: Config, s: Peer, w: WheelState)
    requires Inv(c, s) && s.parked.None? && Accept(s.wheel, WHEEL_PERIOD, w.head).Accepted?
    ensures Timely(s.log.attempts, w)
  {
  }

  lemma SampleTraced(c: Config, s: Peer, r: Peer, timestamp: nat)
    requires Inv(c, s) && Traced(c, s)
    requires r == s.(store := r.store, baseIdentity := r.baseIdentity) && TraceFrame(s, r)
    requires Arrived(r.store, r.log.pairs, r.log.rtkRejected, r.log.imuRejected, timestamp)
    ensures Ready(c, r) && Traced(c, CompletePair(c, r, timestamp))
  {
    hide Traced, CompletePair, Inv, TraceFrame, Retained, Timely;
    QueueHolds(c, s);
    FrameTraced(c, s, r);
    CompleteTraced(c, r, timestamp);
  }

  lemma RtkTraced(c: Config, s: Peer, m: RtkState)
    requires Inv(c, s) && Traced(c, s)
    ensures Ready(c, s) && Traced(c, OnRtk(c, s, m))
  {
    hide CompletePair, Traced, Inv, PosePairs, Arrived, AcceptBaseIdentity;
    InvParts(c, s);
    var verdict := Accept(s.store.rtk, POSE_PERIOD, m.head);
    if verdict.Accepted? {
      RtkArrived(s.store, s.log.pairs, s.log.rtkRejected, s.log.imuRejected, m);
      var s1 := s.(store := s.store.(rtk := verdict.next));
      BaseIdentityShape(c, s1, m.head, RtkTopic);
      var (r, same) := AcceptBaseIdentity(c, s1, m.head, RtkTopic);
      if same {
        SampleTraced(c, s, r.(store := r.store.(pendingRtk := r.store.pendingRtk[m.head.timestamp := m])),
          m.head.timestamp);
      } else {
        FrameTraced(c, s, r.(log := r.log.(rtkRejected := r.log.rtkRejected + 1)));
      }
    } else {
      FrameTraced(c, s, OnRtk(c, s, m));
    }
  }

  lemma ImuTraced(c: Config, s: Peer, m: ImuAttitude)
    requires Inv(c, s) && Traced(c, s)
    ensures Ready(c, s) && Traced(c, OnImu(c, s, m))
  {
    hide CompletePair, Traced, Inv, PosePairs, Arrived, AcceptBaseIdentity;
    InvParts(c, s);
    var verdict := Accept(s.store.imu, POSE_PERIOD, m.head);
    if verdict.Accepted? {
      ImuArrived(s.store, s.log.pairs, s.log.rtkRejected, s.log.imuRejected, m);
      var s1 := s.(store := s.store.(imu := verdict.next));
      BaseIdentityShape(c, s1, m.head, ImuTopic);
      var (r, same) := AcceptBaseIdentity(c, s1, m.head, ImuTopic);
      if same {
        SampleTraced(c, s, r.(store := r.store.(pendingImu := r.store.pendingImu[m.head.timestamp := m])),
          m.head.timestamp);
      } else {
        FrameTraced(c, s, r.(log := r.log.(imuRejected := r.log.imuRejected + 1)));
      }
    } else {
      FrameTraced(c, s, OnImu(c, s, m));
    }
  }

  lemma DispatchFaulted(c: Config, s: Peer)
    requires Ready(c, s) && s.fault.Some?
    ensures DispatchParked(c, s).fault.Some?
  {
  }

  lemma AfterAcceptTraced(c: Config, s: Peer, w: WheelState, at: real)
    requires Ready(c, s) && Traced(c, s) && (s.fault.None? && s.parked.None? ==> Timely(s.log.attempts, w))
    ensures Traced(c, AfterAccept(c, s, w, at))
  {
    hide Publish, DispatchParked, NeedsPose, Traced, Timely;
    if s.parked.Some? {
      var s1 := Latch(s, AdvancedWhilePending);
      LatchTraced(c, s, AdvancedWhilePending);
      DispatchTraced(c, s1);
      DispatchFaulted(c, s1);
      PublishTraced(c, DispatchParked(c, s1), w);
    } else if NeedsPose(c, s, w.head.timestamp) {
      FrameTraced(c, s, s.(parked := Some(Parked(w, at))));
    } else {
      PublishTraced(c, s, w);
    }
  }

  lemma WheelTraced(c: Config, s: Peer, w: WheelState, at: real)
    requires Inv(c, s) && Traced(c, s)
    ensures Ready(c, s) && Traced(c, OnWheel(c, s, w, at))
  {
    hide AfterAccept, CheckWheel, Traced, Inv, Timely;
    QueueHolds(c, s);
    var verdict := Accept(s.wheel, WHEEL_PERIOD, w.head);
    if verdict.Accepted? {
      CheckWheelShape(c, s.(wheel := verdict.next, lastWheel := Some(w.head.timestamp),
                            log := s.log.(accepted := s.log.accepted + [w])), w);
      var r := AcceptWheel(c, s, w, verdict.next);
      FrameTraced(c, s, r);
      if s.parked.None? {
        NextIsTimely(c, s, w);
      }
      AfterAcceptTraced(c, r, w, at);
    } else {
      FrameTraced(c, s, OnWheel(c, s, w, at));
    }
  }

  lemma TimerTraced(c: Config, s: Peer, now: real)
    requires Inv(c, s) && Traced(c, s)
    ensures Ready(c, s) && Traced(c, Service(c, s, now))
  {
    hide DispatchParked, NeedsPose, Traced, Inv, Timely;
    QueueHolds(c, s);
    LatchTraced(c, s, PoseStale);
    DispatchTraced(c, Latch(s, PoseStale));
    DispatchTraced(c, s);
  }

  lemma ApplyTraced(c: Config, s: Peer, e: Event)
    requires Inv(c, s) && Traced(c, s)
    ensures Ready(c, s) && Traced(c, Apply(c, s, e))
  {
    hide Traced, Inv, OnWheel, OnRtk, OnImu, Service;
    InvParts(c, s);
    match e
    case WheelArrives(w, at) => WheelTraced(c, s, w, at);
    case RtkArrives(m) => RtkTraced(c, s, m);
    case ImuArrives(m) => ImuTraced(c, s, m);
    case BadPayload(topic) => LatchTraced(c, s, PayloadInvalid(topic));
    case OperatorFault(reason) => LatchTraced(c, s, External(reason));
    case Tick(now) => TimerTraced(c, s, now);
  }

  lemma InitialTraced(c: Config)
    requires c.Valid()
    ensures Traced(c, Initial())
  {
  }

  lemma {:induction false} RunTraced(c: Config, run: Run, i: nat)
    requires IsRun(c, run) && i < |run.states|
    ensures Traced(c, run.states[i])
  {
    hide Traced, Inv, Apply;
    if i == 0 {
      InitialTraced(c);
    } else {
      RunTraced(c, run, i - 1);
      RunInv(c, run, i - 1);
      var e := run.events[i - 1];
      ApplyTraced(c, run.states[i - 1], e);
    }
  }
}
