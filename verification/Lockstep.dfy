/**
 The simulator and the command peer joined by lossless first-in-first-out channels, one per topic,
 with any interleaving across topics. The simulator sends a wheel state, waits for the command with
 the same time, and sends the next pose only afterwards.
 */
module Lockstep {
  import opened Basics
  import opened GolfPlan
  import opened PeerModel
  import opened PeerInvariants
  import opened PeerDeliveries

  /**
   What the two processes exchange: contents are arbitrary, only sequence numbers and times are fixed
   by the simulator's cadence. `takes` tells whether the command receiver accepts a command.
   */
  datatype Plant = Plant(
    c: Config,
    duration: nat,
    wheel: nat -> WheelState,
    rtk: nat -> RtkState,
    imu: nat -> ImuAttitude,
    takes: nat -> bool)
  {
    ghost predicate Valid() {
      && c.Valid()
      && duration % POSE_PERIOD == 0
      && (forall k: nat :: wheel(k).head.sequence == k && wheel(k).head.timestamp == (k + 1) * WHEEL_PERIOD)
      && (forall m: nat :: rtk(m).head.sequence == m && rtk(m).head.timestamp == Frame(m))
      && (forall m: nat :: imu(m).head.sequence == m && imu(m).head.timestamp == Frame(m))
    }

    function Ticks(): nat {
      duration / WHEEL_PERIOD
    }
  }

  /** Where the simulator's main loop stands. Tick k carries time k * 10 ms, frame m time m * 100 ms. */
  datatype Pc =
    | SendRtk(m: nat)
    | SendImu(m: nat)
    | SendWheel(k: nat)
    | Await(k: nat)
    | SendLidar(m: nat)
    | Done
    | Stopped

  datatype Sim = Sim(
    pc: Pc,
    wheels: nat,
    lidar: nat,
    rtk: nat,
    imu: nat,
    received: nat,
    latest: Option<nat>,
    refused: bool)

  datatype Joint = Joint(
    sim: Sim,
    wheels: seq<WheelState>,
    rtks: seq<RtkState>,
    imus: seq<ImuAttitude>,
    commands: seq<WheelCommand>,
    peer: Peer)

  function Start(): Joint {
    Joint(Sim(SendRtk(0), 0, 0, 0, 0, 0, None, false), [], [], [], [], Initial())
  }

  datatype Move =
    | SimMoves
    | SimStops
    | DeliverWheel(at: real)
    | DeliverRtk
    | DeliverImu
    | DeliverCommand
    | PeerTick(now: real)
    | PeerFault(reason: string)

  predicate Enabled(j: Joint, move: Move) {
    match move
    case PeerFault(reason) => reason != ""
    case SimMoves =>
      !j.sim.pc.Done? && !j.sim.pc.Stopped? &&
      (j.sim.pc.Await? ==> j.sim.latest == Some(j.sim.pc.k * WHEEL_PERIOD))
    case DeliverWheel(_) => j.wheels != []
    case DeliverRtk => j.rtks != []
    case DeliverImu => j.imus != []
    case DeliverCommand => j.commands != []
    case _ => true
  }

  /** After the pose of frame m: the next ten ticks, or the end of the window. */
  function AfterPose(p: Plant, m: nat): Pc {
    if 10 * m < p.Ticks() then SendWheel(10 * m + 1) else Done
  }

  function AfterCommand(k: nat): Pc {
    if k % 10 == 0 then SendLidar(k / 10) else SendWheel(k + 1)
  }

  function SimStep(p: Plant, j: Joint): Joint {
    var s := j.sim;
    match s.pc
    case SendRtk(m) => j.(sim := s.(pc := SendImu(m), rtk := s.rtk + 1), rtks := j.rtks + [p.rtk(m)])
    case SendImu(m) => j.(sim := s.(pc := AfterPose(p, m), imu := s.imu + 1), imus := j.imus + [p.imu(m)])
    case SendWheel(k) =>
      if k == 0 then j
      else j.(sim := s.(pc := Await(k), wheels := s.wheels + 1), wheels := j.wheels + [p.wheel(k - 1)])
    case Await(k) => j.(sim := s.(pc := AfterCommand(k)))
    case SendLidar(m) => j.(sim := s.(pc := SendRtk(m), lidar := s.lidar + 1))
    case _ => j
  }

  /** Commands the transport carried among the given publish calls. */
  function Outgoing(attempts: seq<Attempt>): seq<WheelCommand> {
    if attempts == [] then []
    else Outgoing(attempts[..|attempts| - 1]) +
         if attempts[|attempts| - 1].delivery.Sent? then [attempts[|attempts| - 1].command] else []
  }

  /** The joint state after a peer callback; what the peer published joins the command channel. */
  function After(j: Joint, peer: Peer): Joint {
    var n := |j.peer.log.attempts|;
    j.(peer := peer, commands := j.commands + if n <= |peer.log.attempts| then Outgoing(peer.log.attempts[n..]) else [])
  }

  function TakeCommand(p: Plant, j: Joint): Joint
    requires j.commands != []
  {
    var command := j.commands[0];
    var s := j.sim.(received := j.sim.received + 1);
    j.(commands := j.commands[1..],
       sim := if p.takes(command.sequence) then s.(latest := Some(command.timestamp)) else s.(refused := true))
  }

  /** One move of either process or of a channel. `Ready` always holds; see `SoundReady`. */
  ghost function Do(p: Plant, j: Joint, move: Move): Joint
    requires Enabled(j, move)
  {
    if !Ready(p.c, j.peer) then j else
    match move
    case SimMoves => SimStep(p, j)
    case SimStops => j.(sim := j.sim.(pc := Stopped))
    case DeliverWheel(at) => After(j.(wheels := j.wheels[1..]), OnWheel(p.c, j.peer, j.wheels[0], at))
    case DeliverRtk => After(j.(rtks := j.rtks[1..]), OnRtk(p.c, j.peer, j.rtks[0]))
    case DeliverImu => After(j.(imus := j.imus[1..]), OnImu(p.c, j.peer, j.imus[0]))
    case DeliverCommand => TakeCommand(p, j)
    case PeerTick(now) => After(j, Service(p.c, j.peer, now))
    case PeerFault(reason) => After(j, Latch(j.peer, External(reason)))
  }


  // ----- what every reachable joint state satisfies -----

  /** The program counter fixes how much of each topic was sent. */
  ghost predicate SimCounts(p: Plant, s: Sim) {
    && s.wheels <= p.Ticks()
    && match s.pc
       case SendRtk(m) => s.rtk == s.imu == m && s.wheels == 10 * m && s.lidar == m
       case SendImu(m) => s.rtk == m + 1 && s.imu == m && s.wheels == 10 * m && s.lidar == m
       case SendWheel(k) => 0 < k <= p.Ticks() && s.wheels == k - 1 && s.rtk == s.imu == (k - 1) / 10 + 1 &&
         s.lidar == (k - 1) / 10
       case Await(k) => 0 < k <= p.Ticks() && s.wheels == k && s.rtk == s.imu == (k - 1) / 10 + 1 &&
         s.lidar == (k - 1) / 10
       case SendLidar(m) => 0 < m && s.rtk == s.imu == m && s.wheels == 10 * m && s.lidar == m - 1
       case Done => s.wheels == p.Ticks() && 10 * s.lidar == s.wheels && s.rtk == s.imu == s.lidar + 1
       case Stopped => true
  }

  /** Poses run ahead of wheels by less than one frame, and never fall behind. */
  ghost predicate PoseLead(s: Sim) {
    && s.wheels <= 10 * s.rtk && s.wheels <= 10 * s.imu
    && (s.rtk > 0 ==> 10 * (s.rtk - 1) <= s.wheels)
    && (s.imu > 0 ==> 10 * (s.imu - 1) <= s.wheels)
  }

  /** A channel holds exactly what was sent and not yet delivered, in order. */
  ghost predicate WheelChannel(p: Plant, acc: seq<WheelState>, wheels: seq<WheelState>, sent: nat) {
    && |acc| + |wheels| == sent
    && (forall i :: 0 <= i < |acc| ==> acc[i] == p.wheel(i))
    && (forall i :: 0 <= i < |wheels| ==> wheels[i] == p.wheel(|acc| + i))
  }

  ghost predicate RtkChannel(p: Plant, q: Progress, rtks: seq<RtkState>, sent: nat) {
    && q.expected + |rtks| == sent && OnCadence(q)
    && (forall i :: 0 <= i < |rtks| ==> rtks[i] == p.rtk(q.expected + i))
  }

  ghost predicate ImuChannel(p: Plant, q: Progress, imus: seq<ImuAttitude>, sent: nat) {
    && q.expected + |imus| == sent && OnCadence(q)
    && (forall i :: 0 <= i < |imus| ==> imus[i] == p.imu(q.expected + i))
  }

  /** At most one command is owed to the simulator, and none unless it waits or stopped. */
  ghost predicate Owed(att: seq<Attempt>, commands: seq<WheelCommand>, s: Sim) {
    var r := s.received;
    && r <= |att| <= s.wheels <= r + 1
    && (!s.pc.Await? && !s.pc.Stopped? ==> s.wheels == r)
    && (forall k :: 0 <= k < r ==> att[k].delivery.Sent?)
    && commands == (if r < |att| && att[r].delivery.Sent? then [att[r].command] else [])
    && (s.latest.Some? ==> s.latest.value <= r * WHEEL_PERIOD)
    && (!s.refused ==> s.latest == if r == 0 then None else Some(r * WHEEL_PERIOD))
  }

  /** The joint invariant, kept as one fact. */
  ghost predicate Sound(p: Plant, j: Joint) {
    true ==
      (&& p.Valid()
       && Inv(p.c, j.peer)
       && SimCounts(p, j.sim)
       && PoseLead(j.sim)
       && WheelChannel(p, j.peer.log.accepted, j.wheels, j.sim.wheels)
       && RtkChannel(p, j.peer.store.rtk, j.rtks, j.sim.rtk)
       && ImuChannel(p, j.peer.store.imu, j.imus, j.sim.imu)
       && Owed(j.peer.log.attempts, j.commands, j.sim)
       && !OrderFault(j.peer.fault)
       && PairsOnCadence(j.peer))
  }

  lemma SoundReady(p: Plant, j: Joint)
    requires Sound(p, j)
    ensures Ready(p.c, j.peer)
  {
  }

  lemma StartSound(p: Plant)
    requires p.Valid()
    ensures Sound(p, Start())
  {
    InitialInv(p.c);
  }

  lemma WholeFrames(p: Plant)
    requires p.Valid()
    ensures p.Ticks() % 10 == 0 && p.Ticks() * WHEEL_PERIOD == p.duration
  {
  }

  lemma SimMovesCounts(p: Plant, j: Joint)
    requires p.Valid() && SimCounts(p, j.sim) && PoseLead(j.sim) && Enabled(j, SimMoves)
    ensures SimCounts(p, SimStep(p, j).sim) && PoseLead(SimStep(p, j).sim)
  {
    WholeFrames(p);
  }

  lemma WheelSent(p: Plant, acc: seq<WheelState>, wheels: seq<WheelState>, sent: nat)
    requires WheelChannel(p, acc, wheels, sent)
    ensures WheelChannel(p, acc, wheels + [p.wheel(sent)], sent + 1)
  {
  }

  lemma RtkSent(p: Plant, q: Progress, rtks: seq<RtkState>, sent: nat)
    requires RtkChannel(p, q, rtks, sent)
    ensures RtkChannel(p, q, rtks + [p.rtk(sent)], sent + 1)
  {
  }

  lemma ImuSent(p: Plant, q: Progress, imus: seq<ImuAttitude>, sent: nat)
    requires ImuChannel(p, q, imus, sent)
    ensures ImuChannel(p, q, imus + [p.imu(sent)], sent + 1)
  {
  }

  lemma SimMovesOwed(p: Plant, j: Joint)
    requires p.Valid() && SimCounts(p, j.sim) && Owed(j.peer.log.attempts, j.commands, j.sim) && Enabled(j, SimMoves)
    ensures Owed(j.peer.log.attempts, j.commands, SimStep(p, j).sim)
  {
  }

  lemma SimMovesSound(p: Plant, j: Joint)
    requires Sound(p, j) && Enabled(j, SimMoves)
    ensures Sound(p, SimStep(p, j))
  {
    hide Inv, PairsOnCadence, OrderFault, WheelChannel, RtkChannel, ImuChannel, Owed, PoseLead;
    SimMovesCounts(p, j);
    SimMovesOwed(p, j);
    WheelSent(p, j.peer.log.accepted, j.wheels, j.sim.wheels);
    RtkSent(p, j.peer.store.rtk, j.rtks, j.sim.rtk);
    ImuSent(p, j.peer.store.imu, j.imus, j.sim.imu);
  }

  // ----- peer callbacks -----

  lemma OutgoingOne(att: seq<Attempt>)
    requires |att| <= 1
    ensures Outgoing(att) == if att != [] && att[0].delivery.Sent? then [att[0].command] else []
  {
    if att != [] {
      assert att[..|att| - 1] == [];
    }
  }

  /** A callback adds at most the one command that is owed. */
  lemma OwedAfter(att: seq<Attempt>, fault: Option<Fault>, att': seq<Attempt>, fault': Option<Fault>,
      commands: seq<WheelCommand>, s: Sim)
    requires Owed(att, commands, s) && Extends(att, fault, att', fault') && |att'| <= s.wheels
    ensures Owed(att', commands + Outgoing(att'[|att|..]), s)
  {
    OutgoingOne(att'[|att|..]);
  }

  lemma AttemptsAccepted(c: Config, s: Peer)
    requires Inv(c, s)
    ensures |s.log.attempts| <= |s.log.accepted|
    ensures |s.log.accepted| == |s.log.attempts| + if s.parked.Some? then 1 else 0
    ensures s.wheel == Progress(|s.log.accepted|, LastTime(s.log.accepted))
    ensures Ready(c, s)
  {
  }

  /** What every peer callback keeps; `j` is the state once the message was taken from its channel. */
  ghost predicate Kept(p: Plant, j: Joint, peer: Peer) {
    true ==
      (&& p.Valid()
       && SimCounts(p, j.sim)
       && PoseLead(j.sim)
       && Owed(j.peer.log.attempts, j.commands, j.sim)
       && Inv(p.c, peer)
       && Extends(j.peer.log.attempts, j.peer.fault, peer.log.attempts, peer.fault)
       && WheelChannel(p, peer.log.accepted, j.wheels, j.sim.wheels)
       && RtkChannel(p, peer.store.rtk, j.rtks, j.sim.rtk)
       && ImuChannel(p, peer.store.imu, j.imus, j.sim.imu)
       && !OrderFault(peer.fault)
       && PairsOnCadence(peer))
  }

  lemma KeptSound(p: Plant, j: Joint, peer: Peer)
    requires Kept(p, j, peer)
    ensures Sound(p, After(j, peer))
  {
    AttemptsAccepted(p.c, peer);
    hide Inv, PairsOnCadence, OrderFault, SimCounts, PoseLead, RtkChannel, ImuChannel, Owed;
    OwedAfter(j.peer.log.attempts, j.peer.fault, peer.log.attempts, peer.fault, j.commands, j.sim);
  }

  /** A wheel state only ever reaches a peer that has nothing parked, and it is the next one. */
  lemma WheelIsNext(p: Plant, j: Joint)
    requires p.Valid() && Inv(p.c, j.peer) && j.wheels != []
    requires WheelChannel(p, j.peer.log.accepted, j.wheels, j.sim.wheels) &&
               Owed(j.peer.log.attempts, j.commands, j.sim)
    ensures Ready(p.c, j.peer) && j.peer.parked.None?
    ensures Accept(j.peer.wheel, WHEEL_PERIOD, j.wheels[0].head).Accepted?
  {
    AttemptsAccepted(p.c, j.peer);
    hide Inv;
    var acc := j.peer.log.accepted;
    assert j.wheels[0] == p.wheel(|acc| + 0);
    assert acc != [] ==> acc[|acc| - 1] == p.wheel(|acc| - 1);
  }

  lemma UnfaultedPairs(s: Peer, r: Peer)
    requires PairsOnCadence(s) && PoseFrame(s, r) && Extends(s.log.attempts, s.fault, r.log.attempts, r.fault)
    ensures PairsOnCadence(r)
  {
  }

  lemma FaultedOrNot(s: Peer, r: Peer)
    requires (s.fault.None? ==> PairsOnCadence(r)) && Extends(s.log.attempts, s.fault, r.log.attempts, r.fault)
    ensures PairsOnCadence(r)
  {
  }

  lemma WheelTaken(p: Plant, acc: seq<WheelState>, wheels: seq<WheelState>, sent: nat)
    requires WheelChannel(p, acc, wheels, sent) && wheels != []
    ensures WheelChannel(p, acc + [wheels[0]], wheels[1..], sent)
  {
    assert wheels[0] == p.wheel(|acc| + 0);
  }

  lemma RtkTaken(p: Plant, q: Progress, rtks: seq<RtkState>, sent: nat)
    requires p.Valid() && RtkChannel(p, q, rtks, sent) && rtks != []
    ensures NextFrame(q, rtks[0].head)
    ensures RtkChannel(p, Progress(q.expected + 1, Some(rtks[0].head.timestamp)), rtks[1..], sent)
  {
    assert rtks[0] == p.rtk(q.expected + 0);
  }

  lemma ImuTaken(p: Plant, q: Progress, imus: seq<ImuAttitude>, sent: nat)
    requires p.Valid() && ImuChannel(p, q, imus, sent) && imus != []
    ensures NextFrame(q, imus[0].head)
    ensures ImuChannel(p, Progress(q.expected + 1, Some(imus[0].head.timestamp)), imus[1..], sent)
  {
    assert imus[0] == p.imu(q.expected + 0);
  }

  lemma WheelSound(p: Plant, j: Joint, at: real)
    requires Sound(p, j) && j.wheels != []
    ensures Ready(p.c, j.peer) && Sound(p, After(j.(wheels := j.wheels[1..]), OnWheel(p.c, j.peer, j.wheels[0], at)))
  {
    WheelIsNext(p, j);
    var w := j.wheels[0];
    hide Inv, OnWheel, WheelChannel, RtkChannel, ImuChannel, PairsOnCadence, SimCounts, PoseLead, OrderFault, Extends,
      Owed;
    var peer := OnWheel(p.c, j.peer, w, at);
    WheelKeeps(p.c, j.peer, w, at);
    WheelFrame(p.c, j.peer, w, at);
    UnfaultedPairs(j.peer, peer);
    WheelTaken(p, j.peer.log.accepted, j.wheels, j.sim.wheels);
    KeptSound(p, j.(wheels := j.wheels[1..]), peer);
  }

  lemma RtkSound(p: Plant, j: Joint)
    requires Sound(p, j) && j.rtks != []
    ensures Ready(p.c, j.peer) && Sound(p, After(j.(rtks := j.rtks[1..]), OnRtk(p.c, j.peer, j.rtks[0])))
  {
    hide Inv, OnRtk, WheelChannel, RtkChannel, ImuChannel, PairsOnCadence, SimCounts, PoseLead, OrderFault, Extends,
      Owed, NextFrame;
    SoundReady(p, j);
    RtkTaken(p, j.peer.store.rtk, j.rtks, j.sim.rtk);
    var peer := OnRtk(p.c, j.peer, j.rtks[0]);
    RtkKeeps(p.c, j.peer, j.rtks[0]);
    RtkDelivered(p.c, j.peer, j.rtks[0]);
    FaultedOrNot(j.peer, peer);
    assert peer.log.accepted == j.peer.log.accepted;
    KeptSound(p, j.(rtks := j.rtks[1..]), peer);
  }

  lemma ImuSound(p: Plant, j: Joint)
    requires Sound(p, j) && j.imus != []
    ensures Ready(p.c, j.peer) && Sound(p, After(j.(imus := j.imus[1..]), OnImu(p.c, j.peer, j.imus[0])))
  {
    hide Inv, OnImu, WheelChannel, RtkChannel, ImuChannel, PairsOnCadence, SimCounts, PoseLead, OrderFault, Extends,
      Owed, NextFrame;
    SoundReady(p, j);
    ImuTaken(p, j.peer.store.imu, j.imus, j.sim.imu);
    var peer := OnImu(p.c, j.peer, j.imus[0]);
    ImuKeeps(p.c, j.peer, j.imus[0]);
    ImuDelivered(p.c, j.peer, j.imus[0]);
    FaultedOrNot(j.peer, peer);
    assert peer.log.accepted == j.peer.log.accepted;
    KeptSound(p, j.(imus := j.imus[1..]), peer);
  }

  lemma TickSound(p: Plant, j: Joint, now: real)
    requires Sound(p, j)
    ensures Ready(p.c, j.peer) && Sound(p, After(j, Service(p.c, j.peer, now)))
  {
    hide Inv, Service, WheelChannel, RtkChannel, ImuChannel, PairsOnCadence, SimCounts, PoseLead, OrderFault, Extends,
      Owed;
    SoundReady(p, j);
    var peer := Service(p.c, j.peer, now);
    ServiceKeeps(p.c, j.peer, now);
    ServiceFrame(p.c, j.peer, now);
    UnfaultedPairs(j.peer, peer);
    assert peer.log.accepted == j.peer.log.accepted;
    KeptSound(p, j, peer);
  }

  lemma FaultSound(p: Plant, j: Joint, reason: string)
    requires Sound(p, j)
    ensures Sound(p, After(j, Latch(j.peer, External(reason))))
  {
    hide Inv, WheelChannel, RtkChannel, ImuChannel, SimCounts, PoseLead, Extends, Owed;
    var peer := Latch(j.peer, External(reason));
    LatchKeeps(p.c, j.peer, External(reason));
    KeptSound(p, j, peer);
  }

  // ----- commands -----

  /** The k-th command answers tick k + 1. */
  lemma CommandTimes(p: Plant, j: Joint, k: nat)
    requires Sound(p, j) && k < |j.peer.log.attempts|
    ensures j.peer.log.attempts[k].command.timestamp == (k + 1) * WHEEL_PERIOD
    ensures j.peer.log.attempts[k].command.sequence == k
  {
    AnswerTimes(p, p.c, j.peer, k, j.wheels, j.sim.wheels);
  }

  lemma AnswerTimes(p: Plant, c: Config, s: Peer, k: nat, wheels: seq<WheelState>, sent: nat)
    requires p.Valid() && Inv(c, s) && k < |s.log.attempts| && WheelChannel(p, s.log.accepted, wheels, sent)
    ensures s.log.attempts[k].command.timestamp == (k + 1) * WHEEL_PERIOD
    ensures s.log.attempts[k].command.sequence == k
  {
    var acc := s.log.accepted;
    assert acc[k] == p.wheel(k);
    assert s.log.attempts[k].command == CommandFor(c, acc[k], s.log.attempts[k].command.speeds, k);
  }

  lemma CommandOwed(p: Plant, j: Joint)
    requires Owed(j.peer.log.attempts, j.commands, j.sim) && j.commands != []
    requires j.sim.received < |j.peer.log.attempts| ==>
               j.peer.log.attempts[j.sim.received].command.timestamp == (j.sim.received + 1) * WHEEL_PERIOD
    ensures var r := TakeCommand(p, j);
            && Owed(r.peer.log.attempts, r.commands, r.sim)
            && r.sim == j.sim.(received := r.sim.received, latest := r.sim.latest, refused := r.sim.refused)
            && r == j.(commands := r.commands, sim := r.sim)
  {
  }

  lemma SimCountsFrame(p: Plant, s: Sim, r: Sim)
    requires r == s.(received := r.received, latest := r.latest, refused := r.refused) && SimCounts(p, s) && PoseLead(s)
    ensures SimCounts(p, r) && PoseLead(r)
  {
  }

  lemma CommandSound(p: Plant, j: Joint)
    requires Sound(p, j) && j.commands != []
    ensures Sound(p, TakeCommand(p, j))
  {
    hide Inv, PairsOnCadence, OrderFault, WheelChannel, RtkChannel, ImuChannel, SimCounts, PoseLead, Owed;
    if j.sim.received < |j.peer.log.attempts| {
      CommandTimes(p, j, j.sim.received);
    }
    CommandOwed(p, j);
    SimCountsFrame(p, j.sim, TakeCommand(p, j).sim);
  }

  lemma StopSound(p: Plant, j: Joint)
    requires Sound(p, j)
    ensures Sound(p, j.(sim := j.sim.(pc := Stopped)))
  {
    hide Inv, PairsOnCadence, OrderFault, WheelChannel, RtkChannel, ImuChannel;
  }

  /** Every move of either process keeps the joint invariant. */
  lemma MoveSound(p: Plant, j: Joint, move: Move)
    requires Sound(p, j) && Enabled(j, move)
    ensures Sound(p, Do(p, j, move))
  {
    hide Inv, Sound, SimStep, OnWheel, OnRtk, OnImu, Service, After, TakeCommand;
    SoundReady(p, j);
    match move
    case SimMoves => SimMovesSound(p, j);
    case SimStops => StopSound(p, j);
    case DeliverWheel(at) => WheelSound(p, j, at);
    case DeliverRtk => RtkSound(p, j);
    case DeliverImu => ImuSound(p, j);
    case DeliverCommand => CommandSound(p, j);
    case PeerTick(now) => TickSound(p, j, now);
    case PeerFault(reason) => FaultSound(p, j, reason);
  }
}
