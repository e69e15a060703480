/**
 What the lockstep protocol guarantees over every execution: no message ever arrives out of order,
 the simulator is never left waiting while deliveries continue, and a fault-free execution ends
 with the peer finished and every planned count met.
 */
module LockstepTheorems {
  import opened Basics
  import opened GolfPlan
  import opened PeerModel
  import opened PeerInvariants
  import opened PeerDeliveries
  import opened PeerTheorems
  import opened Lockstep

  // ----- executions -----

  datatype Execution = Execution(moves: seq<Move>, states: seq<Joint>)

  ghost predicate Moved(p: Plant, j: Joint, move: Move, r: Joint) {
    Enabled(j, move) && r == Do(p, j, move)
  }

  ghost predicate IsExecution(p: Plant, e: Execution) {
    && p.Valid()
    && |e.states| == |e.moves| + 1
    && e.states[0] == Start()
    && (forall i {:trigger e.moves[i]} :: 0 <= i < |e.moves| ==> Moved(p, e.states[i], e.moves[i], e.states[i + 1]))
  }

  lemma MovedSound(p: Plant, j: Joint, move: Move, r: Joint)
    requires Sound(p, j) && Moved(p, j, move, r)
    ensures Sound(p, r)
  {
    hide Sound, Do;
    MoveSound(p, j, move);
  }

  lemma {:induction false} ExecutionSound(p: Plant, e: Execution, i: nat)
    requires IsExecution(p, e) && i < |e.states|
    ensures Sound(p, e.states[i])
  {
    hide Sound, Moved;
    if i == 0 {
      StartSound(p);
    } else {
      ExecutionSound(p, e, i - 1);
      var move := e.moves[i - 1];
      MovedSound(p, e.states[i - 1], move, e.states[i]);
    }
  }

  // ----- safety -----

  /**
   In every execution the peer never sees a second wheel state while one is parked, never a gap in
   any stream, and the simulator never sees a command beyond the one it waits for. What it has
   received are the answers to the first ticks, in order.
   */
  lemma LockstepSafety(p: Plant, e: Execution, i: nat)
    requires IsExecution(p, e) && i < |e.states|
    ensures var j := e.states[i];
            var att := j.peer.log.attempts;
            && !OrderFault(j.peer.fault)
            && (j.sim.pc.Await? && j.sim.latest.Some? ==> j.sim.latest.value <= j.sim.pc.k * WHEEL_PERIOD)
            && j.sim.received <= |att|
            && (forall k :: 0 <= k < j.sim.received ==>
                  att[k].delivery.Sent? && att[k].command.sequence == k &&
                    att[k].command.timestamp == (k + 1) * WHEEL_PERIOD)
  {
    ExecutionSound(p, e, i);
    var j := e.states[i];
    StateSafety(p, j);
  }

  lemma StateSafety(p: Plant, j: Joint)
    requires Sound(p, j)
    ensures var att := j.peer.log.attempts;
            && !OrderFault(j.peer.fault)
            && (j.sim.pc.Await? && j.sim.latest.Some? ==> j.sim.latest.value <= j.sim.pc.k * WHEEL_PERIOD)
            && j.sim.received <= |att|
            && (forall k :: 0 <= k < j.sim.received ==>
                  att[k].delivery.Sent? && att[k].command.sequence == k &&
                    att[k].command.timestamp == (k + 1) * WHEEL_PERIOD)
  {
    hide Inv;
    forall k | 0 <= k < |j.peer.log.attempts|
      ensures j.peer.log.attempts[k].command.sequence == k &&
                j.peer.log.attempts[k].command.timestamp == (k + 1) * WHEEL_PERIOD
    {
      CommandTimes(p, j, k);
    }
  }

  // ----- the awaited pose has been sent -----

  lemma PairsReach(p: PoseStore, pairs: seq<nat>, rtkRejected: nat, imuRejected: nat)
    requires FirstFrames(p, pairs) && PosePairs(p, pairs, rtkRejected, imuRejected) && rtkRejected == imuRejected == 0
    ensures |pairs| == Min(p.rtk.expected, p.imu.expected)
  {
    var n := |pairs|;
    assert Frame(n) in p.pendingRtk.Keys <==> n < p.rtk.expected;
    assert Frame(n) in p.pendingImu.Keys <==> n < p.imu.expected;
  }

  /** How far the pose side of a fault-free peer has come. */
  lemma PairsSoFar(c: Config, s: Peer)
    requires Inv(c, s) && PairsOnCadence(s) && s.fault.None?
    ensures |s.log.pairs| == Min(s.store.rtk.expected, s.store.imu.expected)
    ensures s.store.latest == if s.log.pairs == [] then None else Some(Frame(|s.log.pairs| - 1))
    ensures s.store.latest.Some? ==> s.store.latest.value in s.store.poses
  {
    PairsReach(s.store, s.log.pairs, s.log.rtkRejected, s.log.imuRejected);
  }

  lemma ParkedNeedsPose(c: Config, s: Peer)
    requires Inv(c, s) && s.parked.Some?
    ensures |s.log.accepted| == |s.log.attempts| + 1 && s.parked.value.state == s.log.accepted[|s.log.attempts|]
    ensures s.fault.None? ==> NeedsPose(c, s, s.parked.value.state.head.timestamp)
  {
  }

  lemma SoundInv(p: Plant, j: Joint)
    requires Sound(p, j)
    ensures Inv(p.c, j.peer) && Ready(p.c, j.peer)
  {
  }

  lemma SentAndSeen(p: Plant, j: Joint)
    requires Sound(p, j)
    ensures PairsOnCadence(j.peer)
    ensures j.peer.store.rtk.expected == j.sim.rtk - |j.rtks| && j.peer.store.imu.expected == j.sim.imu - |j.imus|
    ensures |j.peer.log.accepted| == j.sim.wheels - |j.wheels| <= p.Ticks()
    ensures PoseLead(j.sim)
  {
    hide Inv, PairsOnCadence, PoseLead;
  }

  /** Once both pose channels are drained the newest retained pose is fresh enough for any sent wheel state. */
  lemma DrainedPoseIsFresh(p: Plant, j: Joint)
    requires Sound(p, j) && j.peer.fault.None? && j.rtks == [] && j.imus == [] && j.sim.wheels > 0
    ensures Ready(p.c, j.peer) && !NeedsPose(p.c, j.peer, j.sim.wheels * WHEEL_PERIOD)
  {
    hide Sound, Inv, NeedsPose, PairsOnCadence, Frame;
    SoundInv(p, j);
    SentAndSeen(p, j);
    PairsSoFar(p.c, j.peer);
    FreshAfterPairs(p.c, j.peer, |j.peer.log.pairs|, j.sim.wheels);
  }

  /** A parked wheel state is the newest one sent. */
  lemma ParkedIsNewest(p: Plant, j: Joint)
    requires Sound(p, j) && j.peer.parked.Some?
    ensures j.sim.wheels > 0 && j.peer.parked.value.state.head.timestamp == j.sim.wheels * WHEEL_PERIOD
  {
    ParkedNeedsPose(p.c, j.peer);
    hide Inv, NeedsPose;
    var n := |j.peer.log.accepted|;
    assert j.peer.log.accepted[n - 1] == p.wheel(n - 1);
  }

  /**
   A parked wheel state of a fault-free peer waits for a frame that is fresh for it and already sent by
   both sensors, and of which at least one sample is still in its channel.
   */
  lemma ParkedPoseIsUnderway(p: Plant, j: Joint) returns (m: nat)
    requires Sound(p, j) && j.peer.parked.Some? && j.peer.fault.None?
    ensures FreshFor(Frame(m), j.peer.parked.value.state.head.timestamp)
    ensures m < j.sim.rtk && m < j.sim.imu
    ensures p.rtk(m) in j.rtks || p.imu(m) in j.imus
  {
    hide Sound, NeedsPose, Inv, PairsOnCadence;
    ParkedIsNewest(p, j);
    SoundInv(p, j);
    SentAndSeen(p, j);
    PairsSoFar(p.c, j.peer);
    SoundParkedNeedsPose(p, j);
    var n := |j.peer.log.pairs|;
    m := (j.sim.wheels - 1) / 10;
    if m < n {
      FreshAfterPairs(p.c, j.peer, n, j.sim.wheels);
    }
    StillInChannel(p, j, m);
  }

  /** A frame that was sent and not yet seen is in its channel. */
  lemma StillInChannel(p: Plant, j: Joint, m: nat)
    requires Sound(p, j)
    ensures j.peer.store.rtk.expected <= m < j.sim.rtk ==> p.rtk(m) in j.rtks
    ensures j.peer.store.imu.expected <= m < j.sim.imu ==> p.imu(m) in j.imus
  {
    hide Inv, PairsOnCadence, PoseLead, WheelChannel, Owed;
    var rtk, imu := j.peer.store.rtk.expected, j.peer.store.imu.expected;
    if rtk <= m < j.sim.rtk {
      assert j.rtks[m - rtk] == p.rtk(rtk + (m - rtk));
    }
    if imu <= m < j.sim.imu {
      assert j.imus[m - imu] == p.imu(imu + (m - imu));
    }
  }

  lemma SoundParkedNeedsPose(p: Plant, j: Joint)
    requires Sound(p, j) && j.peer.parked.Some? && j.peer.fault.None?
    ensures Ready(p.c, j.peer) && NeedsPose(p.c, j.peer, j.peer.parked.value.state.head.timestamp)
  {
    SoundReady(p, j);
    ParkedNeedsPose(p.c, j.peer);
  }

  lemma FreshAfterPairs(c: Config, s: Peer, n: nat, w: nat)
    requires Ready(c, s) && 0 < n && s.store.latest == Some(Frame(n - 1)) && Frame(n - 1) in s.store.poses
    requires w <= 10 * n && 10 * (n - 1) <= w
    ensures !NeedsPose(c, s, w * WHEEL_PERIOD)
  {
    assert Frame(n - 1) <= w * WHEEL_PERIOD <= Frame(n - 1) + POSE_PERIOD;
  }

  // ----- progress -----

  /** The awaited command was refused or lost by the transport, so the simulator will time out. */
  ghost predicate CommandLost(j: Joint) {
    j.sim.refused || exists k :: 0 <= k < |j.peer.log.attempts| && !j.peer.log.attempts[k].delivery.Sent?
  }

  ghost predicate Served(j: Joint) {
    j.sim.pc.Await? ==> j.sim.latest == Some(j.sim.pc.k * WHEEL_PERIOD) || CommandLost(j)
  }

  ghost predicate Drained(j: Joint) {
    j.wheels == [] && j.rtks == [] && j.imus == [] && j.commands == []
  }

  /** With nothing left to deliver, the simulator has its answer unless a faulted peer still parks the question. */
  lemma DrainedIsServed(p: Plant, j: Joint)
    requires Sound(p, j) && Drained(j)
    ensures Served(j) || (j.peer.parked.Some? && j.peer.fault.Some?)
  {
    SoundInv(p, j);
    hide Inv, PairsOnCadence, RtkChannel, ImuChannel, PoseLead, OrderFault;
    AttemptsAccepted(p.c, j.peer);
    if j.peer.parked.Some? && j.peer.fault.None? {
      var _ := ParkedPoseIsUnderway(p, j);
    }
  }

  /** Work left before everything sent has been delivered and answered. */
  function Work(j: Joint): nat {
    4 * |j.wheels| + 3 * |j.rtks| + 3 * |j.imus| + |j.commands| + if j.peer.parked.Some? then 2 else 0
  }

  predicate Delivery(move: Move) {
    move.DeliverWheel? || move.DeliverRtk? || move.DeliverImu? || move.DeliverCommand?
  }

  lemma {:induction false} OutgoingLength(att: seq<Attempt>)
    ensures |Outgoing(att)| <= |att|
  {
    if att != [] {
      OutgoingLength(att[..|att| - 1]);
    }
  }

  lemma CallbackWork(c: Config, j: Joint, peer: Peer, taken: seq<WheelState>)
    requires Inv(c, j.peer) && Keeps(c, j.peer, peer, taken)
    ensures |After(j, peer).commands| <= |j.commands| + |peer.log.attempts| - |j.peer.log.attempts|
    ensures |peer.log.attempts| + (if peer.parked.Some? then 1 else 0) ==
            |j.peer.log.attempts| + (if j.peer.parked.Some? then 1 else 0) + |taken|
  {
    AttemptsAccepted(c, j.peer);
    AttemptsAccepted(c, peer);
    OutgoingLength(peer.log.attempts[|j.peer.log.attempts|..]);
  }

  /** The part of a peer callback that the work measure and the fault latch look at. */
  lemma CallbackStep(p: Plant, j: Joint, m: Joint, peer: Peer, taken: seq<WheelState>)
    requires Inv(p.c, j.peer) && Keeps(p.c, j.peer, peer, taken)
    requires m == j.(wheels := m.wheels, rtks := m.rtks, imus := m.imus)
    requires 4 * |m.wheels| + 3 * |m.rtks| + 3 * |m.imus| + 3 * |taken| + 1 <= 4 * |j.wheels| + 3 * |j.rtks| +
               3 * |j.imus|
    ensures var r := After(m, peer);
            Work(r) < Work(j) && r.sim == j.sim && (j.peer.fault.Some? ==> r.peer.fault.Some?)
  {
    CallbackWork(p.c, m, peer, taken);
    hide Inv;
  }

  lemma SoundWheel(p: Plant, j: Joint, at: real)
    requires Sound(p, j) && j.wheels != []
    ensures Ready(p.c, j.peer) && Keeps(p.c, j.peer, OnWheel(p.c, j.peer, j.wheels[0], at), [j.wheels[0]])
  {
    WheelIsNext(p, j);
    hide Inv, OnWheel;
    WheelKeeps(p.c, j.peer, j.wheels[0], at);
  }

  lemma WheelWork(p: Plant, j: Joint, at: real)
    requires Sound(p, j) && j.wheels != []
    ensures Ready(p.c, j.peer)
    ensures var r := After(j.(wheels := j.wheels[1..]), OnWheel(p.c, j.peer, j.wheels[0], at));
            Work(r) < Work(j) && r.sim == j.sim && (j.peer.fault.Some? ==> r.peer.fault.Some?)
  {
    hide Sound, Inv, OnWheel, Keeps, After, Work;
    SoundInv(p, j);
    SoundWheel(p, j, at);
    CallbackStep(p, j, j.(wheels := j.wheels[1..]), OnWheel(p.c, j.peer, j.wheels[0], at), [j.wheels[0]]);
  }

  lemma RtkWork(p: Plant, j: Joint)
    requires Sound(p, j) && j.rtks != []
    ensures Ready(p.c, j.peer)
    ensures var r := After(j.(rtks := j.rtks[1..]), OnRtk(p.c, j.peer, j.rtks[0]));
            Work(r) < Work(j) && r.sim == j.sim && (j.peer.fault.Some? ==> r.peer.fault.Some?)
  {
    hide Sound, Inv, OnRtk, Keeps, After, Work;
    SoundInv(p, j);
    RtkKeeps(p.c, j.peer, j.rtks[0]);
    CallbackStep(p, j, j.(rtks := j.rtks[1..]), OnRtk(p.c, j.peer, j.rtks[0]), []);
  }

  lemma ImuWork(p: Plant, j: Joint)
    requires Sound(p, j) && j.imus != []
    ensures Ready(p.c, j.peer)
    ensures var r := After(j.(imus := j.imus[1..]), OnImu(p.c, j.peer, j.imus[0]));
            Work(r) < Work(j) && r.sim == j.sim && (j.peer.fault.Some? ==> r.peer.fault.Some?)
  {
    hide Sound, Inv, OnImu, Keeps, After, Work;
    SoundInv(p, j);
    ImuKeeps(p.c, j.peer, j.imus[0]);
    CallbackStep(p, j, j.(imus := j.imus[1..]), OnImu(p.c, j.peer, j.imus[0]), []);
  }

  lemma CommandWork(p: Plant, j: Joint)
    requires j.commands != []
    ensures var r := TakeCommand(p, j);
            Work(r) < Work(j) && r.sim.pc == j.sim.pc && r.peer == j.peer
  {
  }

  /** Every delivery reduces the work, whichever channel goes first, and no delivery clears a fault. */
  lemma DeliveryReducesWork(p: Plant, j: Joint, move: Move)
    requires Sound(p, j) && Enabled(j, move) && Delivery(move)
    ensures Work(Do(p, j, move)) < Work(j)
    ensures Do(p, j, move).sim.pc == j.sim.pc
    ensures j.peer.fault.Some? ==> Do(p, j, move).peer.fault.Some?
  {
    SoundReady(p, j);
    hide Sound, OnWheel, OnRtk, OnImu, After, Work, SimStep, Service, TakeCommand, Latch;
    match move
    case DeliverWheel(at) => WheelWork(p, j, at);
    case DeliverRtk => RtkWork(p, j);
    case DeliverImu => ImuWork(p, j);
    case DeliverCommand => CommandWork(p, j);
  }

  lemma ReleaseWork(p: Plant, j: Joint)
    requires Sound(p, j) && j.peer.parked.Some? && j.peer.fault.Some?
    ensures var r := Do(p, j, PeerTick(j.peer.parked.value.receivedAt));
            Work(r) < Work(j) && r.sim == j.sim && r.peer.fault.Some?
  {
    hide Sound, Inv, Service, Keeps, After, Work;
    SoundInv(p, j);
    var peer := Service(p.c, j.peer, j.peer.parked.value.receivedAt);
    ReleaseParked(p.c, j.peer);
    ServiceKeeps(p.c, j.peer, j.peer.parked.value.receivedAt);
    ReleaseStep(p.c, j, peer);
  }

  lemma ReleaseStep(c: Config, j: Joint, peer: Peer)
    requires Inv(c, j.peer) && Keeps(c, j.peer, peer, []) && j.peer.parked.Some? && peer.parked.None? &&
               j.peer.fault.Some?
    ensures Work(After(j, peer)) < Work(j) && After(j, peer).sim == j.sim && After(j, peer).peer.fault.Some?
  {
    CallbackWork(c, j, peer, []);
    hide Inv;
  }

  lemma ReleaseParked(c: Config, s: Peer)
    requires Inv(c, s) && s.parked.Some? && s.fault.Some?
    ensures Service(c, s, s.parked.value.receivedAt).parked.None?
  {
    hide Publish;
    PublishUnparked(c, s.(parked := None), s.parked.value.state);
  }

  /** The peer's main loop and its fault source never add work. */
  lemma TickWork(p: Plant, j: Joint, now: real)
    requires Sound(p, j)
    ensures var r := Do(p, j, PeerTick(now));
            Work(r) <= Work(j) && r.sim == j.sim && (j.peer.fault.Some? ==> r.peer.fault.Some?)
  {
    hide Sound, Inv, Service, Keeps;
    SoundInv(p, j);
    ServiceKeeps(p.c, j.peer, now);
    QuietStep(p.c, j, Service(p.c, j.peer, now));
  }

  lemma FaultWork(p: Plant, j: Joint, reason: string)
    requires Sound(p, j) && reason != ""
    ensures var r := Do(p, j, PeerFault(reason));
            Work(r) <= Work(j) && r.sim == j.sim && r.peer.fault.Some?
  {
    hide Sound, Inv, Keeps;
    SoundInv(p, j);
    LatchKeeps(p.c, j.peer, External(reason));
    QuietStep(p.c, j, Latch(j.peer, External(reason)));
  }

  lemma QuietStep(c: Config, j: Joint, peer: Peer)
    requires Inv(c, j.peer) && Keeps(c, j.peer, peer, [])
    ensures var r := After(j, peer);
            Work(r) <= Work(j) && r.sim == j.sim && (j.peer.fault.Some? ==> r.peer.fault.Some?)
  {
    CallbackWork(c, j, peer, []);
    hide Inv;
  }

  ghost predicate Leads(p: Plant, j: Joint, moves: seq<Move>, r: Joint)
    decreases |moves|
  {
    if moves == [] then r == j
    else Enabled(j, moves[0]) && Leads(p, Do(p, j, moves[0]), moves[1..], r)
  }

  /** Moves that only let the transport and the peer's main loop do their work, before any grace time passes. */
  ghost predicate Prompt(moves: seq<Move>) {
    forall i :: 0 <= i < |moves| ==> Delivery(moves[i]) || moves[i].PeerTick?
  }

  lemma LeadsStep(p: Plant, j: Joint, move: Move, moves: seq<Move>, r: Joint)
    requires Enabled(j, move) && Leads(p, Do(p, j, move), moves, r) && Prompt(moves) &&
               (Delivery(move) || move.PeerTick?)
    ensures Leads(p, j, [move] + moves, r) && Prompt([move] + moves)
  {
    assert ([move] + moves)[1..] == moves;
  }

  /**
   Deadlock freedom: from every reachable state in which the simulator waits, deliveries in any
   order, plus one service call if the peer is already faulted, reach the awaited command, unless
   the transport or the receiver itself rejects it.
   */
  lemma {:induction false} AwaitedCommandArrives(p: Plant, j: Joint) returns (moves: seq<Move>, r: Joint)
    requires Sound(p, j) && j.sim.pc.Await?
    ensures Leads(p, j, moves, r) && Prompt(moves) && Sound(p, r) && r.sim.pc == j.sim.pc && Served(r)
    ensures r.peer.fault.None? ==> j.peer.fault.None? && forall i :: 0 <= i < |moves| ==> Delivery(moves[i])
    decreases Work(j)
  {
    hide Sound, Do, Served;
    if Served(j) {
      return [], j;
    }
    var move: Move;
    if j.wheels != [] {
      move := DeliverWheel(0.0);
    } else if j.rtks != [] {
      move := DeliverRtk;
    } else if j.imus != [] {
      move := DeliverImu;
    } else if j.commands != [] {
      move := DeliverCommand;
    } else {
      DrainedIsServed(p, j);
      ReleaseWork(p, j);
      move := PeerTick(j.peer.parked.value.receivedAt);
    }
    if Delivery(move) {
      DeliveryReducesWork(p, j, move);
    }
    MoveSound(p, j, move);
    var rest: seq<Move>;
    rest, r := AwaitedCommandArrives(p, Do(p, j, move));
    LeadsStep(p, j, move, rest, r);
    moves := [move] + rest;
  }

  /** Every move but the simulator's own. */
  predicate Outside(move: Move) {
    Delivery(move) || move.PeerTick? || move.PeerFault?
  }

  function Deliveries(moves: seq<Move>): nat {
    if moves == [] then 0 else (if Delivery(moves[0]) then 1 else 0) + Deliveries(moves[1..])
  }

  lemma OutsideWork(p: Plant, j: Joint, move: Move)
    requires Sound(p, j) && Enabled(j, move) && Outside(move)
    ensures var r := Do(p, j, move);
            && Work(r) + (if Delivery(move) then 1 else 0) <= Work(j) && r.sim.pc == j.sim.pc
            && (j.peer.fault.Some? ==> r.peer.fault.Some?)
  {
    hide Sound, Do, Work;
    if Delivery(move) {
      DeliveryReducesWork(p, j, move);
    } else {
      match move
      case PeerTick(now) => TickWork(p, j, now);
      case PeerFault(reason) => FaultWork(p, j, reason);
    }
  }

  /**
   While the simulator waits, every schedule of deliveries, service calls and external faults, in any
   order and at any times, holds at most as many deliveries as there is work. Once it has exhausted the
   channels, the simulator has its command or its loss is recorded, or a faulted peer is one service
   call away from answering.
   */
  lemma {:induction false} SchedulesEnd(p: Plant, j: Joint, moves: seq<Move>, r: Joint)
    requires Sound(p, j) && Leads(p, j, moves, r) && forall i :: 0 <= i < |moves| ==> Outside(moves[i])
    ensures Sound(p, r) && r.sim.pc == j.sim.pc && Deliveries(moves) + Work(r) <= Work(j)
    ensures j.peer.fault.Some? ==> r.peer.fault.Some?
    ensures Drained(r) ==> Served(r) || (r.peer.parked.Some? && r.peer.fault.Some?)
    decreases |moves|
  {
    hide Sound, Do, Work, Served, Drained;
    if moves == [] {
      if Drained(r) {
        DrainedIsServed(p, r);
      }
    } else {
      var next := Do(p, j, moves[0]);
      MoveSound(p, j, moves[0]);
      OutsideWork(p, j, moves[0]);
      SchedulesEnd(p, next, moves[1..], r);
    }
  }
}
