/**
 How a lockstep execution ends: the simulator's planned window is the command peer's own end of
 collection, so a fault-free execution finishes at its last tick, not before, with every count met.
 */
module LockstepCompletion {
  import opened Basics
  import opened GolfPlan
  import opened PeerModel
  import opened PeerInvariants
  import opened PeerDeliveries
  import opened PeerTheorems
  import opened Lockstep
  import opened LockstepTheorems

  /** The simulator runs its default window; `GolfPlan.PlanAgreement` shows that it is this one. */
  ghost predicate Planned(p: Plant) {
    p.Valid() && p.duration == FinishTime(p.c.route, p.c.vmax)
  }

  /** When the simulator's loop is done, every topic carried its planned number of messages. */
  lemma CountsAtTheEnd(p: Plant, e: Execution, i: nat)
    requires IsExecution(p, e) && i < |e.states| && e.states[i].sim.pc.Done?
    ensures var j := e.states[i];
            && TopicCounts(j.sim.received, j.sim.wheels, j.sim.lidar, j.sim.rtk, j.sim.imu) ==
                 ExpectedCounts(p.duration)
            && |j.peer.log.attempts| == j.peer.published == p.Ticks()
            && j.peer.parked.None? && j.wheels == [] && j.commands == []
            && j.peer.log.accepted == seq(p.Ticks(), k requires 0 <= k => p.wheel(k))
  {
    ExecutionSound(p, e, i);
    var j := e.states[i];
    hide IsExecution, Sound;
    DoneSimCounts(p, j);
    DoneAttempts(p, j);
    AllSent(p, j);
  }

  lemma DoneSimCounts(p: Plant, j: Joint)
    requires Sound(p, j) && j.sim.pc.Done?
    ensures TopicCounts(j.sim.received, j.sim.wheels, j.sim.lidar, j.sim.rtk, j.sim.imu) == ExpectedCounts(p.duration)
    ensures |j.peer.log.attempts| == j.sim.received == j.sim.wheels == p.Ticks() && j.commands == []
  {
    SoundCounts(p, j);
    hide Sound;
    DoneMeansServed(p, j.sim, j.peer.log.attempts, j.commands);
  }

  lemma SoundCounts(p: Plant, j: Joint)
    requires Sound(p, j)
    ensures p.Valid() && SimCounts(p, j.sim) && Owed(j.peer.log.attempts, j.commands, j.sim)
  {
    hide SimCounts, Owed, Inv;
  }

  lemma DoneMeansServed(p: Plant, s: Sim, att: seq<Attempt>, commands: seq<WheelCommand>)
    requires p.Valid() && SimCounts(p, s) && Owed(att, commands, s) && s.pc.Done?
    ensures TopicCounts(s.received, s.wheels, s.lidar, s.rtk, s.imu) == ExpectedCounts(p.duration)
    ensures |att| == s.received == s.wheels == p.Ticks() && commands == []
  {
    WholeFrames(p);
  }

  lemma DoneAttempts(p: Plant, j: Joint)
    requires Sound(p, j) && |j.peer.log.attempts| == j.sim.wheels == p.Ticks()
    ensures j.peer.parked.None? && j.wheels == []
    ensures j.peer.log.accepted == seq(p.Ticks(), k requires 0 <= k => p.wheel(k))
  {
    hide Sound, Inv;
    SoundInv(p, j);
    AttemptsAccepted(p.c, j.peer);
    SentAndSeen(p, j);
    AcceptedAreSent(p, j);
  }

  lemma AcceptedAreSent(p: Plant, j: Joint)
    requires Sound(p, j)
    ensures forall i :: 0 <= i < |j.peer.log.accepted| ==> j.peer.log.accepted[i] == p.wheel(i)
  {
    hide Inv;
  }

  lemma AllSent(p: Plant, j: Joint)
    requires Sound(p, j) && j.sim.received == |j.peer.log.attempts|
    ensures j.peer.published == |j.peer.log.attempts|
  {
    LostMeansUnsent(j.peer.log.attempts);
  }

  /** What a fault-free peer has seen, in terms of ticks and frames. */
  lemma SeenSoFar(p: Plant, j: Joint)
    requires Sound(p, j) && j.peer.fault.None?
    ensures j.peer.lastWheel == if j.peer.log.accepted == [] then None else Some(|j.peer.log.accepted| * WHEEL_PERIOD)
    ensures |j.peer.log.accepted| == j.sim.wheels - |j.wheels| <= p.Ticks()
    ensures |j.peer.log.pairs| == Min(j.sim.rtk - |j.rtks|, j.sim.imu - |j.imus|)
    ensures j.peer.store.latest == if j.peer.log.pairs == [] then None else Some(Frame(|j.peer.log.pairs| - 1))
    ensures Ready(p.c, j.peer)
  {
    hide Sound, Inv, PairsOnCadence, PoseLead;
    SoundInv(p, j);
    SentAndSeen(p, j);
    PairsSoFar(p.c, j.peer);
    LastSeen(p, j);
  }

  lemma LastSeen(p: Plant, j: Joint)
    requires Sound(p, j)
    ensures j.peer.lastWheel == if j.peer.log.accepted == [] then None else Some(|j.peer.log.accepted| * WHEEL_PERIOD)
  {
    hide Sound, Inv;
    SoundInv(p, j);
    AcceptedTimes(p.c, j.peer);
    AcceptedAreSent(p, j);
    assert p.Valid() by {
      SoundCounts(p, j);
    }
    var acc := j.peer.log.accepted;
    assert acc != [] ==> acc[|acc| - 1] == p.wheel(|acc| - 1);
  }

  lemma AcceptedTimes(c: Config, s: Peer)
    requires Inv(c, s)
    ensures s.lastWheel == LastTime(s.log.accepted)
  {
  }

  /** Before the last wheel state and the last pose are handled the peer is not finished. */
  lemma NotFinishedEarly(p: Plant, e: Execution, i: nat)
    requires Planned(p) && IsExecution(p, e) && i < |e.states|
    requires e.states[i].peer.fault.None? && e.states[i].peer.completion.finished
    ensures var s := e.states[i].peer;
            |s.log.accepted| == p.Ticks() && |s.log.pairs| > p.Ticks() / 10
  {
    ExecutionSound(p, e, i);
    var j := e.states[i];
    hide IsExecution;
    SeenSoFar(p, j);
    FinishedIsDue(p.c, j.peer);
    WholeFrames(p);
    hide Sound;
  }

  lemma FinishedIsDue(c: Config, s: Peer)
    requires Inv(c, s) && s.fault.None?
    ensures c.Valid() && (s.completion.finished <==> FinishDue(c, s))
  {
  }

  /** The wheel state at the end of the ramp window is answered with rest. */
  lemma RestAtRampEnd(p: Plant, j: Joint)
    requires Planned(p) && Sound(p, j) && j.peer.fault.None? && |j.peer.log.attempts| == p.Ticks()
    ensures var s, end := j.peer, p.duration - ZERO_TAIL;
            && (s.completion.zeroSince.Some? ==> s.completion.zeroSince.value >= WHEEL_PERIOD)
            && (end > 0 ==> s.completion.zeroSince.Some? && s.completion.zeroSince.value <= end)
  {
    hide Sound, Inv, FirstZero, FinishTime, StopTime, RampPeriods, Plant.Ticks;
    var s, end := j.peer, p.duration - ZERO_TAIL;
    SoundInv(p, j);
    AttemptTimeAll(p, j);
    ZeroSinceIsFirst(p.c, s);
    WholeFrames(p);
    RampEnd(p);
    if s.completion.zeroSince.Some? {
      FirstZeroTime(p.c, s.log.attempts, s.completion.zeroSince.value);
    }
    if end > 0 {
      var k := end / WHEEL_PERIOD - 1;
      RestAt(p.c, s, k, end);
      RestBounds(p.c, s.log.attempts, s.completion.zeroSince, k);
    }
  }

  lemma RampEnd(p: Plant)
    requires Planned(p)
    ensures p.duration - ZERO_TAIL == StopTime(p.c.route) + RampPeriods(p.c.vmax) * POSE_PERIOD
  {
  }

  lemma FirstZeroTime(c: Config, att: seq<Attempt>, z: nat)
    requires c.Valid() && FirstZero(c, att, z)
    requires forall k :: 0 <= k < |att| ==> att[k].command.timestamp == (k + 1) * WHEEL_PERIOD
    ensures z >= WHEEL_PERIOD
  {
  }

  lemma RestAt(c: Config, s: Peer, k: nat, end: nat)
    requires Inv(c, s) && c.Valid() && k < |s.log.attempts| && s.log.attempts[k].command.timestamp == end
    requires end >= StopTime(c.route) + RampPeriods(c.vmax) * POSE_PERIOD
    ensures s.log.attempts[k].command.speeds == ZERO
  {
    hide Inv;
    RampBound(c, s, k);
    RampWindowLength(c, end);
  }

  lemma AttemptTimeAll(p: Plant, j: Joint)
    requires Sound(p, j)
    ensures forall k :: 0 <= k < |j.peer.log.attempts| ==>
              j.peer.log.attempts[k].command.timestamp == (k + 1) * WHEEL_PERIOD
  {
    forall k | 0 <= k < |j.peer.log.attempts|
      ensures j.peer.log.attempts[k].command.timestamp == (k + 1) * WHEEL_PERIOD
    {
      CommandTimes(p, j, k);
    }
  }

  lemma RestBounds(c: Config, att: seq<Attempt>, since: Option<nat>, k: nat)
    requires c.Valid() && k < |att| && att[k].command.speeds == ZERO && att[k].command.timestamp >= StopTime(c.route)
    requires since.Some? ==> FirstZero(c, att, since.value)
    requires since.None? ==> forall z :: !FirstZero(c, att, z)
    requires forall i, j :: 0 <= i <= j < |att| ==> att[i].command.timestamp <= att[j].command.timestamp
    ensures since.Some? && since.value <= att[k].command.timestamp
    decreases k
  {
    var t := att[k].command.timestamp;
    if since.None? {
      if i :| 0 <= i < k && att[i].command.speeds == ZERO && att[i].command.timestamp >= StopTime(c.route) {
        RestBounds(c, att, since, i);
      } else {
        assert FirstZero(c, att, t);
      }
    }
  }

  /**
   Once the last wheel state and the last pose are handled, a fault-free peer is finished exactly
   when the planned window is longer than its zero tail. A route too short for one period and a speed
   limit too small for one, which the robot's is not, would fall one wheel period short.
   */
  lemma FinishedAtTheEnd(p: Plant, e: Execution, i: nat)
    requires Planned(p) && IsExecution(p, e) && i < |e.states|
    requires var j := e.states[i]; j.sim.pc.Done? && j.peer.fault.None? && j.rtks == [] && j.imus == []
    ensures e.states[i].peer.completion.finished <==> StopPeriods(p.c.route) + RampPeriods(p.c.vmax) > 0
  {
    ExecutionSound(p, e, i);
    CountsAtTheEnd(p, e, i);
    var j := e.states[i];
    hide IsExecution;
    SeenSoFar(p, j);
    FinishedIsDue(p.c, j.peer);
    RestAtRampEnd(p, j);
    WholeFrames(p);
    hide Sound;
  }

  /** The drive wheel limit of the robot that the peer is built for. */
  const ROBOT_LIMIT := 20.0

  /** At the robot's own speed limit the peer always finishes, on every route. */
  lemma RobotAlwaysFinishes(p: Plant, e: Execution, i: nat)
    requires Planned(p) && IsExecution(p, e) && i < |e.states| && p.c.vmax == ROBOT_LIMIT
    requires var j := e.states[i]; j.sim.pc.Done? && j.peer.fault.None? && j.rtks == [] && j.imus == []
    ensures e.states[i].peer.completion.finished
  {
    hide IsExecution, RampPeriods;
    FinishedAtTheEnd(p, e, i);
    RampWindowSuffices(ROBOT_LIMIT);
  }

  // ----- every execution can be completed -----

  /** The transport carries every command and the receiver accepts it. */
  ghost predicate Lossless(p: Plant) {
    (forall k: nat :: p.c.delivery(k).Sent?) && (forall k: nat :: p.takes(k))
  }

  /** A bound on the steps the simulator still has to make: two for every message left, one for a wait. */
  function Ahead(p: Plant, s: Sim): nat {
    var left := p.Ticks() + 3 * (p.Ticks() / 10 + 1) - s.wheels - s.rtk - s.imu - s.lidar;
    Max(2 * left + if s.pc.Await? then 1 else 0, 0)
  }

  lemma SimStepsAhead(p: Plant, j: Joint)
    requires p.Valid() && SimCounts(p, j.sim) && Enabled(j, SimMoves)
    ensures var s := SimStep(p, j).sim;
            Ahead(p, s) < Ahead(p, j.sim) && !s.pc.Stopped? && s.refused == j.sim.refused
  {
    WholeFrames(p);
    hide Plant.Valid;
    assert p.Ticks() == 10 * (p.Ticks() / 10);
  }

  lemma SimStepSound(p: Plant, j: Joint)
    requires Sound(p, j) && Enabled(j, SimMoves)
    ensures var r := Do(p, j, SimMoves);
            Sound(p, r) && Ahead(p, r.sim) < Ahead(p, j.sim) && !r.sim.pc.Stopped? && r.sim.refused == j.sim.refused
  {
    hide Sound, SimStep, SimCounts, Ahead, Enabled, Owed, Plant.Valid;
    SoundReady(p, j);
    SoundCounts(p, j);
    SimMovesSound(p, j);
    SimStepsAhead(p, j);
  }

  /** While the simulator waits, its program counter alone tells what lies ahead. */
  lemma SameWait(p: Plant, j: Joint, m: Joint)
    requires Sound(p, j) && Sound(p, m) && j.sim.pc.Await? && m.sim.pc == j.sim.pc
    ensures Ahead(p, m.sim) == Ahead(p, j.sim)
  {
    hide Sound, Owed, Plant.Valid;
    SoundCounts(p, j);
    SoundCounts(p, m);
  }

  /** No move makes an accepting receiver refuse. */
  lemma NotRefused(p: Plant, j: Joint, move: Move)
    requires Lossless(p) && Enabled(j, move) && !j.sim.refused
    ensures !Do(p, j, move).sim.refused
  {
    hide OnWheel, OnRtk, OnImu, Service, Outgoing;
  }

  lemma {:induction false} LeadsNotRefused(p: Plant, j: Joint, moves: seq<Move>, r: Joint)
    requires Lossless(p) && Leads(p, j, moves, r) && !j.sim.refused
    ensures !r.sim.refused
    decreases |moves|
  {
    hide Do, Lossless;
    if moves != [] {
      NotRefused(p, j, moves[0]);
      LeadsNotRefused(p, Do(p, j, moves[0]), moves[1..], r);
    }
  }

  lemma {:induction false} LeadsOn(p: Plant, j: Joint, moves: seq<Move>, m: Joint, more: seq<Move>, r: Joint)
    requires Leads(p, j, moves, m) && Leads(p, m, more, r)
    ensures Leads(p, j, moves + more, r)
    decreases |moves|
  {
    hide Do;
    if moves == [] {
      assert [] + more == more;
    } else {
      LeadsOn(p, Do(p, j, moves[0]), moves[1..], m, more, r);
      assert (moves + more)[1..] == moves[1..] + more;
    }
  }

  lemma LosslessIsServed(p: Plant, j: Joint)
    requires Sound(p, j) && Lossless(p) && !j.sim.refused && Served(j) && j.sim.pc.Await?
    ensures Enabled(j, SimMoves)
  {
    SoundInv(p, j);
    hide Sound;
    SentByTransport(p.c, j.peer);
  }

  lemma SentByTransport(c: Config, s: Peer)
    requires Inv(c, s)
    ensures forall k :: 0 <= k < |s.log.attempts| ==> s.log.attempts[k].delivery == c.delivery(k)
  {
  }

  /** Whatever is still in the channels can be delivered. */
  lemma {:induction false} DrainsAway(p: Plant, j: Joint) returns (moves: seq<Move>, r: Joint)
    requires Sound(p, j)
    ensures Leads(p, j, moves, r) && Sound(p, r) && Drained(r) && r.sim.pc == j.sim.pc
    decreases Work(j)
  {
    hide Sound, Do, Work;
    if Drained(j) {
      return [], j;
    }
    var move := if j.wheels != [] then DeliverWheel(0.0)
                else if j.rtks != [] then DeliverRtk
                else if j.imus != [] then DeliverImu
                else DeliverCommand;
    DeliveryReducesWork(p, j, move);
    MoveSound(p, j, move);
    var rest;
    rest, r := DrainsAway(p, Do(p, j, move));
    moves := [move] + rest;
    assert moves[1..] == rest;
  }

  /** From every sound state that was not stopped the simulator can be brought to its end. */
  lemma {:induction false} CanComplete(p: Plant, j: Joint) returns (moves: seq<Move>, r: Joint)
    requires Sound(p, j) && Lossless(p) && !j.sim.refused && !j.sim.pc.Stopped?
    ensures Leads(p, j, moves, r) && Sound(p, r) && r.sim.pc.Done? && Drained(r)
    decreases Ahead(p, j.sim)
  {
    hide Sound, Do, Lossless, Served, Ahead, Drained;
    if j.sim.pc.Done? {
      moves, r := DrainsAway(p, j);
      return;
    }
    var ready: seq<Move>, m := [], j;
    if j.sim.pc.Await? {
      ready, m := AwaitedCommandArrives(p, j);
      LeadsNotRefused(p, j, ready, m);
      LosslessIsServed(p, m);
      SameWait(p, j, m);
    }
    SimStepSound(p, m);
    var rest;
    rest, r := CanComplete(p, Do(p, m, SimMoves));
    assert Leads(p, m, [SimMoves] + rest, r) by {
      assert ([SimMoves] + rest)[1..] == rest;
    }
    LeadsOn(p, j, ready, m, [SimMoves] + rest, r);
    moves := ready + ([SimMoves] + rest);
  }

  lemma {:induction false} ExecutionNotRefused(p: Plant, e: Execution, i: nat)
    requires IsExecution(p, e) && i < |e.states| && Lossless(p)
    ensures !e.states[i].sim.refused
  {
    hide Do, Lossless;
    if i > 0 {
      ExecutionNotRefused(p, e, i - 1);
      var move := e.moves[i - 1];
      assert Moved(p, e.states[i - 1], move, e.states[i]);
      NotRefused(p, e.states[i - 1], move);
    }
  }

  /** Moves that lead on from an execution's last state extend it. */
  lemma {:induction false} Extended(p: Plant, e: Execution, moves: seq<Move>, r: Joint) returns (longer: Execution)
    requires IsExecution(p, e) && Leads(p, e.states[|e.states| - 1], moves, r)
    ensures IsExecution(p, longer) && e.states <= longer.states && longer.states[|longer.states| - 1] == r
    decreases |moves|
  {
    hide Do;
    if moves == [] {
      return e;
    }
    var next := Do(p, e.states[|e.states| - 1], moves[0]);
    var step := Execution(e.moves + [moves[0]], e.states + [next]);
    assert IsExecution(p, step) by {
      forall i | 0 <= i < |step.moves| ensures Moved(p, step.states[i], step.moves[i], step.states[i + 1]) {
        if i < |e.moves| {
          var move := e.moves[i];
          assert Moved(p, e.states[i], move, e.states[i + 1]);
        }
      }
    }
    longer := Extended(p, step, moves[1..], r);
  }

  /**
   With a lossless transport and an accepting receiver every execution in which the simulator was not
   stopped can be continued to its end with drained channels, where every count is met; if no fault was
   latched, the peer of the planned window is then finished as `FinishedAtTheEnd` says.
   */
  lemma EveryExecutionCanComplete(p: Plant, e: Execution) returns (done: Execution)
    requires IsExecution(p, e) && Lossless(p) && !e.states[|e.states| - 1].sim.pc.Stopped?
    ensures IsExecution(p, done) && e.states <= done.states
    ensures var j := done.states[|done.states| - 1];
            && j.sim.pc.Done? && Drained(j)
            && TopicCounts(j.sim.received, j.sim.wheels, j.sim.lidar, j.sim.rtk, j.sim.imu) ==
                 ExpectedCounts(p.duration)
            && (Planned(p) && j.peer.fault.None? ==>
                  (j.peer.completion.finished <==> StopPeriods(p.c.route) + RampPeriods(p.c.vmax) > 0))
  {
    hide Sound, Leads, Planned, Lossless;
    var last := |e.states| - 1;
    ExecutionSound(p, e, last);
    ExecutionNotRefused(p, e, last);
    var moves, r := CanComplete(p, e.states[last]);
    done := Extended(p, e, moves, r);
    hide IsExecution;
    var end := |done.states| - 1;
    CountsAtTheEnd(p, done, end);
    if Planned(p) && r.peer.fault.None? {
      FinishedAtTheEnd(p, done, end);
    }
  }
}
