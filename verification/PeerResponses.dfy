/**
 What one callback answers and which faults it can latch: a wheel state is parked, answered at once, or
 answered behind a parked one, and only the grace timer finds a stale pose and then answers with rest.
 */
module PeerResponses {
  import opened Basics
  import opened GolfPlan
  import opened PeerModel
  import opened PeerInvariants
  import opened PeerTheorems

  /** The answers of a stretch are rest for the given wheel states, in order, numbered on from `first`. */
  ghost predicate RestFor(c: Config, answers: seq<Attempt>, wheels: seq<WheelState>, first: nat, fault: Option<Fault>) {
    && |answers| == |wheels|
    && (forall i :: 0 <= i < |wheels| ==>
          answers[i].command == CommandFor(c, wheels[i], ZERO, first + i) && answers[i].fault == fault)
  }

  lemma FaultedPublish(c: Config, s: Peer, w: WheelState)
    requires Ready(c, s) && s.fault.Some? && s.nextSequence == |s.log.attempts|
    ensures var r, n := Publish(c, s, w), |s.log.attempts|;
            && r.escaped == s.escaped && r.fault == s.fault && r.parked == s.parked &&
                 r.nextSequence == |r.log.attempts|
            && s.log.attempts <= r.log.attempts && RestFor(c, r.log.attempts[n..], [w], n, s.fault)
  {
    var r, n := Publish(c, s, w), |s.log.attempts|;
    assert r.log.attempts[n..] == [r.log.attempts[n]];
  }

  lemma RestTwice(c: Config, before: seq<Attempt>, middle: seq<Attempt>, after: seq<Attempt>, v: WheelState,
      w: WheelState, fault: Option<Fault>)
    requires before <= middle <= after
    requires RestFor(c, middle[|before|..], [v], |before|, fault) && RestFor(c, after[|middle|..], [w], |middle|, fault)
    ensures before <= after && RestFor(c, after[|before|..], [v, w], |before|, fault)
  {
    assert after[|before|..] == middle[|before|..] + after[|middle|..];
  }

  lemma Numbering(c: Config, s: Peer)
    requires Inv(c, s)
    ensures Ready(c, s) && s.nextSequence == |s.log.attempts| && !s.escaped
    ensures s.parked.Some? && s.fault.None? ==> NeedsPose(c, s, s.parked.value.state.head.timestamp)
  {
  }

  /**
   The grace timer does nothing before its time, except for a faulted peer; after it the parked wheel
   state is answered with rest, and the stale pose is the fault unless there was one already.
   */
  lemma TimeoutExactly(c: Config, s: Peer, now: real)
    requires Inv(c, s) && s.parked.Some?
    ensures Ready(c, s)
    ensures var r, age, n := Service(c, s, now), now - s.parked.value.receivedAt, |s.log.attempts|;
            if age < 0.0 || (s.fault.None? && age < GRACE_SEC) then r == s
            else
              && r.parked.None? && r.fault == (if s.fault.Some? then s.fault else Some(PoseStale))
              && s.log.attempts <= r.log.attempts
              && RestFor(c, r.log.attempts[n..], [s.parked.value.state], n, r.fault)
  {
    Numbering(c, s);
    if s.fault.Some? {
      FaultedPublish(c, s.(parked := None), s.parked.value.state);
    } else {
      FaultedPublish(c, s.(fault := Some(PoseStale), parked := None), s.parked.value.state);
    }
  }

  /** The checks on an accepted wheel state touch nothing that an answer depends on, except the fault. */
  lemma ChecksOnly(c: Config, s: Peer, w: WheelState, next: Progress)
    requires Ready(c, s)
    ensures var r := AcceptWheel(c, s, w, next);
            && Ready(c, r) && r.fault == CheckWheel(c, s, w).fault && r.log.attempts == s.log.attempts
            && r.parked == s.parked && r.nextSequence == s.nextSequence && r.store == s.store && r.escaped == s.escaped
            && (s.fault.Some? ==> r.fault == s.fault)
  {
    CheckWheelShape(c, s, w);
    CheckWheelShape(c, s.(wheel := next, lastWheel := Some(w.head.timestamp),
      log := s.log.(accepted := s.log.accepted + [w])), w);
  }

  /**
   An accepted wheel state that overtakes a parked one latches a fault, and both are answered with
   rest, the parked one first.
   */
  lemma OvertakingRests(c: Config, s: Peer, w: WheelState, at: real)
    requires Inv(c, s) && s.parked.Some? && Accept(s.wheel, WHEEL_PERIOD, w.head).Accepted?
    ensures Ready(c, s)
    ensures var r, n := OnWheel(c, s, w, at), |s.log.attempts|;
            var checked := CheckWheel(c, s, w).fault;
            && r.parked.None? && r.fault == (if checked.Some? then checked else Some(AdvancedWhilePending))
            && s.log.attempts <= r.log.attempts
            && RestFor(c, r.log.attempts[n..], [s.parked.value.state, w], n, r.fault)
  {
    hide Publish, RestFor, AcceptWheel, CheckWheel, Inv;
    Numbering(c, s);
    ChecksOnly(c, s, w, Accept(s.wheel, WHEEL_PERIOD, w.head).next);
    var s1 := AcceptWheel(c, s, w, Accept(s.wheel, WHEEL_PERIOD, w.head).next);
    var s2 := Latch(s1, AdvancedWhilePending).(parked := None);
    FaultedPublish(c, s2, s.parked.value.state);
    var s3 := Publish(c, s2, s.parked.value.state);
    FaultedPublish(c, s3, w);
    RestTwice(c, s.log.attempts, s3.log.attempts, Publish(c, s3, w).log.attempts, s.parked.value.state, w, s2.fault);
  }

  lemma SoundAnswer(c: Config, s: Peer, w: WheelState, at: real)
    requires Inv(c, s)
    ensures Ready(c, s) && !OnWheel(c, s, w, at).escaped
  {
    hide OnWheel;
    WheelKeeps(c, s, w, at);
    Numbering(c, s);
    Numbering(c, OnWheel(c, s, w, at));
  }

  lemma AnswersOnce(c: Config, s: Peer, w: WheelState)
    requires Ready(c, s) && s.nextSequence == |s.log.attempts|
    ensures var r, n := Publish(c, s, w), |s.log.attempts|;
            && r.parked == s.parked
            && (!r.escaped ==>
                  && |r.log.attempts| == n + 1 && r.log.attempts[..n] == s.log.attempts
                  && r.log.attempts[n].command == CommandFor(c, w, r.log.attempts[n].command.speeds, n))
  {
    hide CommandSpeeds, UpdateCompletion;
  }

  /**
   With nothing parked, an accepted wheel state is parked exactly when it is sound and its pose is
   missing, and else answered at once.
   */
  lemma ParkedExactly(c: Config, s: Peer, w: WheelState, at: real)
    requires Inv(c, s) && s.parked.None? && Accept(s.wheel, WHEEL_PERIOD, w.head).Accepted?
    ensures Ready(c, s)
    ensures var r, n := OnWheel(c, s, w, at), |s.log.attempts|;
            var waits := CheckWheel(c, s, w).fault.None? && NeedsPose(c, s, w.head.timestamp);
            && r.parked == (if waits then Some(Parked(w, at)) else None)
            && (waits ==> r.log.attempts == s.log.attempts && r.fault.None?)
            && (!waits ==>
                  && |r.log.attempts| == n + 1 && r.log.attempts[..n] == s.log.attempts
                  && r.log.attempts[n].command == CommandFor(c, w, r.log.attempts[n].command.speeds, n))
  {
    hide Publish, AcceptWheel, CheckWheel, Inv;
    Numbering(c, s);
    ChecksOnly(c, s, w, Accept(s.wheel, WHEEL_PERIOD, w.head).next);
    var s1 := AcceptWheel(c, s, w, Accept(s.wheel, WHEEL_PERIOD, w.head).next);
    if !NeedsPose(c, s1, w.head.timestamp) {
      SoundAnswer(c, s, w, at);
      AnswersOnce(c, s1, w);
    }
  }

  // ----- which event latches which fault -----

  /** Faults that answering a wheel state can latch. */
  predicate AnswerFault(f: Fault) {
    f.RouteFault? || f == PublishRaised || f == PublishRefused
  }

  predicate StreamFault(f: Fault, topic: Topic) {
    f == SequenceBroken(topic) || f == CadenceBroken(topic) || f == DescriptorDiffers(topic) ||
      f == IdentityChanged(topic)
  }

  predicate ContentFault(f: Fault) {
    f == WheelOrderDiffers || f == PeerCountDiffers || f == CommandOwnerDiffers || f == CommandIdentityChanged
  }

  /** The faults that one event may latch; a stale pose is found by the timer alone. */
  predicate MayCause(e: Event, f: Fault) {
    match e
    case WheelArrives(_, _) => AnswerFault(f) || StreamFault(f, WheelTopic) || ContentFault(f) ||
      f == AdvancedWhilePending
    case RtkArrives(_) => AnswerFault(f) || StreamFault(f, RtkTopic) || f == PoseInvalid
    case ImuArrives(_) => AnswerFault(f) || StreamFault(f, ImuTopic) || f == PoseInvalid
    case BadPayload(topic) => f == PayloadInvalid(topic)
    case OperatorFault(reason) => f == External(reason)
    case Tick(_) => f == PoseStale
  }

  predicate Unreached(f: Fault) {
    f == PoseTimeStuck || f == PoseMissing || f == ControllerSkipped
  }

  /** The fault is as before, or newly one that answering can latch. */
  predicate OnlyAnswered(s: Peer, r: Peer) {
    r.fault == s.fault || (s.fault.None? && r.fault.Some? && (AnswerFault(r.fault.value) || Unreached(r.fault.value)))
  }

  lemma PublishCause(c: Config, s: Peer, w: WheelState)
    requires Ready(c, s) && !NeedsPose(c, s, w.head.timestamp)
    ensures OnlyAnswered(s, Publish(c, s, w))
  {
    hide UpdateController, Observe, UpdateCompletion;
  }

  lemma DispatchCause(c: Config, s: Peer)
    requires Ready(c, s)
    ensures OnlyAnswered(s, DispatchParked(c, s))
  {
    hide Publish;
    if s.parked.Some? && !NeedsPose(c, s, s.parked.value.state.head.timestamp) {
      PublishCause(c, s.(parked := None), s.parked.value.state);
    }
  }

  lemma CompleteCause(c: Config, s: Peer, timestamp: nat)
    requires Ready(c, s)
    ensures var r := CompletePair(c, s, timestamp);
            OnlyAnswered(s, r) || (s.fault.None? && r.fault == Some(PoseInvalid))
  {
    hide DispatchParked, Remember;
    var p := s.store;
    if timestamp in p.pendingRtk && timestamp in p.pendingImu {
      var pose := c.recover(p.pendingRtk[timestamp], p.pendingImu[timestamp], p.previousOrientation);
      if pose.Some? && (p.latest.Some? ==> p.latest.value in p.poses && p.latest.value < timestamp) {
        var s1 := Unpended(s, timestamp);
        DispatchCause(c, s1.(store := Remember(s1.store, timestamp, pose.value)));
      }
    }
  }

  lemma RtkCause(c: Config, s: Peer, m: RtkState)
    requires Ready(c, s) && s.fault.None?
    ensures var r := OnRtk(c, s, m);
            r.fault.Some? ==> MayCause(RtkArrives(m), r.fault.value) || Unreached(r.fault.value)
  {
    hide CompletePair;
    var verdict := Accept(s.store.rtk, POSE_PERIOD, m.head);
    if verdict.Accepted? {
      var s1 := AcceptBaseIdentity(c, s.(store := s.store.(rtk := verdict.next)), m.head, RtkTopic).0;
      var joined := s1.(store := s1.store.(pendingRtk := s1.store.pendingRtk[m.head.timestamp := m]));
      CompleteCause(c, joined, m.head.timestamp);
    }
  }

  lemma ImuCause(c: Config, s: Peer, m: ImuAttitude)
    requires Ready(c, s) && s.fault.None?
    ensures var r := OnImu(c, s, m);
            r.fault.Some? ==> MayCause(ImuArrives(m), r.fault.value) || Unreached(r.fault.value)
  {
    hide CompletePair;
    var verdict := Accept(s.store.imu, POSE_PERIOD, m.head);
    if verdict.Accepted? {
      var s1 := AcceptBaseIdentity(c, s.(store := s.store.(imu := verdict.next)), m.head, ImuTopic).0;
      var joined := s1.(store := s1.store.(pendingImu := s1.store.pendingImu[m.head.timestamp := m]));
      CompleteCause(c, joined, m.head.timestamp);
    }
  }

  lemma CheckCause(c: Config, s: Peer, w: WheelState)
    requires s.fault.None?
    ensures var f := CheckWheel(c, s, w).fault; f.Some? ==> StreamFault(f.value, WheelTopic) || ContentFault(f.value)
  {
  }

  lemma WheelCause(c: Config, s: Peer, w: WheelState, at: real)
    requires Ready(c, s) && s.fault.None?
    ensures var r := OnWheel(c, s, w, at);
            r.fault.Some? ==> MayCause(WheelArrives(w, at), r.fault.value) || Unreached(r.fault.value)
  {
    hide AcceptWheel, CheckWheel, Publish, DispatchParked;
    var verdict := Accept(s.wheel, WHEEL_PERIOD, w.head);
    if verdict.Accepted? {
      ChecksOnly(c, s, w, verdict.next);
      CheckCause(c, s, w);
      AnswerCause(c, AcceptWheel(c, s, w, verdict.next), w, at);
    }
  }

  lemma AnswerCause(c: Config, s: Peer, w: WheelState, at: real)
    requires Ready(c, s)
    ensures var r := AfterAccept(c, s, w, at);
            OnlyAnswered(s, r) || (s.fault.None? && r.fault == Some(AdvancedWhilePending))
  {
    hide Publish, DispatchParked;
    if s.parked.Some? {
      var s1 := Latch(s, AdvancedWhilePending);
      DispatchCause(c, s1);
      PublishCause(c, DispatchParked(c, s1), w);
    } else if !NeedsPose(c, s, w.head.timestamp) {
      PublishCause(c, s, w);
    }
  }

  lemma ApplyCause(c: Config, s: Peer, e: Event)
    requires Inv(c, s) && s.fault.None?
    ensures Ready(c, s)
    ensures var r := Apply(c, s, e); r.fault.Some? ==> MayCause(e, r.fault.value) || Unreached(r.fault.value)
  {
    hide Inv, OnWheel, OnRtk, OnImu, Service;
    Numbering(c, s);
    match e
    case WheelArrives(w, at) => WheelCause(c, s, w, at);
    case RtkArrives(m) => RtkCause(c, s, m);
    case ImuArrives(m) => ImuCause(c, s, m);
    case BadPayload(topic) =>
    case OperatorFault(reason) =>
    case Tick(now) => TimerCause(c, s, now);
  }

  lemma TimerCause(c: Config, s: Peer, now: real)
    requires Inv(c, s) && s.fault.None?
    ensures Ready(c, s)
    ensures var r := Service(c, s, now); r.fault.None? || r.fault == Some(PoseStale)
  {
    hide Inv, DispatchParked;
    Numbering(c, s);
    if s.parked.Some? {
      TimeoutExactly(c, s, now);
    }
  }

  /** A fault that appears in a step of a run is one that the step's event may cause. */
  lemma FaultHasItsCause(c: Config, run: Run, i: nat)
    requires IsRun(c, run) && i < |run.events| && run.states[i].fault.None? && run.states[i + 1].fault.Some?
    ensures MayCause(run.events[i], run.states[i + 1].fault.value)
  {
    hide Inv, Apply, MayCause;
    RunInv(c, run, i);
    var e := run.events[i];
    assert Step(c, run.states[i], e, run.states[i + 1]);
    ApplyCause(c, run.states[i], e);
    DeadBranches(c, run, i + 1);
  }

  /**
   No answer of a run finds its pose missing or stale. Every command up to the stop without a fault has
   a fresh retained pose and observed its route distance, and a stale pose is latched by the grace timer
   alone, which then answers the parked wheel state with rest under that fault.
   */
  lemma AnswersNeverFindStalePose(c: Config, run: Run, i: nat)
    requires IsRun(c, run) && i < |run.events|
    ensures var s, r := run.states[i], run.states[i + 1];
            var n, att := |s.log.attempts|, r.log.attempts;
            && (forall k :: 0 <= k < |att| && att[k].fault.None? && att[k].command.timestamp <= StopTime(c.route) ==>
                  att[k].pose.Some? && FreshFor(att[k].pose.value, att[k].command.timestamp) && att[k].progress.Some?)
            && r.fault != Some(PoseMissing)
            && (s.fault.None? && r.fault == Some(PoseStale) ==>
                  && run.events[i].Tick? && s.parked.Some? && s.log.attempts <= att
                  && RestFor(c, att[n..], [s.parked.value.state], n, Some(PoseStale)))
  {
    hide Inv, Apply, Step, RestFor;
    var s, r := run.states[i], run.states[i + 1];
    FreshCommands(c, run, i + 1);
    DeadBranches(c, run, i + 1);
    if s.fault.None? && r.fault == Some(PoseStale) {
      FaultHasItsCause(c, run, i);
      RunInv(c, run, i);
      var e := run.events[i];
      StaleStep(c, s, e, r);
    }
  }

  lemma FreshCommands(c: Config, run: Run, i: nat)
    requires IsRun(c, run) && i < |run.states|
    ensures var att := run.states[i].log.attempts;
            forall k :: 0 <= k < |att| && att[k].fault.None? && att[k].command.timestamp <= StopTime(c.route) ==>
              att[k].pose.Some? && FreshFor(att[k].pose.value, att[k].command.timestamp) && att[k].progress.Some?
  {
    RunInv(c, run, i);
  }

  lemma StaleStep(c: Config, s: Peer, e: Event, r: Peer)
    requires Inv(c, s) && Step(c, s, e, r) && e.Tick? && s.fault.None? && r.fault == Some(PoseStale)
    ensures var n := |s.log.attempts|;
            s.parked.Some? && s.log.attempts <= r.log.attempts &&
              RestFor(c, r.log.attempts[n..], [s.parked.value.state], n, r.fault)
  {
    hide Inv, DispatchParked, RestFor;
    if s.parked.Some? {
      TimeoutExactly(c, s, e.now);
    }
  }
}
