/**
 What a fault-free peer knows about the messages it accepted: one descriptor, one simulation identity,
 one command identity, and wheel states of exactly the expected shape and ownership.
 */
module PeerIdentities {
  import opened Basics
  import opened GolfPlan
  import opened PeerModel
  import opened PeerInvariants

  /** The content the peer demands of a wheel state, apart from its identities. */
  predicate WellFormedWheel(c: Config, w: WheelState) {
    && w.robotModel == "df_mid" && |w.driveSpeeds| == 2 && w.steeringAngles == []
    && w.peerCount == 1 && (w.authority == Claimable || w.authority == Active)
    && (w.authority == Active ==> w.ownerId == c.sourceId && w.ownerSession == c.sourceSession)
  }

  function BaseOf(head: Header): (Bytes, nat) {
    (head.session, head.world)
  }

  /** A wheel state latches a fault exactly when its content or one of its identities differs. */
  lemma CheckWheelExactly(c: Config, s: Peer, w: WheelState)
    ensures var r := CheckWheel(c, s, w);
            && (r.fault.None? <==>
                  && s.fault.None? && w.head.descriptor == c.descriptor && WellFormedWheel(c, w)
                  && (s.baseIdentity.None? || s.baseIdentity == Some(BaseOf(w.head)))
                  && (s.commandIdentity.None? || s.commandIdentity == Some(IdentityOf(w))))
            && (r.fault.None? ==> r.baseIdentity == Some(BaseOf(w.head)) && r.commandIdentity == Some(IdentityOf(w)))
            && (s.fault.Some? ==> r.fault == s.fault)
            && r.log == s.log && r.parked == s.parked && r.controller == s.controller
  {
  }

  predicate Consistent(c: Config, base: Option<(Bytes, nat)>, command: Option<CommandIdentity>, w: WheelState) {
    w.head.descriptor == c.descriptor && base == Some(BaseOf(w.head)) && command == Some(IdentityOf(w)) &&
      WellFormedWheel(c, w)
  }

  ghost predicate Agreed(c: Config, s: Peer) {
    s.fault.None? ==> forall i :: 0 <= i < |s.log.accepted| ==>
      Consistent(c, s.baseIdentity, s.commandIdentity, s.log.accepted[i])
  }

  /** Identities and accepted wheel states are untouched, and no fault was cleared. */
  ghost predicate IdentityFrame(s: Peer, r: Peer) {
    && r.baseIdentity == s.baseIdentity && r.commandIdentity == s.commandIdentity && r.log.accepted == s.log.accepted
    && (r.fault.None? ==> s.fault.None?)
  }

  lemma PublishIdentity(c: Config, s: Peer, w: WheelState)
    requires Ready(c, s)
    ensures IdentityFrame(s, Publish(c, s, w))
  {
  }

  lemma DispatchIdentity(c: Config, s: Peer)
    requires Ready(c, s)
    ensures IdentityFrame(s, DispatchParked(c, s))
  {
    hide Publish, NeedsPose;
    if s.parked.Some? {
      PublishIdentity(c, s.(parked := None), s.parked.value.state);
    }
  }

  lemma AfterAcceptIdentity(c: Config, s: Peer, w: WheelState, at: real)
    requires Ready(c, s)
    ensures IdentityFrame(s, AfterAccept(c, s, w, at))
  {
    hide Publish, NeedsPose, DispatchParked;
    DispatchIdentity(c, Latch(s, AdvancedWhilePending));
    PublishIdentity(c, DispatchParked(c, Latch(s, AdvancedWhilePending)), w);
    PublishIdentity(c, s, w);
  }

  lemma CompleteIdentity(c: Config, s: Peer, timestamp: nat)
    requires Ready(c, s)
    ensures IdentityFrame(s, CompletePair(c, s, timestamp))
  {
    hide DispatchParked, Remember;
    var p := s.store;
    if timestamp in p.pendingRtk && timestamp in p.pendingImu {
      var pose := c.recover(p.pendingRtk[timestamp], p.pendingImu[timestamp], p.previousOrientation);
      var s1 := Unpended(s, timestamp);
      if pose.Some? && (p.latest.Some? ==> p.latest.value in p.poses && p.latest.value < timestamp) {
        DispatchIdentity(c, s1.(store := Remember(s1.store, timestamp, pose.value)));
      }
    }
  }

  lemma FrameAgreed(c: Config, s: Peer, r: Peer)
    requires Agreed(c, s) && IdentityFrame(s, r)
    ensures Agreed(c, r)
  {
  }

  lemma WheelAgreed(c: Config, s: Peer, w: WheelState, at: real)
    requires Ready(c, s) && Agreed(c, s)
    ensures Agreed(c, OnWheel(c, s, w, at))
  {
    hide AfterAccept, CheckWheel, Consistent;
    var verdict := Accept(s.wheel, WHEEL_PERIOD, w.head);
    if verdict.Accepted? {
      var s1 := s.(wheel := verdict.next, lastWheel := Some(w.head.timestamp),
        log := s.log.(accepted := s.log.accepted + [w]));
      CheckWheelExactly(c, s1, w);
      var r := CheckWheel(c, s1, w);
      AcceptedAgreed(c, s, w, r);
      AfterAcceptIdentity(c, r, w, at);
      FrameAgreed(c, r, AfterAccept(c, r, w, at));
    }
  }

  lemma AcceptedAgreed(c: Config, s: Peer, w: WheelState, r: Peer)
    requires Agreed(c, s) && r.log.accepted == s.log.accepted + [w]
    requires r.fault.None? ==>
               && s.fault.None? && w.head.descriptor == c.descriptor && WellFormedWheel(c, w)
               && (s.baseIdentity.None? || s.baseIdentity == Some(BaseOf(w.head)))
               && (s.commandIdentity.None? || s.commandIdentity == Some(IdentityOf(w)))
               && r.baseIdentity == Some(BaseOf(w.head)) && r.commandIdentity == Some(IdentityOf(w))
    ensures Agreed(c, r)
  {
  }

  /** A pose sample can set the simulation identity only while no wheel state fixed it. */
  lemma BaseAgreed(c: Config, s: Peer, head: Header, topic: Topic)
    requires Agreed(c, s)
    ensures var r := AcceptBaseIdentity(c, s, head, topic).0; Agreed(c, r) && r.controller == s.controller
  {
  }

  lemma RtkAgreed(c: Config, s: Peer, m: RtkState)
    requires Ready(c, s) && Agreed(c, s)
    ensures Agreed(c, OnRtk(c, s, m))
  {
    hide CompletePair, AcceptBaseIdentity, Consistent;
    var verdict := Accept(s.store.rtk, POSE_PERIOD, m.head);
    if verdict.Accepted? {
      var (r, same) := AcceptBaseIdentity(c, s.(store := s.store.(rtk := verdict.next)), m.head, RtkTopic);
      BaseAgreed(c, s.(store := s.store.(rtk := verdict.next)), m.head, RtkTopic);
      var joined := r.(store := r.store.(pendingRtk := r.store.pendingRtk[m.head.timestamp := m]));
      CompleteIdentity(c, joined, m.head.timestamp);
      FrameAgreed(c, joined, CompletePair(c, joined, m.head.timestamp));
    }
  }

  lemma ImuAgreed(c: Config, s: Peer, m: ImuAttitude)
    requires Ready(c, s) && Agreed(c, s)
    ensures Agreed(c, OnImu(c, s, m))
  {
    hide CompletePair, AcceptBaseIdentity, Consistent;
    var verdict := Accept(s.store.imu, POSE_PERIOD, m.head);
    if verdict.Accepted? {
      var (r, same) := AcceptBaseIdentity(c, s.(store := s.store.(imu := verdict.next)), m.head, ImuTopic);
      BaseAgreed(c, s.(store := s.store.(imu := verdict.next)), m.head, ImuTopic);
      var joined := r.(store := r.store.(pendingImu := r.store.pendingImu[m.head.timestamp := m]));
      CompleteIdentity(c, joined, m.head.timestamp);
      FrameAgreed(c, joined, CompletePair(c, joined, m.head.timestamp));
    }
  }

  lemma ApplyAgreed(c: Config, s: Peer, e: Event)
    requires Ready(c, s) && Agreed(c, s)
    ensures Agreed(c, Apply(c, s, e))
  {
    hide Agreed, OnWheel, OnRtk, OnImu, DispatchParked, NeedsPose;
    match e
    case WheelArrives(w, at) => WheelAgreed(c, s, w, at);
    case RtkArrives(m) => RtkAgreed(c, s, m);
    case ImuArrives(m) => ImuAgreed(c, s, m);
    case BadPayload(topic) => FrameAgreed(c, s, Latch(s, PayloadInvalid(topic)));
    case OperatorFault(reason) => FrameAgreed(c, s, Latch(s, External(reason)));
    case Tick(now) =>
      DispatchIdentity(c, s);
      DispatchIdentity(c, Latch(s, PoseStale));
      FrameAgreed(c, s, Service(c, s, now));
  }

  /**
   At every point of every run without a fault, all accepted wheel states carry the peer's descriptor,
   one common simulation and command identity, and the expected content.
   */
  lemma {:induction false} AcceptedWheelsAgree(c: Config, run: Run, i: nat)
    requires IsRun(c, run) && i < |run.states|
    ensures Agreed(c, run.states[i])
  {
    hide Agreed, Step, Inv, Apply;
    if i == 0 {
      NothingAccepted(c);
    } else {
      AcceptedWheelsAgree(c, run, i - 1);
      var e := run.events[i - 1];
      StepAgreed(c, run.states[i - 1], e, run.states[i]);
    }
  }

  lemma NothingAccepted(c: Config)
    ensures Agreed(c, Initial())
  {
  }

  lemma StepAgreed(c: Config, s: Peer, e: Event, r: Peer)
    requires Step(c, s, e, r) && Agreed(c, s)
    ensures Agreed(c, r)
  {
    hide Agreed, Apply;
    ApplyAgreed(c, s, e);
  }
}
