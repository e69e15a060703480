/**
 Which fault a step of a fault-free run latches, exactly: the first requirement that the event breaks,
 or else what came of the one answer it released.
 */
module PeerFaults {
  import opened Basics
  import opened GolfPlan
  import opened PeerModel
  import opened PeerInvariants

  // ----- what an event may not break, in the order of the checks -----

  function FirstOf(first: Option<Fault>, second: Option<Fault>): Option<Fault> {
    if first.Some? then first else second
  }

  function StreamBroken(p: Progress, period: nat, head: Header, topic: Topic): Option<Fault> {
    if head.sequence != p.expected then Some(SequenceBroken(topic))
    else if p.last.Some? && head.timestamp != p.last.value + period then Some(CadenceBroken(topic))
    else None
  }

  function IdentityBroken(c: Config, s: Peer, head: Header, topic: Topic): Option<Fault> {
    if head.descriptor != c.descriptor then Some(DescriptorDiffers(topic))
    else if s.baseIdentity.Some? && s.baseIdentity.value != (head.session, head.world) then Some(IdentityChanged(topic))
    else None
  }

  /** A wheel state is of one df_mid with two driven wheels, claimed by nobody else, under one identity. */
  function ContentBroken(c: Config, s: Peer, w: WheelState): Option<Fault> {
    if w.robotModel != "df_mid" || |w.driveSpeeds| != 2 || |w.steeringAngles| > 0 then Some(WheelOrderDiffers)
    else if w.peerCount != 1 || w.authority == Waiting || w.authority == Conflict then Some(PeerCountDiffers)
    else if w.authority == Active && !(w.ownerId == c.sourceId && w.ownerSession == c.sourceSession) then
      Some(CommandOwnerDiffers)
    else if s.commandIdentity.Some? && s.commandIdentity.value !=
      CommandIdentity(w.head.session, w.head.world, w.commandGeneration, w.robotModel) then Some(CommandIdentityChanged)
    else None
  }

  function PairBroken(c: Config, s: Peer, rtk: Option<RtkState>, imu: Option<ImuAttitude>): Option<Fault> {
    if rtk.Some? && imu.Some? && c.recover(rtk.value, imu.value, s.store.previousOrientation).None?
    then Some(PoseInvalid) else None
  }

  function Lookup<V>(m: map<nat, V>, t: nat): Option<V> {
    if t in m then Some(m[t]) else None
  }

  /** The first requirement that an event breaks on a fault-free peer. */
  function Broken(c: Config, s: Peer, e: Event): Option<Fault> {
    match e
    case BadPayload(topic) => Some(PayloadInvalid(topic))
    case OperatorFault(reason) => if reason == "" then None else Some(External(reason))
    case Tick(now) =>
      if s.parked.Some? && now - s.parked.value.receivedAt >= 0.5 then Some(PoseStale) else None
    case RtkArrives(m) =>
      FirstOf(StreamBroken(s.store.rtk, 100_000_000, m.head, RtkTopic),
        FirstOf(IdentityBroken(c, s, m.head, RtkTopic),
          PairBroken(c, s, Some(m), Lookup(s.store.pendingImu, m.head.timestamp))))
    case ImuArrives(m) =>
      FirstOf(StreamBroken(s.store.imu, 100_000_000, m.head, ImuTopic),
        FirstOf(IdentityBroken(c, s, m.head, ImuTopic),
          PairBroken(c, s, Lookup(s.store.pendingRtk, m.head.timestamp), Some(m))))
    case WheelArrives(w, _) =>
      FirstOf(StreamBroken(s.wheel, 10_000_000, w.head, WheelTopic),
        FirstOf(IdentityBroken(c, s, w.head, WheelTopic),
          FirstOf(ContentBroken(c, s, w), if s.parked.Some? then Some(AdvancedWhilePending) else None)))
  }

  /** What one answer leaves latched: its own fault, or what the transport did with it. */
  function Outcome(a: Attempt): Option<Fault> {
    if a.fault.Some? then a.fault
    else
      match a.delivery
      case Sent => None
      case Refused => Some(PublishRefused)
      case Raised => Some(PublishRaised)
  }

  /** At most one answer was added, and it decides the fault. */
  ghost predicate OneAnswer(s: Peer, r: Peer) {
    if r.log.attempts == s.log.attempts then r.fault == s.fault
    else
      && |r.log.attempts| == |s.log.attempts| + 1 && s.log.attempts <= r.log.attempts
      && r.fault == Outcome(r.log.attempts[|s.log.attempts|])
  }

  // ----- one step -----

  lemma PublishOutcome(c: Config, s: Peer, w: WheelState)
    requires Ready(c, s) && s.fault.None? && CommandSpeeds(c, s, w.head.timestamp).1.Some?
    ensures OneAnswer(s, Publish(c, s, w))
  {
    hide CommandSpeeds, Achieved, Quiet;
    var (r, a) := Numbered(c, s, w);
    assert r.log.attempts == s.log.attempts + [a];
    assert r.fault == a.fault;
  }

  lemma DispatchOutcome(c: Config, s: Peer)
    requires Ready(c, s) && s.fault.None?
    ensures OneAnswer(s, DispatchParked(c, s)) || DispatchParked(c, s).escaped
  {
    hide Publish, NeedsPose, OneAnswer;
    OneAnswerSelf(s);
    if s.parked.Some? && !NeedsPose(c, s, s.parked.value.state.head.timestamp) {
      var s1, w := s.(parked := None), s.parked.value.state;
      if CommandSpeeds(c, s1, w.head.timestamp).1.Some? {
        PublishOutcome(c, s1, w);
        OneAnswerFrom(s, s1, Publish(c, s1, w), Publish(c, s1, w));
      } else {
        PublishEscapes(c, s1, w);
      }
    }
  }

  lemma PublishEscapes(c: Config, s: Peer, w: WheelState)
    requires Ready(c, s) && CommandSpeeds(c, s, w.head.timestamp).1.None?
    ensures Publish(c, s, w).escaped
  {
  }

  lemma OneAnswerSelf(s: Peer)
    ensures OneAnswer(s, s)
  {
  }

  lemma OneAnswerFrom(s: Peer, s': Peer, r': Peer, r: Peer)
    requires OneAnswer(s', r') && s'.log.attempts == s.log.attempts && s'.fault == s.fault
    requires r'.log.attempts == r.log.attempts && r'.fault == r.fault
    ensures OneAnswer(s, r)
  {
  }

  /** Joining a pair whose pose is recovered latches nothing but what the released answer leaves. */
  lemma CompleteOutcome(c: Config, s: Peer, timestamp: nat)
    requires Ready(c, s) && s.fault.None? && Retained(s.store, s.log.pairs)
    requires forall i :: 0 <= i < |s.log.pairs| ==> s.log.pairs[i] < timestamp
    ensures var p, r := s.store, CompletePair(c, s, timestamp);
            var broken := PairBroken(c, s, Lookup(p.pendingRtk, timestamp), Lookup(p.pendingImu, timestamp));
            if broken.Some? then r.fault == broken else OneAnswer(s, r) || r.escaped
  {
    hide DispatchParked, Remember, OneAnswer, Retained;
    var p := s.store;
    OneAnswerSelf(s);
    if timestamp in p.pendingRtk && timestamp in p.pendingImu {
      hide CompletePair;
      CompleteUnfold(c, s, timestamp);
      var s1 := Unpended(s, timestamp);
      var pose := c.recover(p.pendingRtk[timestamp], p.pendingImu[timestamp], p.previousOrientation);
      if pose.Some? {
        var s2 := s1.(store := Remember(s1.store, timestamp, pose.value));
        DispatchOutcome(c, s2);
        if !DispatchParked(c, s2).escaped {
          OneAnswerFrom(s, s2, DispatchParked(c, s2), CompletePair(c, s, timestamp));
        }
      }
    }
  }

  lemma IdentityOutcome(c: Config, s: Peer, head: Header, topic: Topic)
    requires s.fault.None?
    ensures var (r, same) := AcceptBaseIdentity(c, s, head, topic);
            r.fault == IdentityBroken(c, s, head, topic) && same == r.fault.None?
  {
  }

  /** The step's event broke a requirement, or its answer decides. */
  ghost predicate Explained(c: Config, s: Peer, e: Event, r: Peer) {
    if Broken(c, s, e).Some? then r.fault == Broken(c, s, e) else OneAnswer(s, r)
  }

  /** A sample that passed its checks has joined its map; the rest is up to the pair. */
  lemma JoinedOutcome(c: Config, s: Peer, joined: Peer, timestamp: nat)
    requires Ready(c, joined) && s.fault.None? && !CompletePair(c, joined, timestamp).escaped
    requires joined == s.(store := joined.store, baseIdentity := joined.baseIdentity)
    requires joined.store.previousOrientation == s.store.previousOrientation
    requires Arrived(joined.store, s.log.pairs, s.log.rtkRejected, s.log.imuRejected, timestamp)
    ensures var p, r := joined.store, CompletePair(c, joined, timestamp);
            var broken := PairBroken(c, s, Lookup(p.pendingRtk, timestamp), Lookup(p.pendingImu, timestamp));
            if broken.Some? then r.fault == broken else OneAnswer(s, r)
  {
    hide CompletePair, OneAnswer, Retained;
    var r := CompletePair(c, joined, timestamp);
    CompleteOutcome(c, joined, timestamp);
    if OneAnswer(joined, r) {
      OneAnswerFrom(s, joined, r, r);
    }
  }

  lemma RtkOutcome(c: Config, s: Peer, m: RtkState)
    requires Inv(c, s) && s.fault.None?
    ensures Ready(c, s) && Explained(c, s, RtkArrives(m), OnRtk(c, s, m))
  {
    hide Inv, CompletePair, AcceptBaseIdentity, IdentityBroken, PairBroken, PosePairs, OneAnswer, Arrived, Keeps;
    RtkKeeps(c, s, m);
    InvParts(c, s);
    SoundKept(c, s, OnRtk(c, s, m), []);
    var verdict := Accept(s.store.rtk, POSE_PERIOD, m.head);
    if verdict.Accepted? {
      RtkArrived(s.store, s.log.pairs, s.log.rtkRejected, s.log.imuRejected, m);
      var s1 := s.(store := s.store.(rtk := verdict.next));
      BaseIdentityShape(c, s1, m.head, RtkTopic);
      IdentityOutcome(c, s1, m.head, RtkTopic);
      SameIdentity(c, s, s1, m.head, RtkTopic);
      var (r, same) := AcceptBaseIdentity(c, s1, m.head, RtkTopic);
      if same {
        var p := r.store;
        JoinedOutcome(c, s, r.(store := p.(pendingRtk := p.pendingRtk[m.head.timestamp := m])), m.head.timestamp);
      }
    }
  }

  lemma ImuOutcome(c: Config, s: Peer, m: ImuAttitude)
    requires Inv(c, s) && s.fault.None?
    ensures Ready(c, s) && Explained(c, s, ImuArrives(m), OnImu(c, s, m))
  {
    hide Inv, CompletePair, AcceptBaseIdentity, IdentityBroken, PairBroken, PosePairs, OneAnswer, Arrived, Keeps;
    ImuKeeps(c, s, m);
    InvParts(c, s);
    SoundKept(c, s, OnImu(c, s, m), []);
    var verdict := Accept(s.store.imu, POSE_PERIOD, m.head);
    if verdict.Accepted? {
      ImuArrived(s.store, s.log.pairs, s.log.rtkRejected, s.log.imuRejected, m);
      var s1 := s.(store := s.store.(imu := verdict.next));
      BaseIdentityShape(c, s1, m.head, ImuTopic);
      IdentityOutcome(c, s1, m.head, ImuTopic);
      SameIdentity(c, s, s1, m.head, ImuTopic);
      var (r, same) := AcceptBaseIdentity(c, s1, m.head, ImuTopic);
      if same {
        var p := r.store;
        JoinedOutcome(c, s, r.(store := p.(pendingImu := p.pendingImu[m.head.timestamp := m])), m.head.timestamp);
      }
    }
  }

  lemma SoundKept(c: Config, s: Peer, r: Peer, taken: seq<WheelState>)
    requires Keeps(c, s, r, taken)
    ensures !r.escaped
  {
  }

  lemma SameIdentity(c: Config, s: Peer, r: Peer, head: Header, topic: Topic)
    requires r.baseIdentity == s.baseIdentity
    ensures IdentityBroken(c, r, head, topic) == IdentityBroken(c, s, head, topic)
  {
  }

  lemma CheckOutcome(c: Config, s: Peer, w: WheelState)
    requires s.fault.None?
    ensures CheckWheel(c, s, w).fault == FirstOf(IdentityBroken(c, s, w.head, WheelTopic), ContentBroken(c, s, w))
  {
  }

  /** A fault latched before the answers stays, whatever they do. */
  lemma FaultStays(c: Config, s: Peer, w: WheelState, at: real)
    requires Ready(c, s) && s.fault.Some?
    ensures AfterAccept(c, s, w, at).fault == s.fault
  {
    hide NeedsPose;
    var s1 := Latch(s, AdvancedWhilePending);
    DispatchFault(c, s1);
    PublishFault(c, DispatchParked(c, s1), w);
    PublishFault(c, s, w);
  }

  lemma PublishFault(c: Config, s: Peer, w: WheelState)
    requires Ready(c, s) && s.fault.Some?
    ensures Publish(c, s, w).fault == s.fault
  {
  }

  lemma DispatchFault(c: Config, s: Peer)
    requires Ready(c, s) && s.fault.Some?
    ensures DispatchParked(c, s).fault == s.fault
  {
    hide Publish, NeedsPose;
    if s.parked.Some? {
      PublishFault(c, s.(parked := None), s.parked.value.state);
    }
  }

  lemma AcceptedOutcome(c: Config, s: Peer, w: WheelState, at: real)
    requires Ready(c, s) && s.fault.None?
    ensures var r := AfterAccept(c, s, w, at);
            if s.parked.Some? then r.fault == Some(AdvancedWhilePending) else OneAnswer(s, r) || r.escaped
  {
    hide Publish, DispatchParked, NeedsPose, OneAnswer;
    OneAnswerSelf(s);
    if s.parked.Some? {
      var s1 := Latch(s, AdvancedWhilePending);
      DispatchFault(c, s1);
      PublishFault(c, DispatchParked(c, s1), w);
    } else {
      OneAnswerFrom(s, s, s, s.(parked := Some(Parked(w, at))));
      if CommandSpeeds(c, s, w.head.timestamp).1.Some? {
        PublishOutcome(c, s, w);
      } else {
        PublishEscapes(c, s, w);
      }
    }
  }

  lemma WheelOutcome(c: Config, s: Peer, w: WheelState, at: real)
    requires Inv(c, s) && s.fault.None?
    ensures Ready(c, s) && Explained(c, s, WheelArrives(w, at), OnWheel(c, s, w, at))
  {
    hide Inv, Keeps, AfterAccept, CheckWheel, IdentityBroken, ContentBroken, OneAnswer, PosePairs;
    var verdict := Accept(s.wheel, WHEEL_PERIOD, w.head);
    InvParts(c, s);
    WheelKeeps(c, s, w, at);
    SoundKept(c, s, OnWheel(c, s, w, at), if verdict.Accepted? then [w] else []);
    if verdict.Accepted? {
      var s1 := s.(wheel := verdict.next, lastWheel := Some(w.head.timestamp),
                   log := s.log.(accepted := s.log.accepted + [w]));
      CheckWheelShape(c, s1, w);
      CheckOutcome(c, s1, w);
      SameContent(c, s, s1, w);
      var checked := AcceptWheel(c, s, w, verdict.next);
      if checked.fault.Some? {
        FaultStays(c, checked, w, at);
      } else {
        AcceptedOutcome(c, checked, w, at);
        if OneAnswer(checked, OnWheel(c, s, w, at)) {
          OneAnswerFrom(s, checked, OnWheel(c, s, w, at), OnWheel(c, s, w, at));
        }
      }
    }
  }

  lemma SameContent(c: Config, s: Peer, r: Peer, w: WheelState)
    requires r.baseIdentity == s.baseIdentity && r.commandIdentity == s.commandIdentity
    ensures IdentityBroken(c, r, w.head, WheelTopic) == IdentityBroken(c, s, w.head, WheelTopic)
    ensures ContentBroken(c, r, w) == ContentBroken(c, s, w)
  {
  }

  lemma TimerOutcome(c: Config, s: Peer, now: real)
    requires Inv(c, s) && s.fault.None?
    ensures Ready(c, s) && Explained(c, s, Tick(now), Service(c, s, now))
  {
    hide Inv, NeedsPose, OneAnswer, DispatchParked, PosePairs;
    ParkedNeedsPose(c, s);
    InvParts(c, s);
    OneAnswerSelf(s);
    DispatchNothing(c, s);
    if s.parked.Some? {
      DispatchFault(c, Latch(s, PoseStale));
    }
  }

  lemma DispatchNothing(c: Config, s: Peer)
    requires Ready(c, s) && (s.parked.Some? ==> NeedsPose(c, s, s.parked.value.state.head.timestamp))
    ensures DispatchParked(c, s) == s
  {
  }

  lemma ParkedNeedsPose(c: Config, s: Peer)
    requires Inv(c, s) && s.fault.None?
    ensures c.Valid() && (s.parked.Some? ==> NeedsPose(c, s, s.parked.value.state.head.timestamp))
  {
  }

  lemma ApplyOutcome(c: Config, s: Peer, e: Event)
    requires Inv(c, s) && s.fault.None?
    ensures Ready(c, s) && Explained(c, s, e, Apply(c, s, e))
  {
    InvParts(c, s);
    hide Inv, OnWheel, OnRtk, OnImu, Service;
    match e
    case WheelArrives(w, at) => WheelOutcome(c, s, w, at);
    case RtkArrives(m) => RtkOutcome(c, s, m);
    case ImuArrives(m) => ImuOutcome(c, s, m);
    case BadPayload(topic) =>
    case OperatorFault(reason) =>
    case Tick(now) => TimerOutcome(c, s, now);
  }

  /**
   A step of a run latches a fault exactly if its event breaks a requirement, and then the first one; or
   else exactly if the one answer it released carries a fault or was not sent.
   */
  lemma FaultLatchedExactly(c: Config, run: Run, i: nat)
    requires IsRun(c, run) && i < |run.events| && run.states[i].fault.None?
    ensures var s, e, r := run.states[i], run.events[i], run.states[i + 1];
            var n := |s.log.attempts|;
            if Broken(c, s, e).Some? then r.fault == Broken(c, s, e)
            else if r.log.attempts == s.log.attempts then r.fault.None?
            else |r.log.attempts| == n + 1 && r.fault == Outcome(r.log.attempts[n])
  {
    RunInv(c, run, i);
    hide Inv, Broken, Outcome, Apply;
    ApplyOutcome(c, run.states[i], run.events[i]);
  }
}
