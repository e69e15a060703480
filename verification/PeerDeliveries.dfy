/**
 What one delivery does to the peer when the simulator's cadence feeds it: which fields it leaves
 alone, which faults it can raise, and how the pose pairs advance.
 */
module PeerDeliveries {
  import opened Basics
  import opened GolfPlan
  import opened PeerModel
  import opened PeerInvariants

  /** Faults that only a broken message order could raise. */
  ghost predicate OrderFault(f: Option<Fault>) {
    f.Some? && (f.value.AdvancedWhilePending? || f.value.SequenceBroken? || f.value.CadenceBroken?)
  }

  /** The pose side of the peer is untouched and no order fault appeared. */
  ghost predicate PoseFrame(s: Peer, r: Peer) {
    && r.store == s.store && r.log.pairs == s.log.pairs
    && r.log.rtkRejected == s.log.rtkRejected && r.log.imuRejected == s.log.imuRejected
    && (OrderFault(r.fault) ==> OrderFault(s.fault))
  }

  lemma PublishFrame(c: Config, s: Peer, w: WheelState)
    requires Ready(c, s)
    ensures PoseFrame(s, Publish(c, s, w))
  {
  }

  lemma DispatchFrame(c: Config, s: Peer)
    requires Ready(c, s)
    ensures PoseFrame(s, DispatchParked(c, s))
  {
    if s.parked.Some? {
      PublishFrame(c, s.(parked := None), s.parked.value.state);
    }
  }

  lemma WheelFrame(c: Config, s: Peer, w: WheelState, at: real)
    requires Ready(c, s) && s.parked.None? && Accept(s.wheel, WHEEL_PERIOD, w.head).Accepted?
    ensures PoseFrame(s, OnWheel(c, s, w, at))
  {
    var next := Accept(s.wheel, WHEEL_PERIOD, w.head).next;
    CheckWheelFrame(c, s.(wheel := next, lastWheel := Some(w.head.timestamp),
      log := s.log.(accepted := s.log.accepted + [w])), w);
    PublishFrame(c, AcceptWheel(c, s, w, next), w);
  }

  lemma CheckWheelFrame(c: Config, s: Peer, w: WheelState)
    ensures var r := CheckWheel(c, s, w);
            PoseFrame(s, r) && r.parked == s.parked && r.controller == s.controller
  {
  }

  lemma ServiceFrame(c: Config, s: Peer, now: real)
    requires Ready(c, s)
    ensures PoseFrame(s, Service(c, s, now))
  {
    DispatchFrame(c, s);
    DispatchFrame(c, Latch(s, PoseStale));
  }

  // ----- pose samples -----

  /** Without a fault, the pairs so far are exactly the first frames and nothing was dropped. */
  ghost predicate PairsOnCadence(s: Peer) {
    s.fault.None? ==>
      && s.log.rtkRejected == 0 && s.log.imuRejected == 0
      && FirstFrames(s.store, s.log.pairs)
  }

  ghost predicate FirstFrames(p: PoseStore, pairs: seq<nat>) {
    var n := |pairs|;
    && (forall i :: 0 <= i < n ==> pairs[i] == Frame(i))
    && Frames(p.pendingRtk.Keys, n, p.rtk.expected)
    && Frames(p.pendingImu.Keys, n, p.imu.expected)
    && p.latest == if n == 0 then None else Some(Frame(n - 1))
  }

  /** The time of the m-th pose frame. */
  function Frame(m: nat): nat {
    m * POSE_PERIOD
  }

  /** Among frame times, the set holds those of frames from..to. */
  ghost predicate Frames(times: set<nat>, from: nat, to: nat) {
    forall m: nat :: Frame(m) in times <==> from <= m < to
  }

  /** The next frame of one stream either waits for the other stream or completes the next pair. */
  lemma FrameArrives(mine: set<nat>, other: set<nat>, n: nat, e: nat, o: nat)
    requires Frames(mine, n, e) && Frames(other, n, o) && mine !! other && n <= e
    ensures if Frame(e) in other then
              && e == n
              && Frames(mine + {Frame(e)} - {Frame(e)}, n + 1, e + 1)
              && Frames(other - {Frame(e)}, n + 1, o)
            else Frames(mine + {Frame(e)}, n, e + 1)
  {
    assert Frame(n) in mine <==> n < e;
    assert Frame(n) in other <==> n < o;
  }

  ghost predicate OnCadence(q: Progress) {
    q.last == if q.expected == 0 then None else Some(Frame(q.expected - 1))
  }

  ghost predicate NextFrame(q: Progress, head: Header) {
    OnCadence(q) && head.sequence == q.expected && head.timestamp == Frame(q.expected)
  }

  /** A pair that completes without a fault becomes the newest retained pose. */
  lemma CompletedPair(c: Config, s: Peer, timestamp: nat)
    requires Ready(c, s) && Retained(s.store, s.log.pairs)
    requires forall i :: 0 <= i < |s.log.pairs| ==> s.log.pairs[i] < timestamp
    ensures var r := CompletePair(c, s, timestamp);
            && r.store.rtk == s.store.rtk && r.store.imu == s.store.imu
            && r.log.rtkRejected == s.log.rtkRejected && r.log.imuRejected == s.log.imuRejected
            && (OrderFault(r.fault) ==> OrderFault(s.fault))
            && (if timestamp in s.store.pendingRtk && timestamp in s.store.pendingImu then
                  && r.log.pairs == s.log.pairs + [timestamp]
                  && r.store.pendingRtk == s.store.pendingRtk - {timestamp}
                  && r.store.pendingImu == s.store.pendingImu - {timestamp}
                  && (r.fault.None? ==> r.store.latest == Some(timestamp))
                else r == s)
  {
    if timestamp in s.store.pendingRtk && timestamp in s.store.pendingImu {
      CompleteUnfold(c, s, timestamp);
      var p, s1 := s.store, Unpended(s, timestamp);
      var pose := c.recover(p.pendingRtk[timestamp], p.pendingImu[timestamp], p.previousOrientation);
      if pose.Some? {
        hide CompletePair;
        var s2 := s1.(store := Remember(s1.store, timestamp, pose.value));
        DispatchFrame(c, s2);
      }
    }
  }

  /** A sample has joined its pending map on cadence; its pair, if complete, is the next one. */
  ghost predicate JoinedStore(p: PoseStore, pairs: seq<nat>, timestamp: nat) {
    var n := |pairs|;
    && (forall i :: 0 <= i < n ==> pairs[i] == Frame(i))
    && (if timestamp in p.pendingRtk && timestamp in p.pendingImu then
          && timestamp == Frame(n)
          && Frames(p.pendingRtk.Keys - {timestamp}, n + 1, p.rtk.expected)
          && Frames(p.pendingImu.Keys - {timestamp}, n + 1, p.imu.expected)
        else FirstFrames(p, pairs))
  }

  ghost predicate Joined(c: Config, r: Peer, timestamp: nat) {
    && Ready(c, r) && Retained(r.store, r.log.pairs) && !OrderFault(r.fault)
    && (forall i :: 0 <= i < |r.log.pairs| ==> r.log.pairs[i] < timestamp)
    && (r.fault.None? ==>
          && r.log.rtkRejected == 0 && r.log.imuRejected == 0
          && JoinedStore(r.store, r.log.pairs, timestamp))
  }

  lemma SampleDelivered(c: Config, r: Peer, timestamp: nat)
    requires Joined(c, r, timestamp)
    ensures var e := CompletePair(c, r, timestamp);
            && e.store.rtk == r.store.rtk && e.store.imu == r.store.imu && !OrderFault(e.fault)
            && (r.fault.None? ==> PairsOnCadence(e))
  {
    hide CompletePair;
    CompletedPair(c, r, timestamp);
    var p := r.store;
    assert (p.pendingRtk - {timestamp}).Keys == p.pendingRtk.Keys - {timestamp};
    assert (p.pendingImu - {timestamp}).Keys == p.pendingImu.Keys - {timestamp};
  }

  lemma IdentityOrder(c: Config, s: Peer, head: Header, topic: Topic)
    ensures OrderFault(AcceptBaseIdentity(c, s, head, topic).0.fault) ==> OrderFault(s.fault)
  {
  }

  lemma RtkJoinsFrames(p: PoseStore, pairs: seq<nat>, m: RtkState)
    requires FirstFrames(p, pairs) && p.pendingRtk.Keys !! p.pendingImu.Keys && |pairs| <= p.rtk.expected
    requires m.head.timestamp == Frame(p.rtk.expected)
    ensures JoinedStore(p.(rtk := Progress(p.rtk.expected + 1, Some(m.head.timestamp)),
              pendingRtk := p.pendingRtk[m.head.timestamp := m]), pairs, m.head.timestamp)
  {
    FrameArrives(p.pendingRtk.Keys, p.pendingImu.Keys, |pairs|, p.rtk.expected, p.imu.expected);
    assert p.pendingRtk[m.head.timestamp := m].Keys == p.pendingRtk.Keys + {m.head.timestamp};
    hide Frames, Frame;
  }

  lemma RtkJoins(p: PoseStore, pairs: seq<nat>, rtkRejected: nat, imuRejected: nat, m: RtkState)
    requires PosePairs(p, pairs, rtkRejected, imuRejected) && NextFrame(p.rtk, m.head)
    ensures Accept(p.rtk, POSE_PERIOD, m.head) == Accepted(Progress(p.rtk.expected + 1, Some(m.head.timestamp)))
    ensures forall i :: 0 <= i < |pairs| ==> pairs[i] < m.head.timestamp
    ensures var q := p.(rtk := Progress(p.rtk.expected + 1, Some(m.head.timestamp)),
              pendingRtk := p.pendingRtk[m.head.timestamp := m]);
            && Retained(q, pairs)
            && (rtkRejected == imuRejected == 0 && FirstFrames(p, pairs) ==> JoinedStore(q, pairs, m.head.timestamp))
  {
    if rtkRejected == imuRejected == 0 && FirstFrames(p, pairs) {
      RtkJoinsFrames(p, pairs, m);
    }
    hide FirstFrames, JoinedStore;
  }

  lemma ImuJoinsFrames(p: PoseStore, pairs: seq<nat>, m: ImuAttitude)
    requires FirstFrames(p, pairs) && p.pendingRtk.Keys !! p.pendingImu.Keys && |pairs| <= p.imu.expected
    requires m.head.timestamp == Frame(p.imu.expected)
    ensures JoinedStore(p.(imu := Progress(p.imu.expected + 1, Some(m.head.timestamp)),
              pendingImu := p.pendingImu[m.head.timestamp := m]), pairs, m.head.timestamp)
  {
    FrameArrives(p.pendingImu.Keys, p.pendingRtk.Keys, |pairs|, p.imu.expected, p.rtk.expected);
    assert p.pendingImu[m.head.timestamp := m].Keys == p.pendingImu.Keys + {m.head.timestamp};
    hide Frames, Frame;
  }

  lemma ImuJoins(p: PoseStore, pairs: seq<nat>, rtkRejected: nat, imuRejected: nat, m: ImuAttitude)
    requires PosePairs(p, pairs, rtkRejected, imuRejected) && NextFrame(p.imu, m.head)
    ensures Accept(p.imu, POSE_PERIOD, m.head) == Accepted(Progress(p.imu.expected + 1, Some(m.head.timestamp)))
    ensures forall i :: 0 <= i < |pairs| ==> pairs[i] < m.head.timestamp
    ensures var q := p.(imu := Progress(p.imu.expected + 1, Some(m.head.timestamp)),
              pendingImu := p.pendingImu[m.head.timestamp := m]);
            && Retained(q, pairs)
            && (rtkRejected == imuRejected == 0 && FirstFrames(p, pairs) ==> JoinedStore(q, pairs, m.head.timestamp))
  {
    if rtkRejected == imuRejected == 0 && FirstFrames(p, pairs) {
      ImuJoinsFrames(p, pairs, m);
    }
    hide FirstFrames, JoinedStore;
  }

  lemma FaultedPairs(s: Peer)
    requires s.fault.Some?
    ensures PairsOnCadence(s)
  {
  }

  /** The state in which an accepted RTK sample looks for its partner. */
  function RtkJoined(s: Peer, m: RtkState, base: Option<(Bytes, nat)>): Peer {
    s.(baseIdentity := base,
       store := s.store.(rtk := Progress(s.store.rtk.expected + 1, Some(m.head.timestamp)),
                         pendingRtk := s.store.pendingRtk[m.head.timestamp := m]))
  }

  lemma RtkJoinedHolds(c: Config, s: Peer, m: RtkState, base: Option<(Bytes, nat)>)
    requires Inv(c, s) && PairsOnCadence(s) && NextFrame(s.store.rtk, m.head) && !OrderFault(s.fault)
    ensures Ready(c, s)
    ensures Accept(s.store.rtk, POSE_PERIOD, m.head) ==
              Accepted(Progress(s.store.rtk.expected + 1, Some(m.head.timestamp)))
    ensures Joined(c, RtkJoined(s, m, base), m.head.timestamp)
  {
    hide Inv, JoinedStore, FirstFrames;
    InvParts(c, s);
    RtkJoins(s.store, s.log.pairs, s.log.rtkRejected, s.log.imuRejected, m);
  }

  lemma RtkDelivered(c: Config, s: Peer, m: RtkState)
    requires Inv(c, s) && PairsOnCadence(s) && NextFrame(s.store.rtk, m.head) && !OrderFault(s.fault)
    ensures var r := OnRtk(c, s, m);
            && r.store.rtk == Progress(s.store.rtk.expected + 1, Some(m.head.timestamp)) && r.store.imu == s.store.imu
            && !OrderFault(r.fault) && (s.fault.None? ==> PairsOnCadence(r))
  {
    hide CompletePair, Inv, Joined, PairsOnCadence;
    var s1 := s.(store := s.store.(rtk := Progress(s.store.rtk.expected + 1, Some(m.head.timestamp))));
    var (s2, same) := AcceptBaseIdentity(c, s1, m.head, RtkTopic);
    RtkJoinedHolds(c, s, m, s2.baseIdentity);
    BaseIdentityShape(c, s1, m.head, RtkTopic);
    IdentityOrder(c, s1, m.head, RtkTopic);
    if same {
      SampleDelivered(c, RtkJoined(s, m, s2.baseIdentity), m.head.timestamp);
    } else {
      FaultedPairs(OnRtk(c, s, m));
    }
  }

  /** The state in which an accepted IMU sample looks for its partner. */
  function ImuJoined(s: Peer, m: ImuAttitude, base: Option<(Bytes, nat)>): Peer {
    s.(baseIdentity := base,
       store := s.store.(imu := Progress(s.store.imu.expected + 1, Some(m.head.timestamp)),
                         pendingImu := s.store.pendingImu[m.head.timestamp := m]))
  }

  lemma ImuJoinedHolds(c: Config, s: Peer, m: ImuAttitude, base: Option<(Bytes, nat)>)
    requires Inv(c, s) && PairsOnCadence(s) && NextFrame(s.store.imu, m.head) && !OrderFault(s.fault)
    ensures Ready(c, s)
    ensures Accept(s.store.imu, POSE_PERIOD, m.head) ==
              Accepted(Progress(s.store.imu.expected + 1, Some(m.head.timestamp)))
    ensures Joined(c, ImuJoined(s, m, base), m.head.timestamp)
  {
    hide Inv, JoinedStore, FirstFrames;
    InvParts(c, s);
    ImuJoins(s.store, s.log.pairs, s.log.rtkRejected, s.log.imuRejected, m);
  }

  lemma ImuDelivered(c: Config, s: Peer, m: ImuAttitude)
    requires Inv(c, s) && PairsOnCadence(s) && NextFrame(s.store.imu, m.head) && !OrderFault(s.fault)
    ensures var r := OnImu(c, s, m);
            && r.store.imu == Progress(s.store.imu.expected + 1, Some(m.head.timestamp)) && r.store.rtk == s.store.rtk
            && !OrderFault(r.fault) && (s.fault.None? ==> PairsOnCadence(r))
  {
    hide CompletePair, Inv, Joined, PairsOnCadence;
    var s1 := s.(store := s.store.(imu := Progress(s.store.imu.expected + 1, Some(m.head.timestamp))));
    var (s2, same) := AcceptBaseIdentity(c, s1, m.head, ImuTopic);
    ImuJoinedHolds(c, s, m, s2.baseIdentity);
    BaseIdentityShape(c, s1, m.head, ImuTopic);
    IdentityOrder(c, s1, m.head, ImuTopic);
    if same {
      SampleDelivered(c, ImuJoined(s, m, s2.baseIdentity), m.head.timestamp);
    } else {
      FaultedPairs(OnImu(c, s, m));
    }
  }
}
