/**
 What the peer's counters remember of its answers: the quiet count is the trailing run of quiet
 readings among the answers sent under a fault, and the lag memory is the watch over all route
 distances observed so far.
 */
module PeerHistory {
  import opened Basics
  import opened GolfPlan
  import opened PeerModel
  import opened PeerInvariants
  import opened PeerTheorems

  /** The quiet readings of the answers sent under a fault, in order. */
  function Readings(att: seq<Attempt>): seq<bool> {
    if att == [] then []
    else
      var a := att[|att| - 1];
      Readings(att[..|att| - 1]) + if a.delivery.Sent? && a.fault.Some? then [a.quiet] else []
  }

  /** How many readings at the end are quiet without a break. */
  function Trailing(readings: seq<bool>): nat {
    if readings == [] || !readings[|readings| - 1] then 0 else Trailing(readings[..|readings| - 1]) + 1
  }

  /** The route distances observed while computing the answers, in order. */
  function Samples(att: seq<Attempt>): seq<Sample> {
    if att == [] then []
    else
      var a := att[|att| - 1];
      Samples(att[..|att| - 1]) + if a.progress.Some? then [Sample(a.command.timestamp, a.progress.value)] else []
  }

  function FaultOf(watch: Watch): Option<Fault> {
    if watch.fault.Some? then Some(RouteFault(watch.fault.value)) else None
  }

  /** An answer that observed a distance carries exactly the fault that the watch raises on it. */
  ghost predicate Watched(c: Config, att: seq<Attempt>, k: nat)
    requires c.Valid() && k < |att|
  {
    att[k].progress.Some? ==>
      att[k].fault ==
      FaultOf(Observe(c.route, WatchAll(c.route, Samples(att[..k])), att[k].command.timestamp, att[k].progress.value))
  }

  ghost predicate Recorded(c: Config, s: Peer)
    requires c.Valid()
  {
    var att := s.log.attempts;
    && s.lagSince == WatchAll(c.route, Samples(att))
    && (forall k :: 0 <= k < |att| ==> Watched(c, att, k))
    && s.completion.quiet == Trailing(Readings(att))
    && (Readings(att) != [] ==> s.fault.Some? && (s.completion.finished <==> s.completion.quiet >= 20))
  }

  // ----- one publish -----

  lemma Snoc(att: seq<Attempt>, a: Attempt)
    ensures Readings(att + [a]) ==
              if a.delivery.Sent? && a.fault.Some? then Readings(att) + [a.quiet] else Readings(att)
    ensures Samples(att + [a]) ==
              if a.progress.Some? then Samples(att) + [Sample(a.command.timestamp, a.progress.value)] else Samples(att)
  {
    assert (att + [a])[..|att|] == att;
  }

  lemma TrailingSnoc(readings: seq<bool>, last: bool)
    ensures Trailing(readings + [last]) == if last then Trailing(readings) + 1 else 0
  {
    assert (readings + [last])[..|readings|] == readings;
  }

  lemma WatchSnoc(route: Route, samples: seq<Sample>, last: Sample)
    requires ValidRoute(route)
    ensures WatchAll(route, samples + [last]) ==
              Observe(route, WatchAll(route, samples), last.timestamp, last.distance).since
  {
    assert (samples + [last])[..|samples|] == samples;
  }

  /** Computing the speeds feeds the watch exactly the distance it records. */
  lemma SpeedsWatch(c: Config, s: Peer, timestamp: nat)
    requires Ready(c, s)
    ensures var r := CommandSpeeds(c, s, timestamp).0;
            var progress := Achieved(c, s.fault, s.store.poses, s.controller, timestamp);
            && (s.fault.Some? ==> r.fault == s.fault)
            && (progress.None? ==> r.lagSince == s.lagSince)
            && (progress.Some? ==>
                  var watch := Observe(c.route, s.lagSince, timestamp, progress.value);
                  r.lagSince == watch.since && r.fault == FaultOf(watch))
  {
    hide UpdateController, Observe;
  }

  /** The log grew by one answer; the watch is fed its distance. */
  ghost predicate Answer(c: Config, s: Peer, r: Peer, a: Attempt)
    requires c.Valid()
  {
    && r.log.attempts == s.log.attempts + [a] && r.completion == s.completion && r.fault == a.fault
    && (s.fault.Some? ==> a.fault == s.fault)
    && (a.progress.None? ==> r.lagSince == s.lagSince)
    && (a.progress.Some? ==>
          var watch := Observe(c.route, s.lagSince, a.command.timestamp, a.progress.value);
          r.lagSince == watch.since && a.fault == FaultOf(watch))
  }

  lemma NumberedAnswer(c: Config, s: Peer, w: WheelState)
    requires Ready(c, s) && CommandSpeeds(c, s, w.head.timestamp).1.Some?
    ensures var (r, a) := Numbered(c, s, w); Answer(c, s, r, a) && a.quiet == Quiet(s, w) && r.store == s.store
  {
    hide CommandSpeeds, Achieved;
    SpeedsWatch(c, s, w.head.timestamp);
    SpeedsFrame(c, s, w.head.timestamp);
  }

  lemma SpeedsFrame(c: Config, s: Peer, timestamp: nat)
    requires Ready(c, s)
    ensures var r := CommandSpeeds(c, s, timestamp).0;
            r == s.(fault := r.fault, controller := r.controller, lagSince := r.lagSince)
  {
  }

  lemma WatchGoesOn(c: Config, s: Peer, r: Peer, a: Attempt)
    requires c.Valid() && Recorded(c, s) && Answer(c, s, r, a)
    ensures r.lagSince == WatchAll(c.route, Samples(r.log.attempts))
    ensures forall k :: 0 <= k < |r.log.attempts| ==> Watched(c, r.log.attempts, k)
  {
    hide Observe, WatchAll, Samples, Readings;
    var before, att := s.log.attempts, r.log.attempts;
    Snoc(before, a);
    if a.progress.Some? {
      WatchSnoc(c.route, Samples(before), Sample(a.command.timestamp, a.progress.value));
    }
    forall k | 0 <= k < |att| ensures Watched(c, att, k) {
      assert att[..k] == if k < |before| then before[..k] else before;
      if k < |before| {
        assert Watched(c, before, k) && att[k] == before[k];
      }
    }
  }

  /** The transport's answer: only a sent command under a fault is a reading. */
  lemma HandOverRecorded(c: Config, s: Peer, w: WheelState, r: Peer, a: Attempt)
    requires c.Valid() && Recorded(c, s) && Answer(c, s, r, a) && a.quiet == Quiet(r, w)
    ensures Recorded(c, HandOver(c, r, w, a))
  {
    hide Observe, WatchAll, Samples, Readings, Trailing, Watched, AtRest, FinishDue;
    WatchGoesOn(c, s, r, a);
    Snoc(s.log.attempts, a);
    TrailingSnoc(Readings(s.log.attempts), a.quiet);
  }

  lemma PublishRecorded(c: Config, s: Peer, w: WheelState)
    requires Ready(c, s) && Recorded(c, s)
    ensures Recorded(c, Publish(c, s, w))
  {
    hide CommandSpeeds, Numbered, HandOver, Recorded, Answer;
    if CommandSpeeds(c, s, w.head.timestamp).1.Some? {
      NumberedAnswer(c, s, w);
      HandOverRecorded(c, s, w, Numbered(c, s, w).0, Numbered(c, s, w).1);
    } else {
      EscapedFrame(c, s, w.head.timestamp);
      FrameRecorded(c, s, CommandSpeeds(c, s, w.head.timestamp).0.(escaped := true));
    }
  }

  lemma EscapedFrame(c: Config, s: Peer, timestamp: nat)
    requires Ready(c, s) && CommandSpeeds(c, s, timestamp).1.None?
    ensures CommandSpeeds(c, s, timestamp).0 == s
  {
  }

  // ----- every event -----

  /** Nothing that the record speaks about changed, and no fault was cleared. */
  ghost predicate RecordFrame(s: Peer, r: Peer) {
    && r.completion == s.completion && r.lagSince == s.lagSince && r.log.attempts == s.log.attempts
    && (s.fault.Some? ==> r.fault.Some?)
  }

  lemma FrameRecorded(c: Config, s: Peer, r: Peer)
    requires c.Valid() && Recorded(c, s) && RecordFrame(s, r)
    ensures Recorded(c, r)
  {
  }

  lemma FinishRecorded(c: Config, s: Peer)
    requires c.Valid() && Recorded(c, s)
    ensures Recorded(c, MaybeFinish(c, s))
  {
  }

  lemma DispatchRecorded(c: Config, s: Peer)
    requires Ready(c, s) && Recorded(c, s)
    ensures Recorded(c, DispatchParked(c, s))
  {
    hide Publish, NeedsPose, Recorded;
    if s.parked.Some? {
      FrameRecorded(c, s, s.(parked := None));
      PublishRecorded(c, s.(parked := None), s.parked.value.state);
    }
  }

  lemma CompleteRecorded(c: Config, s: Peer, timestamp: nat)
    requires Ready(c, s) && Recorded(c, s)
    ensures Recorded(c, CompletePair(c, s, timestamp))
  {
    hide DispatchParked, Remember, Recorded, MaybeFinish;
    var p := s.store;
    if timestamp in p.pendingRtk && timestamp in p.pendingImu {
      var pose := c.recover(p.pendingRtk[timestamp], p.pendingImu[timestamp], p.previousOrientation);
      if pose.Some? && (p.latest.Some? ==> p.latest.value in p.poses && p.latest.value < timestamp) {
        var s1 := Unpended(s, timestamp);
        var s2 := s1.(store := Remember(s1.store, timestamp, pose.value));
        FrameRecorded(c, s, s2);
        DispatchRecorded(c, s2);
        FinishRecorded(c, DispatchParked(c, s2));
      } else {
        FrameRecorded(c, s, CompletePair(c, s, timestamp));
      }
    }
  }

  lemma RtkRecorded(c: Config, s: Peer, m: RtkState)
    requires Ready(c, s) && Recorded(c, s)
    ensures Recorded(c, OnRtk(c, s, m))
  {
    hide CompletePair, Recorded;
    var verdict := Accept(s.store.rtk, POSE_PERIOD, m.head);
    if verdict.Accepted? {
      var (r, same) := AcceptBaseIdentity(c, s.(store := s.store.(rtk := verdict.next)), m.head, RtkTopic);
      var joined := r.(store := r.store.(pendingRtk := r.store.pendingRtk[m.head.timestamp := m]));
      FrameRecorded(c, s, joined);
      CompleteRecorded(c, joined, m.head.timestamp);
      FrameRecorded(c, s, r.(log := r.log.(rtkRejected := r.log.rtkRejected + 1)));
    } else {
      FrameRecorded(c, s, OnRtk(c, s, m));
    }
  }

  lemma ImuRecorded(c: Config, s: Peer, m: ImuAttitude)
    requires Ready(c, s) && Recorded(c, s)
    ensures Recorded(c, OnImu(c, s, m))
  {
    hide CompletePair, Recorded;
    var verdict := Accept(s.store.imu, POSE_PERIOD, m.head);
    if verdict.Accepted? {
      var (r, same) := AcceptBaseIdentity(c, s.(store := s.store.(imu := verdict.next)), m.head, ImuTopic);
      var joined := r.(store := r.store.(pendingImu := r.store.pendingImu[m.head.timestamp := m]));
      FrameRecorded(c, s, joined);
      CompleteRecorded(c, joined, m.head.timestamp);
      FrameRecorded(c, s, r.(log := r.log.(imuRejected := r.log.imuRejected + 1)));
    } else {
      FrameRecorded(c, s, OnImu(c, s, m));
    }
  }

  lemma AfterAcceptRecorded(c: Config, s: Peer, w: WheelState, at: real)
    requires Ready(c, s) && Recorded(c, s)
    ensures Recorded(c, AfterAccept(c, s, w, at))
  {
    hide Publish, DispatchParked, NeedsPose, Recorded;
    if s.parked.Some? {
      var s1 := Latch(s, AdvancedWhilePending);
      FrameRecorded(c, s, s1);
      DispatchRecorded(c, s1);
      PublishRecorded(c, DispatchParked(c, s1), w);
    } else {
      PublishRecorded(c, s, w);
      FrameRecorded(c, s, s.(parked := Some(Parked(w, at))));
    }
  }

  lemma WheelRecorded(c: Config, s: Peer, w: WheelState, at: real)
    requires Ready(c, s) && Recorded(c, s)
    ensures Recorded(c, OnWheel(c, s, w, at))
  {
    hide AfterAccept, CheckWheel, Recorded;
    var verdict := Accept(s.wheel, WHEEL_PERIOD, w.head);
    if verdict.Accepted? {
      CheckWheelShape(c, s.(wheel := verdict.next, lastWheel := Some(w.head.timestamp),
                            log := s.log.(accepted := s.log.accepted + [w])), w);
      var r := AcceptWheel(c, s, w, verdict.next);
      FrameRecorded(c, s, r);
      AfterAcceptRecorded(c, r, w, at);
    } else {
      FrameRecorded(c, s, OnWheel(c, s, w, at));
    }
  }

  lemma TimerRecorded(c: Config, s: Peer, now: real)
    requires Ready(c, s) && Recorded(c, s)
    ensures Recorded(c, Service(c, s, now))
  {
    hide DispatchParked, NeedsPose, Recorded;
    FrameRecorded(c, s, Latch(s, PoseStale));
    DispatchRecorded(c, Latch(s, PoseStale));
    DispatchRecorded(c, s);
  }

  lemma ApplyRecorded(c: Config, s: Peer, e: Event)
    requires Ready(c, s) && Recorded(c, s)
    ensures Recorded(c, Apply(c, s, e))
  {
    hide Recorded, OnWheel, OnRtk, OnImu, Service;
    match e
    case WheelArrives(w, at) => WheelRecorded(c, s, w, at);
    case RtkArrives(m) => RtkRecorded(c, s, m);
    case ImuArrives(m) => ImuRecorded(c, s, m);
    case BadPayload(topic) => FrameRecorded(c, s, Latch(s, PayloadInvalid(topic)));
    case OperatorFault(reason) => FrameRecorded(c, s, Latch(s, External(reason)));
    case Tick(now) => TimerRecorded(c, s, now);
  }

  lemma StepRecorded(c: Config, s: Peer, e: Event, r: Peer)
    requires Step(c, s, e, r) && Recorded(c, s)
    ensures Recorded(c, r)
  {
    hide Recorded, Apply;
    ApplyRecorded(c, s, e);
  }

  lemma {:induction false} RunRecorded(c: Config, run: Run, i: nat)
    requires IsRun(c, run) && i < |run.states|
    ensures Recorded(c, run.states[i])
  {
    hide Step;
    if i > 0 {
      hide Recorded;
      RunRecorded(c, run, i - 1);
      var e := run.events[i - 1];
      StepRecorded(c, run.states[i - 1], e, run.states[i]);
    }
  }

  // ----- finishing under a fault -----

  lemma {:induction false} TrailingExactly(readings: seq<bool>, n: nat)
    ensures Trailing(readings) >= n <==> n <= |readings| && forall k :: |readings| - n <= k < |readings| ==> readings[k]
    decreases |readings|
  {
    var last := |readings| - 1;
    if last >= 0 && readings[last] && n > 0 {
      TrailingExactly(readings[..last], n - 1);
    }
  }

  /**
   Once an answer was sent under the fault, the peer is finished exactly when its last twenty readings
   were all quiet.
   */
  lemma FinishedUnderFault(c: Config, run: Run, i: nat)
    requires IsRun(c, run) && i < |run.states| && Readings(run.states[i].log.attempts) != []
    ensures var readings := Readings(run.states[i].log.attempts);
            run.states[i].completion.finished <==>
              |readings| >= 20 && forall k :: |readings| - 20 <= k < |readings| ==> readings[k]
  {
    hide Readings, Trailing;
    RunRecorded(c, run, i);
    TrailingExactly(Readings(run.states[i].log.attempts), 20);
  }

  // ----- a run that finishes and then is unfinished again -----

  /** Wheel state number k; the twenty-first one still moves. */
  function StoppingWheel(k: nat): WheelState {
    WheelState(Header((k + 1) * WHEEL_PERIOD, k, [], 0, []), 0, "df_mid", if k < 20 then [0.0, 0.0] else [1.0, 1.0], [],
               Active, "", [], 1)
  }

  /** An operator's fault, then the wheel states. */
  function StoppingEvent(i: nat): Event {
    if i == 0 then OperatorFault("stop") else WheelArrives(StoppingWheel(i - 1), 0.0)
  }

  function StoppingState(c: Config, i: nat): (s: Peer)
    requires c.Valid()
    ensures Ready(c, s)
  {
    if i == 0 then Initial() else Apply(c, StoppingState(c, i - 1), StoppingEvent(i - 1))
  }

  /** Under a fault an accepted wheel state is answered at once and counts as one reading. */
  lemma ReadingStep(c: Config, s: Peer, w: WheelState, at: real)
    requires Ready(c, s) && s.fault.Some? && s.parked.None? && c.delivery(s.nextSequence).Sent?
    requires Accept(s.wheel, WHEEL_PERIOD, w.head).Accepted?
    ensures var r, quiet := OnWheel(c, s, w, at), if Quiet(s, w) then s.completion.quiet + 1 else 0;
            && r.fault == s.fault && r.parked.None? && r.store == s.store
            && r.wheel == Accept(s.wheel, WHEEL_PERIOD, w.head).next
            && r.completion.quiet == quiet && r.completion.finished == (quiet >= 20)
  {
    CheckWheelShape(c, s.(wheel := Accept(s.wheel, WHEEL_PERIOD, w.head).next, lastWheel := Some(w.head.timestamp),
                          log := s.log.(accepted := s.log.accepted + [w])), w);
    hide CheckWheel, Quiet;
  }

  lemma {:induction false} StoppingCount(c: Config, n: nat)
    requires c.Valid() && (forall k: nat :: c.delivery(k).Sent?) && n <= 20
    ensures var s := StoppingState(c, n + 1);
            && s.fault.Some? && s.parked.None? && s.store == Initial().store
            && s.wheel == Progress(n, if n == 0 then None else Some(n * WHEEL_PERIOD))
            && s.completion.quiet == n && s.completion.finished == (n == 20)
  {
    hide OnWheel;
    if n == 0 {
      assert StoppingState(c, 0) == Initial();
    } else {
      StoppingCount(c, n - 1);
      ReadingStep(c, StoppingState(c, n), StoppingWheel(n - 1), 0.0);
    }
  }

  /**
   With a lossless transport, twenty quiet readings under a fault finish the peer and one moving reading
   undoes it.
   */
  lemma FaultedFinishIsNotStable(c: Config) returns (run: Run)
    requires c.Valid() && forall k: nat :: c.delivery(k).Sent?
    ensures IsRun(c, run) && |run.events| == 22
    ensures run.states[21].completion.finished && !run.states[22].completion.finished
    ensures run.states[21].fault.Some? && run.states[22].fault == run.states[21].fault
  {
    hide Apply;
    run := Run(seq(22, i requires 0 <= i => StoppingEvent(i)), seq(23, i requires 0 <= i => StoppingState(c, i)));
    forall i | 0 <= i < 22 ensures Step(c, run.states[i], run.events[i], run.states[i + 1]) {
    }
    StoppingCount(c, 20);
    LastReading(c);
  }

  lemma LastReading(c: Config)
    requires c.Valid() && forall k: nat :: c.delivery(k).Sent?
    ensures !StoppingState(c, 22).completion.finished && StoppingState(c, 22).fault == StoppingState(c, 21).fault
  {
    hide OnWheel;
    StoppingCount(c, 20);
    ReadingStep(c, StoppingState(c, 21), StoppingWheel(20), 0.0);
    assert StoppingEvent(21) == WheelArrives(StoppingWheel(20), 0.0);
    assert StoppingWheel(20).driveSpeeds[0] == 1.0;
  }

  // ----- the lag watch in runs -----

  /** The remembered lag start of a run is the watch over every distance it observed. */
  lemma LagMemory(c: Config, run: Run, i: nat)
    requires IsRun(c, run) && i < |run.states|
    ensures run.states[i].lagSince == WatchAll(c.route, Samples(run.states[i].log.attempts))
  {
    RunRecorded(c, run, i);
  }

  lemma {:induction false} SamplesInOrder(route: Route, att: seq<Attempt>, bound: nat)
    requires ValidRoute(route) && bound < StopTime(route)
    requires forall k :: 0 <= k < |att| ==> att[k].command.timestamp <= bound
    requires forall i, j :: 0 <= i <= j < |att| ==> att[i].command.timestamp <= att[j].command.timestamp
    ensures BeforeStop(route, Samples(att))
    ensures forall i :: 0 <= i < |Samples(att)| ==> Samples(att)[i].timestamp <= bound
  {
    if att != [] {
      var n := |att| - 1;
      SamplesInOrder(route, att[..n], att[n].command.timestamp);
    }
  }

  lemma LagAt(c: Config, att: seq<Attempt>, k: nat)
    requires c.Valid() && k < |att| && Watched(c, att, k)
    requires att[k].progress.Some? && att[k].command.timestamp < StopTime(c.route)
    requires forall i, j :: 0 <= i <= j < |att| ==> att[i].command.timestamp <= att[j].command.timestamp
    ensures var samples := Samples(att[..k + 1]);
            att[k].fault == Some(RouteFault(Lagging)) <==>
              exists j :: 0 <= j < |samples| && OverFrom(c.route, samples, j) &&
                att[k].command.timestamp - samples[j].timestamp >= 1_000_000_000
  {
    hide Observe, WatchAll, OverFrom, Samples;
    var a, samples := att[k], Samples(att[..k + 1]);
    SamplesInOrder(c.route, att[..k + 1], a.command.timestamp);
    assert att[..k + 1] == att[..k] + [a];
    Snoc(att[..k], a);
    assert samples[..|samples| - 1] == Samples(att[..k]);
    LagLatchedExactly(c.route, samples);
  }

  /** From one observation on, the plan is ahead of every observed distance by more than 0.75 m. */
  ghost predicate LagsFrom(route: Route, samples: seq<Sample>, first: nat)
    requires ValidRoute(route)
  {
    forall i :: first <= i < |samples| ==>
      Scheduled(route, Seconds(samples[i].timestamp)) - samples[i].distance > 0.75
  }

  lemma LagsIsOver(route: Route, samples: seq<Sample>, first: nat)
    requires ValidRoute(route)
    ensures LagsFrom(route, samples, first) == OverFrom(route, samples, first)
  {
    hide Scheduled;
  }

  /**
   In every run an answer before the stop that observed its distance carries the lag fault exactly when
   an unbroken over-limit run of observations, ending with it, spans one second.
   */
  lemma LagLatchedInRuns(c: Config, run: Run, i: nat, k: nat)
    requires IsRun(c, run) && i < |run.states| && k < |run.states[i].log.attempts|
    requires var a := run.states[i].log.attempts[k]; a.progress.Some? && a.command.timestamp < StopTime(c.route)
    ensures var att := run.states[i].log.attempts;
            var samples := Samples(att[..k + 1]);
            att[k].fault == Some(RouteFault(Lagging)) <==>
              exists j :: 0 <= j < |samples| && LagsFrom(c.route, samples, j) &&
                att[k].command.timestamp - samples[j].timestamp >= 1_000_000_000
  {
    hide Inv, Observe, WatchAll, OverFrom, LagsFrom, Samples, Watched;
    RunRecorded(c, run, i);
    RunInv(c, run, i);
    AttemptsOrdered(c, run.states[i]);
    LagAt(c, run.states[i].log.attempts, k);
    var samples := Samples(run.states[i].log.attempts[..k + 1]);
    forall j: nat ensures LagsFrom(c.route, samples, j) == OverFrom(c.route, samples, j) {
      LagsIsOver(c.route, samples, j);
    }
  }
}
