/**
 The simulator's side of the lockstep as it runs: exact periodic schedulers, the command receiver,
 and the main physics loop. The loop's output is proved to be the frozen plan, message by message,
 and the lockstep automaton of `Lockstep` is proved to emit the same plan.
 */
module SimulatorLoop {
  import opened Basics
  import opened GolfPlan
  import opened PeerModel
  import opened PeerInvariants
  import opened Lockstep

  // ----- exact periodic deadlines -----

  const CATCH_UP_LIMIT: nat := 10_000
  const UINT64_MAX: nat := 0xFFFF_FFFF_FFFF_FFFF

  /** Timestamp of the i-th deadline of a stream of the given rate; the first falls after one period. */
  function Deadline(rate: nat, i: nat): nat
    requires rate > 0
  {
    RoundHalfEven((i + 1) * SECOND, rate)
  }

  /** The i-th deadline lies at exactly (i + 1) / rate seconds, compared without rounding. */
  predicate IsDue(rate: nat, i: nat, now: nat) {
    (i + 1) * SECOND <= now * rate
  }

  function Deadlines(rate: nat, n: nat): seq<nat>
    requires rate > 0
  {
    seq(n, i requires 0 <= i => Deadline(rate, i))
  }

  /** How many deadlines from index `next` on are due. */
  function DueCount(rate: nat, next: nat, now: nat): nat
    requires 0 < rate
  {
    if IsDue(rate, next, now) then (now * rate - (next + 1) * SECOND) / SECOND + 1 else 0
  }

  /** How many deadlines are due at an instant. */
  function DueBy(rate: nat, now: Option<nat>): nat {
    if now.None? then 0 else now.value * rate / SECOND
  }

  datatype ScheduleError = NotUint64 | MovedBack | CatchUp

  class PeriodicScheduler {
    const rate: nat
    var next: nat
    var lastNow: Option<nat>
    /** Everything this scheduler has handed out. */
    ghost var issued: seq<nat>

    ghost predicate Valid()
      reads this
    {
      && 0 < rate
      && issued == Deadlines(rate, next)
      && next == DueBy(rate, lastNow)
    }

    constructor (rate: nat)
      requires 1 <= rate <= SECOND
      ensures Valid() && this.rate == rate && next == 0 && lastNow.None? && issued == []
    {
      this.rate := rate;
      next, lastNow, issued := 0, None, [];
    }

    /** Hands out every deadline not after `now` that was not handed out before, each exactly once. */
    method PopDue(now: int) returns (r: Result<seq<nat>, ScheduleError>)
      requires Valid()
      modifies this
      ensures Valid()
      ensures r.Err? ==> next == old(next) && lastNow == old(lastNow) && issued == old(issued)
      ensures r.Ok? <==>
                && 0 <= now <= UINT64_MAX && (old(lastNow).Some? ==> old(lastNow).value <= now)
                && DueCount(rate, old(next), Max(now, 0)) <= CATCH_UP_LIMIT
      ensures r.Ok? ==>
                && lastNow == Some(now) && issued == old(issued) + r.value
                && |r.value| == DueCount(rate, old(next), now)
    {
      if now < 0 || now > UINT64_MAX {
        return Err(NotUint64);
      }
      if lastNow.Some? && now < lastNow.value {
        return Err(MovedBack);
      }
      var count := DueCount(rate, next, now);
      if count > CATCH_UP_LIMIT {
        return Err(CatchUp);
      }
      var first := next;
      var due := seq(count, i requires 0 <= i => Deadline(rate, first + i));
      DueIsComplete(rate, lastNow, now);
      next := next + count;
      lastNow := Some(now);
      issued := issued + due;
      return Ok(due);
    }
  }

  lemma DueIsComplete(rate: nat, lastNow: Option<nat>, now: nat)
    requires 0 < rate && (lastNow.Some? ==> lastNow.value <= now)
    ensures DueBy(rate, lastNow) + DueCount(rate, DueBy(rate, lastNow), now) == DueBy(rate, Some(now))
  {
    if lastNow.Some? {
      LaterIsMore(lastNow.value, now, rate);
    }
    CountToNow(DueBy(rate, lastNow), now * rate);
  }

  lemma CountToNow(next: nat, ahead: nat)
    requires next <= ahead / SECOND
    ensures (if (next + 1) * SECOND <= ahead then (ahead - (next + 1) * SECOND) / SECOND + 1 else 0) ==
              ahead / SECOND - next
  {
  }

  lemma LaterIsMore(a: nat, b: nat, rate: nat)
    requires a <= b
    ensures a * rate / SECOND <= b * rate / SECOND
  {
    assert a * rate <= b * rate;
  }

  /** A scheduler has issued exactly the deadlines that are due at the last instant it saw. */
  lemma IssuedIsDue(rate: nat, now: nat, i: nat)
    requires 0 < rate
    ensures IsDue(rate, i, now) <==> i < DueBy(rate, Some(now))
  {
    var ahead := now * rate;
    assert IsDue(rate, i, now) <==> (i + 1) * SECOND <= ahead;
    assert (i + 1) * SECOND <= ahead <==> i + 1 <= ahead / SECOND;
  }

  // ----- the 240 Hz cadence -----

  /** The simulated instant after n physics steps, as the clock rounds it. */
  function StepTime(n: nat): nat {
    RoundHalfEven(n * SECOND, 240)
  }

  lemma StepTimeBounds(n: nat)
    ensures -1 <= 3 * StepTime(n) - n * 12_500_000 <= 1
  {
    assert n * SECOND == (n * 12_500_000) * 80;
    var q, r := n * SECOND / 240, n * SECOND % 240;
    assert n * SECOND == q * 240 + r;
  }

  lemma ExactRates(i: nat)
    ensures Deadline(100, i) == (i + 1) * WHEEL_PERIOD && Deadline(10, i) == (i + 1) * POSE_PERIOD
  {
    assert (i + 1) * SECOND == ((i + 1) * WHEEL_PERIOD) * 100;
    assert (i + 1) * SECOND == ((i + 1) * POSE_PERIOD) * 10;
  }

  datatype PublishBatch = PublishBatch(wheels: seq<nat>, sensors: seq<nat>)

  /** What falls due in the physics step after n steps: at most one wheel state and one sensor frame. */
  function BatchAfter(n: nat): PublishBatch {
    PublishBatch(if 5 * (n + 1) / 12 > 5 * n / 12 then [5 * (n + 1) / 12 * WHEEL_PERIOD] else [],
                 if (n + 1) % 24 == 0 then [(n + 1) / 24 * POSE_PERIOD] else [])
  }

  /** Rounding the clock to nanoseconds never moves a step across a 10 ms or 100 ms deadline. */
  lemma DueAfterSteps(n: nat)
    ensures DueBy(100, Some(StepTime(n))) == 5 * n / 12
    ensures DueBy(10, Some(StepTime(n))) == n / 24
  {
    StepTimeBounds(n);
  }

  lemma DueInStep(n: nat)
    ensures DueCount(100, 5 * n / 12, StepTime(n + 1)) == 5 * (n + 1) / 12 - 5 * n / 12 <= 1
    ensures DueCount(10, n / 24, StepTime(n + 1)) == (n + 1) / 24 - n / 24 <= 1
  {
    StepTimeBounds(n + 1);
  }

  lemma StepFacts(n: nat)
    ensures StepTime(n) <= StepTime(n + 1)
    ensures DueBy(100, if n == 0 then None else Some(StepTime(n))) == 5 * n / 12
    ensures DueBy(10, if n == 0 then None else Some(StepTime(n))) == n / 24
    ensures DueCount(100, 5 * n / 12, StepTime(n + 1)) == 5 * (n + 1) / 12 - 5 * n / 12 <= 1
    ensures DueCount(10, n / 24, StepTime(n + 1)) == (n + 1) / 24 - n / 24 <= 1
    ensures Deadline(100, 5 * n / 12) == (5 * n / 12 + 1) * WHEEL_PERIOD &&
              Deadline(10, n / 24) == (n / 24 + 1) * POSE_PERIOD
    ensures (n + 1) % 24 == 0 <==> (n + 1) / 24 == n / 24 + 1
  {
    DueAfterSteps(n);
    DueInStep(n);
    ExactRates(5 * n / 12);
    ExactRates(n / 24);
    StepTimeBounds(n);
    StepTimeBounds(n + 1);
  }

  class PublishCadence {
    var steps: nat
    const wheel: PeriodicScheduler
    const sensor: PeriodicScheduler

    ghost predicate Valid()
      reads this, wheel, sensor
    {
      && wheel != sensor && wheel.rate == 100 && sensor.rate == 10
      && wheel.Valid() && sensor.Valid()
      && wheel.lastNow == sensor.lastNow == if steps == 0 then None else Some(StepTime(steps))
    }

    constructor ()
      ensures Valid() && steps == 0 && fresh(wheel) && fresh(sensor)
    {
      steps := 0;
      wheel := new PeriodicScheduler(100);
      sensor := new PeriodicScheduler(10);
    }

    /** One physics step; the clock's 64-bit limit is the only way it can fail. */
    method Advance() returns (r: Option<PublishBatch>)
      requires Valid()
      modifies this, wheel, sensor
      ensures Valid()
      ensures r.Some? <==> StepTime(old(steps) + 1) <= UINT64_MAX
      ensures r.Some? ==> steps == old(steps) + 1 && r.value == BatchAfter(old(steps))
      ensures r.None? ==> steps == old(steps)
    {
      ghost var n := steps;
      StepFacts(n);
      hide StepTime, DueBy, DueCount, Deadline;
      var now := StepTime(steps + 1);
      if now > UINT64_MAX {
        return None;
      }
      var wheels := wheel.PopDue(now);
      var sensors := sensor.PopDue(now);
      if wheels.Err? || sensors.Err? {
        assert false;
        return None;
      }
      steps := steps + 1;
      assert |wheels.value| == 1 ==> wheels.value[0] == wheel.issued[5 * n / 12];
      assert |sensors.value| == 1 ==> sensors.value[0] == sensor.issued[n / 24];
      return Some(PublishBatch(wheels.value, sensors.value));
    }
  }

  // ----- the frozen output plan -----

  datatype Output = RtkOut(timestamp: nat) | ImuOut(timestamp: nat) | WheelOut(timestamp: nat) | LidarOut(timebase: nat)

  /** What one tick adds: its wheel state, and on every tenth tick the finished frame and the next pose. */
  function TickOutputs(k: nat): seq<Output>
    requires k > 0
  {
    [WheelOut(k * WHEEL_PERIOD)] + if k % 10 == 0 then FrameOutputs(k / 10) else []
  }

  function FrameOutputs(m: nat): seq<Output>
    requires m > 0
  {
    [LidarOut((m - 1) * POSE_PERIOD), RtkOut(m * POSE_PERIOD), ImuOut(m * POSE_PERIOD)]
  }

  /** Everything published up to and including tick k. */
  function OutputPlan(k: nat): seq<Output> {
    if k == 0 then [RtkOut(0), ImuOut(0)] else OutputPlan(k - 1) + TickOutputs(k)
  }

  /** The counts the loop keeps; the command topic is not its own. */
  function PublishedAt(k: nat): TopicCounts {
    TopicCounts(0, k, k / 10, k / 10 + 1, k / 10 + 1)
  }

  lemma {:induction false} PlanGrows(k: nat, n: nat)
    requires k <= n
    ensures OutputPlan(k) <= OutputPlan(n)
    decreases n
  {
    if k < n {
      PlanGrows(k, n - 1);
    }
  }

  function WheelTimes(outputs: seq<Output>): seq<nat> {
    if outputs == [] then []
    else WheelTimes(outputs[..|outputs| - 1]) +
         if outputs[|outputs| - 1].WheelOut? then [outputs[|outputs| - 1].timestamp] else []
  }

  function RtkTimes(outputs: seq<Output>): seq<nat> {
    if outputs == [] then []
    else RtkTimes(outputs[..|outputs| - 1]) +
         if outputs[|outputs| - 1].RtkOut? then [outputs[|outputs| - 1].timestamp] else []
  }

  function ImuTimes(outputs: seq<Output>): seq<nat> {
    if outputs == [] then []
    else ImuTimes(outputs[..|outputs| - 1]) +
         if outputs[|outputs| - 1].ImuOut? then [outputs[|outputs| - 1].timestamp] else []
  }

  function LidarTimes(outputs: seq<Output>): seq<nat> {
    if outputs == [] then []
    else LidarTimes(outputs[..|outputs| - 1]) +
         if outputs[|outputs| - 1].LidarOut? then [outputs[|outputs| - 1].timebase] else []
  }

  /** The multiples of a period from `first` on. */
  function Multiples(first: nat, count: nat, period: nat): seq<nat> {
    seq(count, i requires 0 <= i => (first + i) * period)
  }

  lemma NoMultiples()
    ensures forall first, period :: Multiples(first, 0, period) == []
  {
  }

  lemma MultiplesGrow(first: nat, count: nat, period: nat)
    ensures Multiples(first, count + 1, period) == Multiples(first, count, period) + [(first + count) * period]
  {
  }

  lemma TimesSnoc(outputs: seq<Output>, o: Output)
    ensures WheelTimes(outputs + [o]) == WheelTimes(outputs) + if o.WheelOut? then [o.timestamp] else []
    ensures RtkTimes(outputs + [o]) == RtkTimes(outputs) + if o.RtkOut? then [o.timestamp] else []
    ensures ImuTimes(outputs + [o]) == ImuTimes(outputs) + if o.ImuOut? then [o.timestamp] else []
    ensures LidarTimes(outputs + [o]) == LidarTimes(outputs) + if o.LidarOut? then [o.timebase] else []
  {
    assert (outputs + [o])[..|outputs|] == outputs;
  }

  /** So many wheel states and whole frames, each topic at its period; poses also mark the start. */
  ghost predicate ByTopic(outputs: seq<Output>, ticks: nat, frames: nat) {
    && WheelTimes(outputs) == Multiples(1, ticks, 10_000_000)
    && LidarTimes(outputs) == Multiples(0, frames, 100_000_000)
    && RtkTimes(outputs) == ImuTimes(outputs) == Multiples(0, frames + 1, 100_000_000)
  }

  lemma StartByTopic()
    ensures ByTopic([RtkOut(0), ImuOut(0)], 0, 0)
  {
    hide WheelTimes, RtkTimes, ImuTimes, LidarTimes, Multiples;
    NoMultiples();
    NoTimes();
    MultiplesGrow(0, 0, 100_000_000);
    TimesSnoc([], RtkOut(0));
    TimesSnoc([RtkOut(0)], ImuOut(0));
    assert [] + [RtkOut(0)] == [RtkOut(0)] && [RtkOut(0)] + [ImuOut(0)] == [RtkOut(0), ImuOut(0)];
  }

  lemma WheelByTopic(outputs: seq<Output>, k: nat, frames: nat)
    requires k > 0 && ByTopic(outputs, k - 1, frames)
    ensures ByTopic(outputs + [WheelOut(k * WHEEL_PERIOD)], k, frames)
  {
    hide WheelTimes, RtkTimes, ImuTimes, LidarTimes, Multiples;
    TimesSnoc(outputs, WheelOut(k * WHEEL_PERIOD));
    MultiplesGrow(1, k - 1, 10_000_000);
  }

  lemma FrameByTopic(outputs: seq<Output>, ticks: nat, m: nat)
    requires m > 0 && ByTopic(outputs, ticks, m - 1)
    ensures ByTopic(outputs + FrameOutputs(m), ticks, m)
  {
    hide WheelTimes, RtkTimes, ImuTimes, LidarTimes, Multiples, FrameOutputs;
    FrameTimes(outputs, m);
    MultiplesGrow(0, m - 1, 100_000_000);
    MultiplesGrow(0, m, 100_000_000);
  }

  /** Topic by topic the plan is one message per 10 ms or per 100 ms; poses also mark the end. */
  lemma {:induction false} PlanByTopic(k: nat)
    ensures ByTopic(OutputPlan(k), k, k / 10)
  {
    hide ByTopic, FrameOutputs;
    if k == 0 {
      StartByTopic();
    } else {
      PlanByTopic(k - 1);
      var before, wheel := OutputPlan(k - 1), WheelOut(k * WHEEL_PERIOD);
      WheelByTopic(before, k, (k - 1) / 10);
      if k % 10 == 0 {
        FrameByTopic(before + [wheel], k, k / 10);
        assert OutputPlan(k) == before + [wheel] + FrameOutputs(k / 10);
      } else {
        assert OutputPlan(k) == before + [wheel];
      }
    }
  }

  lemma NoTimes()
    ensures WheelTimes([]) == RtkTimes([]) == ImuTimes([]) == LidarTimes([]) == []
  {
  }

  lemma FrameTimes(sent: seq<Output>, m: nat)
    requires m > 0
    ensures var all := sent + FrameOutputs(m);
            && WheelTimes(all) == WheelTimes(sent)
            && LidarTimes(all) == LidarTimes(sent) + [(m - 1) * POSE_PERIOD]
            && RtkTimes(all) == RtkTimes(sent) + [m * POSE_PERIOD]
            && ImuTimes(all) == ImuTimes(sent) + [m * POSE_PERIOD]
  {
    hide WheelTimes, RtkTimes, ImuTimes, LidarTimes;
    var lidar, rtk, imu := LidarOut((m - 1) * POSE_PERIOD), RtkOut(m * POSE_PERIOD), ImuOut(m * POSE_PERIOD);
    TimesSnoc(sent, lidar);
    TimesSnoc(sent + [lidar], rtk);
    TimesSnoc(sent + [lidar] + [rtk], imu);
    assert sent + FrameOutputs(m) == sent + [lidar] + [rtk] + [imu];
  }

  // ----- the command receiver -----

  datatype Poll = Arrived | StillWaiting | FaultSeen | Passed | TimedOut

  class OfflineWheelCommandReceiver {
    var faulted: bool
    var latest: Option<nat>

    constructor ()
      ensures !faulted && latest.None?
    {
      faulted, latest := false, None;
    }

    /** `decoded` is None when the payload does not decode; `taken` is the controller's verdict. */
    method AcceptPayload(decoded: Option<WheelCommand>, taken: bool) returns (accepted: bool)
      modifies this
      ensures accepted == (decoded.Some? && taken)
      ensures faulted == (old(faulted) || !accepted)
      ensures latest == if accepted then Some(decoded.value.timestamp) else old(latest)
    {
      if decoded.None? {
        faulted := true;
        return false;
      }
      if !taken {
        faulted := true;
      } else {
        latest := Some(decoded.value.timestamp);
      }
      return taken;
    }

    /** One pass of the waiting loop; an arrived command wins over a fault, a fault over the rest. */
    method PollCommand(timestamp: nat, remaining: real) returns (r: Poll)
      ensures r == Arrived <==> latest == Some(timestamp)
      ensures r == FaultSeen <==> latest != Some(timestamp) && faulted
      ensures r == Passed <==> !faulted && latest.Some? && latest.value > timestamp
      ensures r == TimedOut <==> !faulted && (latest.Some? ==> latest.value < timestamp) && remaining <= 0.0
    {
      if latest == Some(timestamp) {
        return Arrived;
      }
      if faulted {
        return FaultSeen;
      }
      if latest.Some? && latest.value > timestamp {
        return Passed;
      }
      return if remaining <= 0.0 then TimedOut else StillWaiting;
    }
  }

  // ----- the main physics loop -----

  /** What the world reports during one physics step; a garbled fault marker is no valid marker. */
  datatype StepNews = StepNews(closed: bool, garbled: bool, marked: bool, unsafe: bool, settled: bool, dropped: bool)

  predicate Calm(news: StepNews) {
    !news.closed && !news.garbled && !news.marked && !news.unsafe && !news.dropped
  }

  /**
   What the loop asks of its surroundings: whether the command of an instant arrives in time, whether
   the transport takes output number i, and whether the pose of a frame start can be recovered.
   */
  datatype Surroundings = Surroundings(answered: nat -> bool, carries: nat -> bool, recovers: nat -> bool)

  /** Exceptions that end the loop: four caused from outside, and five that are guards of the code itself. */
  datatype Raise =
    | NoAnswer(timestamp: nat)
    | Rejected(output: nat)
    | Unrecovered(timestamp: nat)
    | MarkerInvalid
    | ScanOutOfStep
    | CadenceDiverged
    | ClockOverflow
    | EndedEarly
    | CountsDiffer

  /** The frame being scanned: its start and the next of its 24 physics steps. */
  datatype PendingFrame = PendingFrame(timebase: nat, nextStep: nat, finalized: bool)

  function StepsOf(duration: nat): nat {
    duration * 240 / SECOND
  }

  function TicksAfter(steps: nat): nat {
    5 * steps / 12
  }

  lemma WindowSteps(duration: nat)
    requires duration % POSE_PERIOD == 0
    ensures StepsOf(duration) == duration / POSE_PERIOD * 24
    ensures TicksAfter(StepsOf(duration)) == duration / WHEEL_PERIOD
  {
    assert duration == duration / POSE_PERIOD * POSE_PERIOD;
  }

  /** Ticks in terms of whole frames of 24 physics steps. */
  lemma TicksInFrames(q: nat, r: nat)
    requires r <= 24
    ensures TicksAfter(24 * q + r) == 10 * q + 5 * r / 12
  {
    assert 5 * (24 * q + r) == (10 * q) * 12 + 5 * r;
  }

  lemma FrameSteps(q: nat, r: nat)
    requires r < 24
    ensures (24 * q + r) / 24 == q && (24 * q + r) % 24 == r
  {
  }

  lemma BatchWheels(n: nat)
    ensures BatchAfter(n).wheels == if TicksAfter(n + 1) > TicksAfter(n) then [TicksAfter(n + 1) * WHEEL_PERIOD] else []
  {
  }

  /** One physics step adds at most one tick, and a frame exactly when its 24 steps are complete. */
  lemma StepTicks(n: nat)
    ensures TicksAfter(n) <= TicksAfter(n + 1) <= TicksAfter(n) + 1
    ensures BatchAfter(n).wheels == if TicksAfter(n + 1) > TicksAfter(n) then [TicksAfter(n + 1) * WHEEL_PERIOD] else []
    ensures TicksAfter(n) / 10 == n / 24
    ensures if n % 24 == 23 then
              TicksAfter(n + 1) == 10 * (n / 24 + 1) == TicksAfter(n) + 1 && (n + 1) / 24 == n / 24 + 1 &&
                (n + 1) % 24 == 0
            else
              (n + 1) / 24 == n / 24 && (n + 1) % 24 == n % 24 + 1 &&
                (TicksAfter(n + 1) > TicksAfter(n) ==> TicksAfter(n + 1) % 10 != 0)
  {
    hide TicksAfter, BatchAfter;
    BatchWheels(n);
    var q, r := n / 24, n % 24;
    assert n == 24 * q + r;
    TicksInFrames(q, r);
    TicksInFrames(q, r + 1);
    if r == 23 {
      FrameSteps(q + 1, 0);
    } else {
      FrameSteps(q, r + 1);
    }
  }

  function WheelOuts(timestamps: seq<nat>): seq<Output> {
    seq(|timestamps|, i requires 0 <= i < |timestamps| => WheelOut(timestamps[i]))
  }

  /** The part of the loop's state that finishing a frame changes. */
  datatype Feed = Feed(sent: seq<Output>, published: TopicCounts, pending: PendingFrame)

  function FrameGuard(pending: PendingFrame, timestamp: nat): Option<Raise> {
    if timestamp != pending.timebase + POSE_PERIOD then Some(CadenceDiverged)
    else if pending.finalized || pending.nextStep != 24 then Some(ScanOutOfStep)
    else None
  }

  function AfterFrame(duration: nat, f: Feed, timestamp: nat): Feed {
    Feed(f.sent + [LidarOut(f.pending.timebase), RtkOut(timestamp), ImuOut(timestamp)],
         f.published.(lidar := f.published.lidar + 1, rtk := f.published.rtk + 1, imu := f.published.imu + 1),
         if timestamp < duration then PendingFrame(timestamp, 0, false) else f.pending.(finalized := true))
  }

  function AfterFrames(duration: nat, f: Feed, timestamps: seq<nat>): (Feed, Option<Raise>)
    decreases |timestamps|
  {
    if timestamps == [] then (f, None)
    else if FrameGuard(f.pending, timestamps[0]).Some? then (f, FrameGuard(f.pending, timestamps[0]))
    else AfterFrames(duration, AfterFrame(duration, f, timestamps[0]), timestamps[1..])
  }

  lemma StepTicksWithin(n: nat, duration: nat)
    requires n < StepsOf(duration) && duration % POSE_PERIOD == 0
    ensures TicksAfter(n + 1) <= duration / WHEEL_PERIOD
    ensures n + 1 < StepsOf(duration) <==> (n + 1) / 24 * POSE_PERIOD < duration
  {
    WindowSteps(duration);
    assert duration == duration / POSE_PERIOD * POSE_PERIOD;
  }

  /** The loop's feed after n whole physics steps, with the next step already captured. */
  function CapturedFeed(n: nat): Feed {
    Feed(OutputPlan(TicksAfter(n)), PublishedAt(TicksAfter(n)), PendingFrame(n / 24 * POSE_PERIOD, n % 24 + 1, false))
  }

  function AfterWheels(f: Feed, timestamps: seq<nat>): Feed {
    f.(sent := f.sent + WheelOuts(timestamps), published := f.published.(wheel := f.published.wheel + |timestamps|))
  }

  /** The feed is the plan's after n physics steps. */
  ghost predicate OnPlan(f: Feed, n: nat, duration: nat) {
    && f.sent == OutputPlan(TicksAfter(n)) && f.published == PublishedAt(TicksAfter(n))
    && (n < StepsOf(duration) ==> f.pending == PendingFrame(n / 24 * POSE_PERIOD, n % 24, false))
  }

  /** Everything one physics step publishes meets the plan again. */
  lemma StepOutputs(n: nat, duration: nat)
    requires n < StepsOf(duration) && duration % POSE_PERIOD == 0
    ensures var after := AfterFrames(duration, AfterWheels(CapturedFeed(n), BatchAfter(n).wheels),
              BatchAfter(n).sensors);
            after.1.None? && OnPlan(after.0, n + 1, duration)
  {
    StepTicks(n);
    StepTicksWithin(n, duration);
    var wheels, t, u := BatchAfter(n).wheels, TicksAfter(n), TicksAfter(n + 1);
    var f := AfterWheels(CapturedFeed(n), wheels);
    if wheels == [] {
      assert BatchAfter(n).sensors == [];
      assert f.sent == OutputPlan(u);
      hide TicksAfter, StepsOf;
    } else {
      assert WheelOuts(wheels) == [WheelOut(u * WHEEL_PERIOD)];
      assert f.sent == OutputPlan(t) + [WheelOut(u * WHEEL_PERIOD)];
      if n % 24 == 23 {
        FrameOnPlan(n, duration, f);
      } else {
        assert BatchAfter(n).sensors == [];
        hide TicksAfter, StepsOf;
      }
    }
  }

  lemma FrameOnPlan(n: nat, duration: nat, f: Feed)
    requires n < StepsOf(duration) && duration % POSE_PERIOD == 0 && n % 24 == 23
    requires var u := TicksAfter(n + 1);
             u > 0 && f == Feed(OutputPlan(u - 1) + [WheelOut(u * WHEEL_PERIOD)], PublishedAt(u - 1).(wheel := u),
                                PendingFrame(n / 24 * POSE_PERIOD, 24, false))
    ensures var after := AfterFrames(duration, f, BatchAfter(n).sensors);
            after.1.None? && OnPlan(after.0, n + 1, duration)
  {
    StepTicks(n);
    StepTicksWithin(n, duration);
    var q := (n + 1) / 24;
    assert BatchAfter(n).sensors == [q * POSE_PERIOD] && TicksAfter(n + 1) == 10 * q && n / 24 == q - 1;
    hide TicksAfter, StepsOf, BatchAfter, OutputPlan, PublishedAt, AfterFrame;
    FrameMeets(duration, q, f);
    OneFrame(duration, f, q * POSE_PERIOD);
  }

  lemma FrameMeets(duration: nat, q: nat, f: Feed)
    requires q > 0
    requires f == Feed(OutputPlan(10 * q - 1) + [WheelOut(10 * q * WHEEL_PERIOD)],
               PublishedAt(10 * q - 1).(wheel := 10 * q),
                       PendingFrame((q - 1) * POSE_PERIOD, 24, false))
    ensures FrameGuard(f.pending, q * POSE_PERIOD).None?
    ensures var r := AfterFrame(duration, f, q * POSE_PERIOD);
            && r.sent == OutputPlan(10 * q) && r.published == PublishedAt(10 * q)
            && (q * POSE_PERIOD < duration ==> r.pending == PendingFrame(q * POSE_PERIOD, 0, false))
  {
    assert (10 * q) / 10 == q && (10 * q - 1) / 10 == q - 1;
    PlanUnfolds(10 * q);
  }

  lemma OneFrame(duration: nat, f: Feed, timestamp: nat)
    requires FrameGuard(f.pending, timestamp).None?
    ensures AfterFrames(duration, f, [timestamp]) == (AfterFrame(duration, f, timestamp), None)
  {
    assert [timestamp][1..] == [];
  }

  /** The loop gave up while waiting for the command of one tick, right after sending its wheel state. */
  ghost predicate CutAt(duration: nat, answered: nat -> bool, raised: Raise, sent: seq<Output>) {
    raised.NoAnswer? && !answered(raised.timestamp) &&
    var k := raised.timestamp / WHEEL_PERIOD;
    0 < k <= duration / WHEEL_PERIOD && raised.timestamp == k * WHEEL_PERIOD &&
      sent == OutputPlan(k - 1) + [WheelOut(raised.timestamp)]
  }

  lemma StepCut(n: nat, duration: nat, answered: nat -> bool, count: nat)
    requires n < StepsOf(duration) && duration % POSE_PERIOD == 0
    requires 0 < count <= |BatchAfter(n).wheels| && !answered(BatchAfter(n).wheels[count - 1])
    ensures CutAt(duration, answered, NoAnswer(BatchAfter(n).wheels[count - 1]),
                  AfterWheels(CapturedFeed(n), BatchAfter(n).wheels[..count]).sent)
  {
    StepTicks(n);
    StepTicksWithin(n, duration);
    hide TicksAfter, StepsOf, BatchAfter, OutputPlan, PublishedAt;
    var u := TicksAfter(n + 1);
    assert BatchAfter(n).wheels[..count] == [u * WHEEL_PERIOD];
    assert WheelOuts([u * WHEEL_PERIOD]) == [WheelOut(u * WHEEL_PERIOD)];
  }

  lemma {:induction false} FeedsGrow(duration: nat, f: Feed, timestamps: seq<nat>)
    ensures f.sent <= AfterFrames(duration, f, timestamps).0.sent
    decreases |timestamps|
  {
    if timestamps != [] && FrameGuard(f.pending, timestamps[0]).None? {
      FeedsGrow(duration, AfterFrame(duration, f, timestamps[0]), timestamps[1..]);
    }
  }

  /** Everything one step publishes, stopped anywhere, stays within the whole plan. */
  lemma StepPrefix(n: nat, duration: nat, count: nat)
    requires n < StepsOf(duration) && duration % POSE_PERIOD == 0 && count <= |BatchAfter(n).wheels|
    ensures var f := AfterWheels(CapturedFeed(n), BatchAfter(n).wheels);
            && AfterWheels(CapturedFeed(n), BatchAfter(n).wheels[..count]).sent <= f.sent
            && f.sent <= AfterFrames(duration, f, BatchAfter(n).sensors).0.sent <= OutputPlan(duration / WHEEL_PERIOD)
  {
    StepOutputs(n, duration);
    StepTicksWithin(n, duration);
    hide BatchAfter, StepsOf, OutputPlan, AfterFrames, TicksAfter, PublishedAt;
    var wheels, f := BatchAfter(n).wheels, AfterWheels(CapturedFeed(n), BatchAfter(n).wheels);
    FeedsGrow(duration, f, BatchAfter(n).sensors);
    PlanGrows(TicksAfter(n + 1), duration / WHEEL_PERIOD);
    assert WheelOuts(wheels) == WheelOuts(wheels[..count]) + WheelOuts(wheels[count..]);
  }

  /** An exception with its outside cause, and what was sent by then is within the plan. */
  ghost predicate Excused(duration: nat, lockstep: bool, env: Surroundings, raised: Raise, sent: seq<Output>) {
    && sent <= OutputPlan(duration / WHEEL_PERIOD)
    && match raised
       case NoAnswer(_) => lockstep && CutAt(duration, env.answered, raised, sent)
       case Rejected(i) => i == |sent| && !env.carries(i)
       case Unrecovered(timestamp) => !env.recovers(timestamp)
       case _ => false
  }

  /** The exceptions of publishing a finished frame. */
  predicate FrameRaise(env: Surroundings, raised: Raise, sent: seq<Output>) {
    (raised.Unrecovered? && !env.recovers(raised.timestamp)) || (raised == Rejected(|sent|) && !env.carries(|sent|))
  }

  /** The main loop's state; `duration` is the window and `lockstep` whether a command is awaited per tick. */
  class CollectionWindow {
    const duration: nat
    const lockstep: bool
    const cadence: PublishCadence
    var sent: seq<Output>
    var published: TopicCounts
    var pending: PendingFrame
    var completed: nat
    var fault: bool

    ghost function Repr(): set<object> {
      {this, cadence, cadence.wheel, cadence.sensor}
    }

    function FeedNow(): Feed
      reads `sent, `published, `pending
    {
      Feed(sent, published, pending)
    }

    /** After n whole physics steps exactly the plan up to their ticks was sent. */
    ghost predicate At(n: nat)
      reads `sent, `published, `pending, `completed, cadence, cadence.wheel, cadence.sensor
    {
      true ==
        (&& duration % POSE_PERIOD == 0 && duration <= MAX_SIMULATION
         && n <= StepsOf(duration) && n == completed == cadence.steps
         && cadence.Valid()
         && OnPlan(FeedNow(), n, duration))
    }

    constructor (duration: nat, lockstep: bool)
      requires duration % POSE_PERIOD == 0 && duration <= MAX_SIMULATION
      ensures At(0) && !fault && this.duration == duration && this.lockstep == lockstep
      ensures fresh(Repr())
    {
      this.duration, this.lockstep := duration, lockstep;
      cadence := new PublishCadence();
      sent := [RtkOut(0), ImuOut(0)];
      published := TopicCounts(0, 0, 0, 1, 1);
      pending := PendingFrame(0, 0, false);
      completed, fault := 0, false;
    }

    /** Publishes each due wheel state and, in lockstep, waits for its command before the next. */
    method PublishWheels(timestamps: seq<nat>, env: Surroundings) returns (raised: Option<Raise>, count: nat)
      modifies this`sent, this`published
      ensures count <= |timestamps| && sent == old(sent) + WheelOuts(timestamps[..count])
      ensures published == old(published).(wheel := old(published).wheel + count)
      ensures raised.None? ==> count == |timestamps|
      ensures raised.Some? ==>
                || (lockstep && count > 0 && !env.answered(timestamps[count - 1]) &&
                     raised == Some(NoAnswer(timestamps[count - 1])))
                || (raised == Some(Rejected(|sent|)) && !env.carries(|sent|))
      ensures lockstep && raised.None? ==> forall i :: 0 <= i < |timestamps| ==> env.answered(timestamps[i])
    {
      count := 0;
      raised := None;
      while count < |timestamps|
        invariant count <= |timestamps| && sent == old(sent) + WheelOuts(timestamps[..count])
        invariant published == old(published).(wheel := old(published).wheel + count)
        invariant lockstep ==> forall i :: 0 <= i < count ==> env.answered(timestamps[i])
      {
        if !env.carries(|sent|) {
          return Some(Rejected(|sent|)), count;
        }
        sent := sent + [WheelOut(timestamps[count])];
        published := published.(wheel := published.wheel + 1);
        count := count + 1;
        assert WheelOuts(timestamps[..count]) == WheelOuts(timestamps[..count - 1]) + [WheelOut(timestamps[count - 1])];
        if lockstep && !env.answered(timestamps[count - 1]) {
          return Some(NoAnswer(timestamps[count - 1])), count;
        }
      }
    }

    /** Closes the scanned frame, publishes it, and publishes the pose that starts the next one. */
    method FinishFrame(timestamp: nat, env: Surroundings) returns (raised: Option<Raise>)
      modifies this`sent, this`published, this`pending
      ensures FrameGuard(old(pending), timestamp).Some? ==>
                raised == FrameGuard(old(pending), timestamp) && FeedNow() == old(FeedNow())
      ensures FrameGuard(old(pending), timestamp).None? && raised.None? ==>
                FeedNow() == AfterFrame(duration, old(FeedNow()), timestamp)
      ensures FrameGuard(old(pending), timestamp).None? && raised.Some? ==>
                && old(sent) <= sent <= AfterFrame(duration, old(FeedNow()), timestamp).sent
                && FrameRaise(env, raised.value, sent)
    {
      if timestamp != pending.timebase + POSE_PERIOD {
        return Some(CadenceDiverged);
      }
      if pending.finalized || pending.nextStep != 24 {
        return Some(ScanOutOfStep);
      }
      pending := pending.(finalized := true);
      if !env.recovers(timestamp) {
        return Some(Unrecovered(timestamp));
      }
      if !env.carries(|sent|) {
        return Some(Rejected(|sent|));
      }
      sent := sent + [LidarOut(pending.timebase)];
      published := published.(lidar := published.lidar + 1);
      if timestamp < duration {
        pending := PendingFrame(timestamp, 0, false);
      }
      if !env.carries(|sent|) {
        return Some(Rejected(|sent|));
      }
      sent := sent + [RtkOut(timestamp)];
      if !env.carries(|sent|) {
        return Some(Rejected(|sent|));
      }
      sent := sent + [ImuOut(timestamp)];
      published := published.(rtk := published.rtk + 1, imu := published.imu + 1);
      return None;
    }

    method PublishSensors(timestamps: seq<nat>, env: Surroundings) returns (raised: Option<Raise>)
      requires AfterFrames(duration, FeedNow(), timestamps).1.None?
      modifies this`sent, this`published, this`pending
      ensures raised.None? ==> FeedNow() == AfterFrames(duration, old(FeedNow()), timestamps).0
      ensures raised.Some? ==>
                && sent <= AfterFrames(duration, old(FeedNow()), timestamps).0.sent
                && FrameRaise(env, raised.value, sent)
    {
      raised := None;
      var i := 0;
      while i < |timestamps|
        invariant i <= |timestamps| && raised.None?
        invariant AfterFrames(duration, FeedNow(), timestamps[i..]) == AfterFrames(duration, old(FeedNow()), timestamps)
      {
        assert timestamps[i..][0] == timestamps[i] && timestamps[i..][1..] == timestamps[i + 1..];
        FeedsGrow(duration, AfterFrame(duration, FeedNow(), timestamps[i]), timestamps[i + 1..]);
        raised := FinishFrame(timestamps[i], env);
        if raised.Some? {
          return;
        }
        i := i + 1;
      }
    }

    /** Publishes what fell due in the step after n steps. */
    method PublishDue(ghost n: nat, batch: PublishBatch, env: Surroundings) returns (raised: Option<Raise>)
      requires n < StepsOf(duration) && duration % POSE_PERIOD == 0 && batch == BatchAfter(n) &&
                 FeedNow() == CapturedFeed(n)
      modifies this`sent, this`published, this`pending
      ensures raised.None? ==> OnPlan(FeedNow(), n + 1, duration)
      ensures raised.None? && lockstep ==> forall i :: 0 <= i < |batch.wheels| ==> env.answered(batch.wheels[i])
      ensures raised.Some? ==> Excused(duration, lockstep, env, raised.value, sent)
    {
      StepOutputs(n, duration);
      hide BatchAfter, CapturedFeed, OnPlan, StepsOf, AfterFrames, WheelOuts, CutAt, OutputPlan;
      var count;
      raised, count := PublishWheels(batch.wheels, env);
      StepPrefix(n, duration, count);
      if raised.Some? {
        if raised.value.NoAnswer? {
          StepCut(n, duration, env.answered, count);
        }
        return;
      }
      assert batch.wheels[..count] == batch.wheels;
      raised := PublishSensors(batch.sensors, env);
    }

    /** One physics step up to its last publication. */
    method Advance(env: Surroundings) returns (raised: Option<Raise>)
      requires At(completed) && completed < StepsOf(duration)
      modifies Repr()
      ensures fault == old(fault)
      ensures raised.None? ==> At(old(completed) + 1) && completed == old(completed) + 1
      ensures raised.Some? ==> Excused(duration, lockstep, env, raised.value, sent)
    {
      ghost var n := completed;
      ClockFits(n, duration);
      hide BatchAfter, StepTime, OutputPlan, PublishedAt, TicksAfter, StepsOf, Excused;
      if completed % 24 != pending.nextStep || pending.finalized {
        return Some(ScanOutOfStep);
      }
      pending := pending.(nextStep := pending.nextStep + 1);
      completed := completed + 1;
      var batch := cadence.Advance();
      if batch.None? {
        return Some(ClockOverflow);
      }
      raised := PublishDue(n, batch.value, env);
    }

    /** One pass of the loop; `going` is false when the loop breaks. */
    method Pass(report: StepNews, env: Surroundings) returns (raised: Option<Raise>, going: bool)
      requires At(completed) && completed < StepsOf(duration)
      modifies Repr()
      ensures raised.Some? ==>
                if report.garbled && !report.closed then raised == Some(MarkerInvalid) && sent == old(sent)
                else Excused(duration, lockstep, env, raised.value, sent)
      ensures raised.None? ==> At(completed) && completed == if report.closed then old(completed)
                else old(completed) + 1
      ensures raised.None? ==> (going <==>
                !report.closed && !((old(fault) || report.marked || report.unsafe) && report.settled))
      ensures fault ==> old(fault) || !Calm(report)
      // Every twelfth step the loop also asks the transport for lost frames.
      ensures raised.None? ==> (fault <==>
                || old(fault) || report.closed || report.marked || report.unsafe
                || (going && old(completed) % 12 == 11 && report.dropped))
    {
      hide At, Excused, StepsOf, BatchAfter;
      if report.closed {
        fault := true;
        return None, false;
      }
      if report.garbled {
        return Some(MarkerInvalid), false;
      }
      var n := completed;
      fault := fault || report.marked;
      raised := Advance(env);
      if raised.Some? {
        return raised, false;
      }
      fault := fault || report.unsafe;
      going := !(fault && report.settled);
      if going && n % 12 == 11 && report.dropped {
        fault := true;
      }
    }

    /**
     Runs the whole window. `news`, `env` and `dropped` are arbitrary: what each physics step reports,
     what the surroundings grant, and whether the transport lost a frame. Whatever happens, what was
     sent is a prefix of the frozen plan, and every exception has its cause outside the loop: the guards
     on cadence, scan steps, loop length and final counts never fire. Without a fault the whole plan was
     sent and the counts are those expected.
     */
    method Run(news: nat -> StepNews, env: Surroundings, dropped: bool) returns (raised: Option<Raise>)
      requires At(0) && !fault
      modifies Repr()
      ensures sent <= OutputPlan(duration / WHEEL_PERIOD)
      ensures raised.Some? ==>
                || Excused(duration, lockstep, env, raised.value, sent)
                || (raised == Some(MarkerInvalid) && exists n: nat :: n < StepsOf(duration) && news(n).garbled)
      ensures raised.None? && !fault ==>
                && completed == StepsOf(duration)
                && sent == OutputPlan(duration / WHEEL_PERIOD)
                && published.(command := published.wheel) == ExpectedCounts(duration)
      ensures CalmUntil(news, StepsOf(duration)) && !dropped && raised.None? ==> !fault
    {
      WindowSteps(duration);
      hide OutputPlan, PublishedAt, CutAt, StepsOf, Calm;
      var going := true;
      while going && completed < StepsOf(duration)
        invariant At(completed)
        invariant !going ==> fault
        invariant CalmUntil(news, StepsOf(duration)) ==> !fault
        decreases StepsOf(duration) - completed, going
      {
        assert CalmUntil(news, StepsOf(duration)) ==> Calm(news(completed));
        PlanGrows(TicksAfter(completed), TicksAfter(StepsOf(duration)));
        raised, going := Pass(news(completed), env);
        if raised.Some? {
          return;
        }
      }
      PlanGrows(TicksAfter(completed), TicksAfter(StepsOf(duration)));
      raised := Close(dropped);
    }

    /** The checks after the loop. */
    method Close(dropped: bool) returns (raised: Option<Raise>)
      requires At(completed) && (fault || completed == StepsOf(duration))
      modifies this`fault
      ensures raised.None? && fault == (old(fault) || dropped)
      ensures !fault ==> published.(command := published.wheel) == ExpectedCounts(duration)
    {
      if !fault && completed != StepsOf(duration) {
        return Some(EndedEarly);
      }
      fault := fault || dropped;
      CountsMet(duration);
      if !fault && published.(command := published.wheel) != ExpectedCounts(duration) {
        return Some(CountsDiffer);
      }
      return None;
    }
  }

  ghost predicate CalmUntil(news: nat -> StepNews, n: nat) {
    forall i: nat :: i < n ==> Calm(news(i))
  }

  lemma CountsMet(duration: nat)
    requires duration % POSE_PERIOD == 0
    ensures var p := PublishedAt(TicksAfter(StepsOf(duration))); p.(command := p.wheel) == ExpectedCounts(duration)
  {
    WindowSteps(duration);
  }

  lemma ClockFits(n: nat, duration: nat)
    requires n < StepsOf(duration) && duration <= MAX_SIMULATION
    ensures StepTime(n + 1) <= UINT64_MAX
  {
    StepTimeBounds(n + 1);
  }

  // ----- the lockstep automaton follows the same plan -----

  /** What the automaton of `Lockstep` has published when it stands at a program counter. */
  function SentAt(p: Plant, pc: Pc): seq<Output> {
    match pc
    case SendRtk(m) => if m == 0 then [] else UpToWheel(10 * m) + [LidarOut((m - 1) * POSE_PERIOD)]
    case SendImu(m) => if m == 0 then [RtkOut(0)]
      else UpToWheel(10 * m) + [LidarOut((m - 1) * POSE_PERIOD), RtkOut(m * POSE_PERIOD)]
    case SendWheel(k) => if k == 0 then [] else OutputPlan(k - 1)
    case Await(k) => if k == 0 then [] else UpToWheel(k)
    case SendLidar(m) => if m == 0 then [] else UpToWheel(10 * m)
    case Done => OutputPlan(p.Ticks())
    case Stopped => []
  }

  function UpToWheel(k: nat): seq<Output>
    requires k > 0
  {
    OutputPlan(k - 1) + [WheelOut(k * WHEEL_PERIOD)]
  }

  /** What one simulator step put on the channels. */
  function Emitted(j: Joint, r: Joint): seq<Output>
    requires |j.wheels| <= |r.wheels| && |j.rtks| <= |r.rtks| && |j.imus| <= |r.imus|
  {
    (if |r.wheels| > |j.wheels| then [WheelOut(r.wheels[|j.wheels|].head.timestamp)] else []) +
    (if r.sim.lidar > j.sim.lidar then [LidarOut(j.sim.lidar * POSE_PERIOD)] else []) +
    (if |r.rtks| > |j.rtks| then [RtkOut(r.rtks[|j.rtks|].head.timestamp)] else []) +
    (if |r.imus| > |j.imus| then [ImuOut(r.imus[|j.imus|].head.timestamp)] else [])
  }

  /** Each step of the automaton publishes exactly the next messages of the loop's plan. */
  lemma AutomatonFollowsPlan(p: Plant, j: Joint)
    requires p.Valid() && SimCounts(p, j.sim) && Enabled(j, SimMoves)
    ensures var r := SimStep(p, j);
            && |j.wheels| <= |r.wheels| && |j.rtks| <= |r.rtks| && |j.imus| <= |r.imus|
            && SentAt(p, r.sim.pc) == SentAt(p, j.sim.pc) + Emitted(j, r)
  {
    StepEmits(p, j);
    hide Emitted, SimStep, SimCounts, SentAt;
    MessageFollowsPlan(p, j.sim.pc);
  }

  function NextPc(p: Plant, pc: Pc): Pc {
    match pc
    case SendRtk(m) => SendImu(m)
    case SendImu(m) => AfterPose(p, m)
    case SendWheel(k) => Await(k)
    case Await(k) => AfterCommand(k)
    case SendLidar(m) => SendRtk(m)
    case _ => pc
  }

  /** Counters of the program counter that `SimCounts` allows. */
  predicate Placed(p: Plant, pc: Pc) {
    match pc
    case SendWheel(k) => k > 0
    case Await(k) => k > 0
    case SendLidar(m) => m > 0
    case SendImu(m) => 10 * m <= p.Ticks()
    case SendRtk(m) => true
    case _ => false
  }

  lemma MessageFollowsPlan(p: Plant, pc: Pc)
    requires Placed(p, pc) && p.Ticks() % 10 == 0
    ensures SentAt(p, NextPc(p, pc)) == SentAt(p, pc) + MessageAt(pc)
  {
    PlanStarts();
    hide OutputPlan, FrameOutputs;
    match pc
    case SendImu(m) =>
      if m > 0 {
        PlanUnfolds(10 * m);
        FrameUnfolds(m);
      }
    case Await(k) =>
      PlanUnfolds(k);
    case _ =>
  }

  function MessageAt(pc: Pc): seq<Output> {
    match pc
    case SendRtk(m) => [RtkOut(m * POSE_PERIOD)]
    case SendImu(m) => [ImuOut(m * POSE_PERIOD)]
    case SendWheel(k) => [WheelOut(k * WHEEL_PERIOD)]
    case SendLidar(m) => if m == 0 then [] else [LidarOut((m - 1) * POSE_PERIOD)]
    case _ => []
  }

  lemma StepEmits(p: Plant, j: Joint)
    requires p.Valid() && SimCounts(p, j.sim) && Enabled(j, SimMoves)
    ensures var r := SimStep(p, j);
            && |j.wheels| <= |r.wheels| && |j.rtks| <= |r.rtks| && |j.imus| <= |r.imus|
            && Emitted(j, r) == MessageAt(j.sim.pc) && r.sim.pc == NextPc(p, j.sim.pc)
    ensures Placed(p, j.sim.pc) && p.Ticks() % 10 == 0
  {
    WholeFrames(p);
  }

  lemma PlanStarts()
    ensures OutputPlan(0) == [RtkOut(0)] + [ImuOut(0)]
  {
  }

  lemma PlanUnfolds(k: nat)
    requires k > 0
    ensures OutputPlan(k) == UpToWheel(k) + if k % 10 == 0 then FrameOutputs(k / 10) else []
  {
  }

  lemma FrameUnfolds(m: nat)
    requires m > 0
    ensures FrameOutputs(m) == [LidarOut((m - 1) * POSE_PERIOD), RtkOut(m * POSE_PERIOD)] + [ImuOut(m * POSE_PERIOD)]
  {
  }
}
