/**
 The wheel drain fence: after a measurement window the runtime lets physics run only until one wheel
 frame past the window is out, the peer waits for such a frame, and what it then selects is the
 window's whole log.
 */
module DrainFence {
  import opened Basics
  import opened WheelDelivery
  import opened DeliveryFacts

  const UINT64: nat := 0x1_0000_0000_0000_0000

  // ----- the gate in the runtime -----

  datatype GateError = SecondFrame | TwoFramesAtOnce

  datatype Gate = Gate(end: nat, delivered: bool, released: bool)

  function StepDue(g: Gate, next: bool): (Gate, bool) {
    if g.released || !g.delivered then (g, true)
    else if next then (g.(released := true), true)
    else (g, false)
  }

  function PostWindow(end: nat, timestamps: seq<nat>): nat {
    if timestamps == [] then 0
    else PostWindow(end, timestamps[..|timestamps| - 1]) + if timestamps[|timestamps| - 1] > end then 1 else 0
  }

  function Observe(g: Gate, timestamps: seq<nat>): Result<Gate, GateError> {
    var count := PostWindow(g.end, timestamps);
    if g.released then Ok(g)
    else if g.delivered && count > 0 then Err(SecondFrame)
    else if count > 1 then Err(TwoFramesAtOnce)
    else Ok(g.(delivered := g.delivered || count == 1))
  }

  class WheelDrainFenceGate {
    const end: nat
    var delivered: bool
    var released: bool

    constructor (end: nat)
      ensures this.end == end && !delivered && !released
    {
      this.end, delivered, released := end, false, false;
    }

    function Value(): Gate
      reads this
    {
      Gate(end, delivered, released)
    }

    method PhysicsStepDue(next: bool) returns (due: bool)
      modifies this`released
      ensures (Value(), due) == StepDue(old(Value()), next)
    {
      if released || !delivered {
        return true;
      }
      if next {
        released := true;
        return true;
      }
      return false;
    }

    method ObserveWheelStates(timestamps: seq<nat>) returns (error: Option<GateError>)
      modifies this`delivered
      ensures var r := Observe(old(Value()), timestamps);
              && (error == if r.Ok? then None else Some(r.error))
              && Value() == if r.Ok? then r.value else old(Value())
      // In words: before the release a second frame past the end is an error, and so are two at once.
      ensures var past := |Past(end, timestamps)|;
              && (error == Some(SecondFrame) <==> !released && old(delivered) && past > 0)
              && (error == Some(TwoFramesAtOnce) <==> !released && !old(delivered) && past > 1)
              && (delivered <==> old(delivered) || (!released && past == 1))
    {
      PastCount(end, timestamps);
      if released {
        return None;
      }
      var count := 0;
      for i := 0 to |timestamps|
        invariant count == PostWindow(end, timestamps[..i])
      {
        assert timestamps[..i + 1][..i] == timestamps[..i];
        count := count + if timestamps[i] > end then 1 else 0;
      }
      assert timestamps[..|timestamps|] == timestamps;
      if delivered && count > 0 {
        return Some(SecondFrame);
      }
      if count > 1 {
        return Some(TwoFramesAtOnce);
      }
      delivered := delivered || count == 1;
      return None;
    }
  }

  /** The runtime's loop after a window: a pass publishes `frames(i)` only if the gate lets it step. */
  datatype Drain = Drain(gate: Gate, before: seq<nat>, error: Option<GateError>)

  /** `before` collects the frames past the window that went out before the gate was released. */
  function Drained(end: nat, next: nat -> bool, frames: nat -> seq<nat>, n: nat): Drain {
    if n == 0 then Drain(Gate(end, false, false), [], None)
    else
      var d := Drained(end, next, frames, n - 1);
      if d.error.Some? then d
      else
        var (g, due) := StepDue(d.gate, next(n - 1));
        if !due then d
        else
          var r := Observe(g, frames(n - 1));
          Drain(if r.Ok? then r.value else g,
                if g.released then d.before else d.before + Past(end, frames(n - 1)),
                if r.Ok? then None else Some(r.error))
  }

  function Past(end: nat, timestamps: seq<nat>): seq<nat> {
    if timestamps == [] then []
    else
      var last := timestamps[|timestamps| - 1];
      Past(end, timestamps[..|timestamps| - 1]) + if last > end then [last] else []
  }

  lemma {:induction false} PastCount(end: nat, timestamps: seq<nat>)
    ensures |Past(end, timestamps)| == PostWindow(end, timestamps)
    ensures forall t :: t in Past(end, timestamps) <==> t > end && t in timestamps
    ensures |timestamps| <= 1 ==> PostWindow(end, timestamps) <= 1
  {
    if timestamps != [] {
      PastCount(end, timestamps[..|timestamps| - 1]);
    }
  }

  /**
   With at most one wheel frame per physics step the gate never raises; until it is released exactly
   one frame past the window goes out, and once it is out no step runs before the next marker.
   */
  lemma {:induction false} OneFramePastTheWindow(end: nat, next: nat -> bool, frames: nat -> seq<nat>, n: nat)
    requires forall i: nat :: i < n ==> |frames(i)| <= 1
    ensures var d := Drained(end, next, frames, n);
            && d.error.None? && d.gate.end == end
            && (d.gate.released ==> d.gate.delivered)
            && |d.before| == (if d.gate.delivered then 1 else 0)
            && (forall t :: t in d.before ==> t > end)
            && (d.gate.delivered && !d.gate.released ==> !StepDue(d.gate, false).1)
  {
    if n > 0 {
      OneFramePastTheWindow(end, next, frames, n - 1);
      PastCount(end, frames(n - 1));
    }
  }

  // ----- the fence and the selection at the peer -----

  /** What the peer has received, and the clock, at one look. */
  datatype Look = Look(timestamps: seq<nat>, now: real)

  datatype FenceResult = Fence(timestamp: nat) | TimedOut | StillWaiting

  function LeastPast(boundary: nat, timestamps: seq<nat>): (r: Option<nat>)
    ensures r.None? <==> forall i :: 0 <= i < |timestamps| ==> timestamps[i] <= boundary
    ensures r.Some? ==> r.value in timestamps && r.value > boundary && forall t :: t in timestamps && t > boundary ==>
              r.value <= t
  {
    if timestamps == [] then None
    else
      var rest, t := LeastPast(boundary, timestamps[1..]), timestamps[0];
      assert forall u :: u in timestamps ==> u == t || u in timestamps[1..];
      if t > boundary && (rest.None? || t < rest.value) then Some(t) else rest
  }

  /** Look i shows a frame past the boundary, and no look before it has reached the deadline. */
  ghost predicate ShownInTime(looks: seq<Look>, boundary: nat, deadline: real, i: nat) {
    && i < |looks| && LeastPast(boundary, looks[i].timestamps).Some?
    && forall k :: 0 <= k < i ==> looks[k].now < deadline
  }

  /** Looks until a frame past the boundary has arrived; a look that already shows one wins over the deadline. */
  method WaitForOutputFence(looks: seq<Look>, boundary: nat, deadline: real) returns (r: FenceResult, k: nat)
    ensures k <= |looks| && forall i :: 0 <= i < k ==>
              LeastPast(boundary, looks[i].timestamps).None? && looks[i].now < deadline
    ensures r.StillWaiting? <==> k == |looks|
    ensures r.Fence? ==> LeastPast(boundary, looks[k].timestamps) == Some(r.timestamp)
    ensures r.TimedOut? ==> LeastPast(boundary, looks[k].timestamps).None? && looks[k].now >= deadline
    ensures r.Fence? <==> exists i :: ShownInTime(looks, boundary, deadline, i)
  {
    k := 0;
    while k < |looks|
      invariant k <= |looks| && forall i :: 0 <= i < k ==>
                  LeastPast(boundary, looks[i].timestamps).None? && looks[i].now < deadline
    {
      var candidate := LeastPast(boundary, looks[k].timestamps);
      if candidate.Some? {
        assert ShownInTime(looks, boundary, deadline, k);
        return Fence(candidate.value), k;
      }
      if looks[k].now >= deadline {
        return TimedOut, k;
      }
      k := k + 1;
    }
    return StillWaiting, k;
  }

  /**
   Runtime and peer together: once the drain has let its one frame past the window out and some look
   shows it before the deadline, the wait returns a fence.
   */
  method WaitAfterDrain(
    ghost next: nat -> bool, ghost frames: nat -> seq<nat>, ghost n: nat, ghost seen: nat,
    looks: seq<Look>, end: nat, deadline: real)
    returns (fence: FenceResult)
    requires forall i: nat :: i < n ==> |frames(i)| <= 1
    requires Drained(end, next, frames, n).gate.delivered
    requires seen < |looks| && forall k :: 0 <= k < seen ==> looks[k].now < deadline
    requires forall t :: t in Drained(end, next, frames, n).before ==> t in looks[seen].timestamps
    ensures fence.Fence? && end < fence.timestamp
  {
    OneFramePastTheWindow(end, next, frames, n);
    ghost var before := Drained(end, next, frames, n).before;
    assert before[0] in before;
    assert ShownInTime(looks, end, deadline, seen);
    var k;
    fence, k := WaitForOutputFence(looks, end, deadline);
  }

  function InWindow(start: nat, end: nat, events: seq<PeerEvent>): seq<PeerEvent> {
    if events == [] then []
    else
      var e := events[|events| - 1];
      InWindow(start, end, events[..|events| - 1]) + if Within(start, end, e.timestamp) then [e] else []
  }

  ghost predicate AllUint64(events: seq<PeerEvent>) {
    forall i :: 0 <= i < |events| ==> events[i].timestamp < UINT64
  }

  /** `(start, end]` of the received events; None for a window or a timestamp that is no uint64 or not increasing. */
  method EventsInSimWindow(events: seq<PeerEvent>, start: nat, end: nat) returns (r: Option<seq<PeerEvent>>)
    ensures r == if end < UINT64 && start < end && AllUint64(events) then Some(InWindow(start, end, events)) else None
    ensures r.Some? ==> exists at :: Picks(events, start, end, r.value, at)
  {
    hide Picks, InWindow, PickedSoFar;
    if start >= UINT64 || end >= UINT64 || start >= end {
      return None;
    }
    var selected: seq<PeerEvent> := [];
    NonePicked(events, start, end);
    ghost var at: seq<nat> := [];
    for i := 0 to |events|
      invariant PickedSoFar(events, i, start, end, selected, at)
      invariant forall k :: 0 <= k < i ==> events[k].timestamp < UINT64
    {
      PickNext(events, i, start, end, selected, at);
      if events[i].timestamp >= UINT64 {
        return None;
      }
      if start < events[i].timestamp && events[i].timestamp <= end {
        selected, at := selected + [events[i]], at + [i];
      }
    }
    PickedAll(events, start, end, selected, at);
    return Some(selected);
  }

  ghost predicate PickedSoFar(
    events: seq<PeerEvent>, i: nat, start: nat, end: nat, picked: seq<PeerEvent>, at: seq<nat>)
    requires i <= |events|
  {
    picked == InWindow(start, end, events[..i]) && Picks(events[..i], start, end, picked, at)
  }

  lemma NonePicked(events: seq<PeerEvent>, start: nat, end: nat)
    ensures PickedSoFar(events, 0, start, end, [], [])
  {
  }

  lemma PickNext(events: seq<PeerEvent>, i: nat, start: nat, end: nat, picked: seq<PeerEvent>, at: seq<nat>)
    requires i < |events| && PickedSoFar(events, i, start, end, picked, at)
    ensures var e := events[i];
            if start < e.timestamp && e.timestamp <= end then
              PickedSoFar(events, i + 1, start, end, picked + [e], at + [i])
            else PickedSoFar(events, i + 1, start, end, picked, at)
  {
    hide Picks, InWindow;
    assert events[..i + 1] == events[..i] + [events[i]];
    PicksSnoc(events[..i], start, end, picked, at, events[i]);
    InWindowSnoc(start, end, events[..i], events[i]);
  }

  lemma PickedAll(events: seq<PeerEvent>, start: nat, end: nat, picked: seq<PeerEvent>, at: seq<nat>)
    requires PickedSoFar(events, |events|, start, end, picked, at)
    ensures picked == InWindow(start, end, events) && Picks(events, start, end, picked, at)
  {
    hide Picks, InWindow;
    assert events[..|events|] == events;
  }

  // ----- soundness of the fence -----

  /** Wheel frames as published: their time and their payload. */
  datatype Frame = Frame(timestamp: nat, payload: Bytes)

  ghost predicate Increasing(frames: seq<Frame>) {
    forall i, j :: 0 <= i < j < |frames| ==> frames[i].timestamp < frames[j].timestamp
  }

  ghost predicate Decodes(w: Wheel, frames: seq<Frame>) {
    forall i :: 0 <= i < |frames| ==> w.decode(frames[i].payload) == Some(frames[i].timestamp)
  }

  /** What the peer records of delivered frames. */
  function Receipts(w: Wheel, frames: seq<Frame>): seq<PeerEvent> {
    if frames == [] then []
    else
      var f := frames[|frames| - 1];
      Receipts(w, frames[..|frames| - 1]) + [PeerEvent(f.timestamp, w.typeName, Some(Sha256(f.payload)))]
  }

  /** The wheel frames the log shows; other topics are free. */
  ghost predicate Logs(w: Wheel, log: seq<LogRecord>, frames: seq<Frame>)
    decreases |log|
  {
    if log == [] then frames == []
    else
      var n, r := |log| - 1, log[|log| - 1];
      if r.topic != w.topic then Logs(w, log[..n], frames)
      else
        && frames != [] && r == LogRecord(w.topic, Publish, w.typeName, frames[|frames| - 1].timestamp,
             frames[|frames| - 1].payload)
        && Logs(w, log[..n], frames[..|frames| - 1])
  }

  function WindowEntries(start: nat, end: nat, frames: seq<Frame>): seq<Entry> {
    if frames == [] then []
    else
      var f := frames[|frames| - 1];
      WindowEntries(start, end, frames[..|frames| - 1]) +
        if Within(start, end, f.timestamp) then [Entry(f.timestamp, Sha256(f.payload))] else []
  }

  lemma {:induction false} ReceiptsSelected(w: Wheel, start: nat, end: nat, frames: seq<Frame>)
    ensures Selected(InWindow(start, end, Receipts(w, frames))) == WindowEntries(start, end, frames)
    ensures AllGood(w, start, end, InWindow(start, end, Receipts(w, frames)))
    ensures |InWindow(start, end, Receipts(w, frames))| == |WindowEntries(start, end, frames)|
  {
    hide Selected, AllGood;
    if frames == [] {
      NothingSelected(w, start, end);
    } else {
      var n, f := |frames| - 1, frames[|frames| - 1];
      var e := PeerEvent(f.timestamp, w.typeName, Some(Sha256(f.payload)));
      ReceiptsSelected(w, start, end, frames[..n]);
      InWindowSnoc(start, end, Receipts(w, frames[..n]), e);
      SelectedSnoc(w, start, end, InWindow(start, end, Receipts(w, frames[..n])), e);
      hide InWindow;
      assert WindowEntries(start, end, frames[..n]) + [] == WindowEntries(start, end, frames[..n]);
    }
  }

  lemma NothingSelected(w: Wheel, start: nat, end: nat)
    ensures Selected([]) == [] && InWindow(start, end, []) == [] && AllGood(w, start, end, [])
  {
  }

  lemma InWindowSnoc(start: nat, end: nat, events: seq<PeerEvent>, e: PeerEvent)
    ensures InWindow(start, end, events + [e]) ==
              if Within(start, end, e.timestamp) then InWindow(start, end, events) + [e]
                else InWindow(start, end, events)
  {
    assert (events + [e])[..|events|] == events;
  }

  lemma SelectedSnoc(w: Wheel, start: nat, end: nat, events: seq<PeerEvent>, e: PeerEvent)
    ensures Selected(events + [e]) == Selected(events) + [EntryOf(e)]
    ensures AllGood(w, start, end, events) && GoodEvent(w, start, end, e) ==> AllGood(w, start, end, events + [e])
  {
    assert (events + [e])[..|events|] == events;
  }

  lemma {:induction false} LoggedWindow(w: Wheel, start: nat, end: nat, log: seq<LogRecord>, frames: seq<Frame>)
    requires Logs(w, log, frames) && Decodes(w, frames)
    ensures Windowed(w, start, end, log) == WindowEntries(start, end, frames) && AllRecorded(w, start, end, log)
    decreases |log|
  {
    if log == [] {
      NoEvents(w, start, end);
    } else {
      AllRecordedSnoc(w, start, end, log);
      hide AllRecorded;
      var n, r := |log| - 1, log[|log| - 1];
      if r.topic != w.topic {
        LoggedWindow(w, start, end, log[..n], frames);
        assert Windowed(w, start, end, log[..n]) + [] == Windowed(w, start, end, log[..n]);
      } else {
        LoggedWindow(w, start, end, log[..n], frames[..|frames| - 1]);
      }
    }
  }

  lemma {:induction false} EntriesDistinct(start: nat, end: nat, frames: seq<Frame>)
    requires Increasing(frames)
    ensures DistinctTimes(WindowEntries(start, end, frames))
    ensures forall e :: e in WindowEntries(start, end, frames) ==>
              exists i :: 0 <= i < |frames| && frames[i].timestamp == e.timestamp
  {
    if frames != [] {
      var n := |frames| - 1;
      EntriesDistinct(start, end, frames[..n]);
      var before := WindowEntries(start, end, frames[..n]);
      forall e | e in before
        ensures e.timestamp < frames[n].timestamp
        ensures exists i :: 0 <= i < |frames| && frames[i].timestamp == e.timestamp
      {
        var i :| 0 <= i < n && frames[..n][i].timestamp == e.timestamp;
        assert frames[i].timestamp == e.timestamp;
      }
      assert forall i :: 0 <= i < |before| ==> before[i] in before;
      assert frames[n].timestamp == frames[|frames| - 1].timestamp;
    }
  }

  /** Frames published in time order: past the first frame beyond the window nothing of the window follows. */
  lemma {:induction false} NothingAfterTheFence(start: nat, end: nat, frames: seq<Frame>, n: nat)
    requires Increasing(frames) && n <= |frames| && exists i :: 0 <= i < n && frames[i].timestamp > end
    ensures WindowEntries(start, end, frames[..n]) == WindowEntries(start, end, frames)
    decreases |frames|
  {
    if n == |frames| {
      assert frames[..n] == frames;
    } else {
      var front := frames[..|frames| - 1];
      var i :| 0 <= i < n && frames[i].timestamp > end;
      assert front[i].timestamp > end && frames[i].timestamp < frames[|frames| - 1].timestamp;
      assert front[..n] == frames[..n];
      NothingAfterTheFence(start, end, front, n);
      assert WindowEntries(start, end, front) + [] == WindowEntries(start, end, front);
    }
  }

  /** The delivery summary succeeds exactly when every frame of the window is among those delivered. */
  lemma DeliveredExactly(w: Wheel, start: nat, end: nat, frames: seq<Frame>, n: nat, log: seq<LogRecord>)
    requires start < end && Increasing(frames) && Decodes(w, frames) && Logs(w, log, frames) && n <= |frames|
    ensures var events := InWindow(start, end, Receipts(w, frames[..n]));
            var delivered, all := WindowEntries(start, end, frames[..n]), WindowEntries(start, end, frames);
            && (Delivery(w, start, end, events, log).Ok? <==> forall e :: e in all ==> e in delivered)
            && (Delivery(w, start, end, events, log).Ok? ==>
                 Delivery(w, start, end, events, log).value == Evidence(|all|, |all|, |all|))
  {
    ReceiptsSelected(w, start, end, frames[..n]);
    LoggedWindow(w, start, end, log, frames);
    PrefixIncreasing(frames, n);
    EntriesDistinct(start, end, frames);
    EntriesDistinct(start, end, frames[..n]);
    EntriesGrow(start, end, frames, n);
    hide Delivery, InWindow, Receipts, WindowEntries, Windowed, Selected, AllGood, AllRecorded, DistinctTimes,
      Increasing, Decodes, Logs;
    SummaryExactly(w, start, end, InWindow(start, end, Receipts(w, frames[..n])), log);
  }

  lemma PrefixIncreasing(frames: seq<Frame>, n: nat)
    requires Increasing(frames) && n <= |frames|
    ensures Increasing(frames[..n])
  {
  }

  lemma {:induction false} EntriesGrow(start: nat, end: nat, frames: seq<Frame>, n: nat)
    requires n <= |frames|
    ensures forall e :: e in WindowEntries(start, end, frames[..n]) ==> e in WindowEntries(start, end, frames)
    decreases |frames|
  {
    if n == |frames| {
      assert frames[..n] == frames;
    } else {
      assert frames[..|frames| - 1][..n] == frames[..n];
      EntriesGrow(start, end, frames[..|frames| - 1], n);
    }
  }

  /**
   End to end: frames are published in increasing time order, logged, and delivered first in first
   out. Once the peer has seen any frame past the window, its selection matches the log exactly.
   */
  lemma FenceIsSound(w: Wheel, start: nat, end: nat, frames: seq<Frame>, n: nat, log: seq<LogRecord>)
    requires start < end && Increasing(frames) && Decodes(w, frames) && Logs(w, log, frames) && n <= |frames|
    requires exists i :: 0 <= i < n && frames[i].timestamp > end
    ensures var count := |WindowEntries(start, end, frames)|;
            Delivery(w, start, end, InWindow(start, end, Receipts(w, frames[..n])), log) ==
              Ok(Evidence(count, count, count))
  {
    NothingAfterTheFence(start, end, frames, n);
    DeliveredExactly(w, start, end, frames, n, log);
    hide Delivery, InWindow, Receipts, WindowEntries, Increasing, Decodes, Logs;
  }

  function Times(frames: seq<Frame>): seq<nat> {
    seq(|frames|, i requires 0 <= i < |frames| => frames[i].timestamp)
  }

  /** Each look shows the frames delivered by then, and what is selected later was delivered later. */
  ghost predicate ShowsDelivered(looks: seq<Look>, frames: seq<Frame>, shown: seq<nat>, n: nat) {
    && |shown| == |looks| && n <= |frames|
    && forall i :: 0 <= i < |looks| ==> shown[i] <= n && looks[i].timestamps == Times(frames[..shown[i]])
  }

  lemma {:induction false} ReceiptsAreUint64(w: Wheel, frames: seq<Frame>)
    requires forall i :: 0 <= i < |frames| ==> frames[i].timestamp < UINT64
    ensures AllUint64(Receipts(w, frames))
  {
    if frames != [] {
      ReceiptsAreUint64(w, frames[..|frames| - 1]);
    }
  }

  /**
   The peer's end of a window: wait for the fence, then select. If the wait returns a fence, the
   selection exists and the verifier's summary of it against any log of the frames succeeds with the
   window's count on both sides.
   */
  method MeasureWheelWindow(
    w: Wheel, start: nat, end: nat, looks: seq<Look>, deadline: real, received: seq<PeerEvent>,
    ghost frames: seq<Frame>, ghost shown: seq<nat>, ghost n: nat)
    returns (fence: FenceResult, selected: Option<seq<PeerEvent>>)
    requires start < end < UINT64 && Increasing(frames) && Decodes(w, frames)
    requires forall i :: 0 <= i < |frames| ==> frames[i].timestamp < UINT64
    requires ShowsDelivered(looks, frames, shown, n) && received == Receipts(w, frames[..n])
    ensures fence.Fence? <==> selected.Some?
    ensures fence.Fence? ==>
              var count := |WindowEntries(start, end, frames)|;
              forall log :: Logs(w, log, frames) ==>
                Delivery(w, start, end, selected.value, log) == Ok(Evidence(count, count, count))
  {
    hide Delivery, InWindow, Receipts, WindowEntries, Increasing, Decodes, Logs;
    var k: nat;
    fence, k := WaitForOutputFence(looks, end, deadline);
    if !fence.Fence? {
      return fence, None;
    }
    assert exists i :: 0 <= i < n && frames[i].timestamp > end by {
      var i :| 0 <= i < |looks[k].timestamps| && looks[k].timestamps[i] == fence.timestamp;
      assert frames[..shown[k]][i].timestamp > end;
    }
    selected := EventsInSimWindow(received, start, end);
    ReceiptsAreUint64(w, frames[..n]);
    forall log | Logs(w, log, frames)
      ensures var count := |WindowEntries(start, end, frames)|;
              Delivery(w, start, end, selected.value, log) == Ok(Evidence(count, count, count))
    {
      FenceIsSound(w, start, end, frames, n, log);
    }
  }
}
