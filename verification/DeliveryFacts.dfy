/**
 The delivery summary and the window selection with every comparison written out: which events and
 records count, which are refused or left out, and which error is reported first.
 */
module DeliveryFacts {
  import opened Basics
  import opened WheelDelivery

  // ----- the peer's side -----

  /** What is wrong with an event, given those before it. The window is open at its start and closed at its end. */
  ghost function PeerFlaw(w: Wheel, start: nat, end: nat, earlier: seq<PeerEvent>, e: PeerEvent):
      Option<DeliveryError>
  {
    if e.timestamp <= start || end < e.timestamp then Some(PeerOutsideWindow)
    else if e.typeName != w.typeName then Some(PeerWrongType)
    else if exists k :: 0 <= k < |earlier| && earlier[k].timestamp == e.timestamp then Some(PeerDuplicate)
    else if e.digest.None? then Some(PeerBadDigest)
    else None
  }

  ghost predicate PeerSound(w: Wheel, start: nat, end: nat, events: seq<PeerEvent>) {
    forall i :: 0 <= i < |events| ==> PeerFlaw(w, start, end, events[..i], events[i]).None?
  }

  ghost predicate FirstPeerFlaw(w: Wheel, start: nat, end: nat, events: seq<PeerEvent>, i: nat, error: DeliveryError) {
    && i < |events| && PeerSound(w, start, end, events[..i])
    && PeerFlaw(w, start, end, events[..i], events[i]) == Some(error)
  }

  /** The table holds each event's time with its digest, and no other time. */
  ghost predicate PeerHolds(table: Table, events: seq<PeerEvent>) {
    && (forall i :: 0 <= i < |events| ==>
          events[i].timestamp in table && events[i].digest == Some(table[events[i].timestamp]))
    && (forall t :: t in table ==> exists i :: 0 <= i < |events| && events[i].timestamp == t)
  }

  lemma PeerSoundSnoc(w: Wheel, start: nat, end: nat, events: seq<PeerEvent>)
    requires events != []
    ensures var n := |events| - 1;
            PeerSound(w, start, end, events) <==>
              PeerSound(w, start, end, events[..n]) && PeerFlaw(w, start, end, events[..n], events[n]).None?
  {
    hide PeerFlaw;
    var front := events[..|events| - 1];
    forall i | 0 <= i < |front| ensures front[i] == events[i] && front[..i] == events[..i] {
    }
  }

  lemma PeerHoldsSnoc(table: Table, front: seq<PeerEvent>, e: PeerEvent)
    requires PeerHolds(table, front) && e.digest.Some?
    requires forall k :: 0 <= k < |front| ==> front[k].timestamp != e.timestamp
    ensures PeerHolds(table[e.timestamp := e.digest.value], front + [e])
  {
    var events, grown := front + [e], table[e.timestamp := e.digest.value];
    forall t | t in grown ensures exists i :: 0 <= i < |events| && events[i].timestamp == t {
      if t in table {
        var i :| 0 <= i < |front| && front[i].timestamp == t;
        assert events[i].timestamp == t;
      } else {
        assert events[|front|].timestamp == t;
      }
    }
  }

  lemma PeerGuardIsFlaw(w: Wheel, start: nat, end: nat, table: Table, earlier: seq<PeerEvent>, e: PeerEvent)
    requires PeerHolds(table, earlier)
    ensures PeerGuard(w, start, end, table, e) == PeerFlaw(w, start, end, earlier, e)
  {
  }

  /** The peer's table exists exactly without a flaw; otherwise the error is the first event's that has one. */
  lemma {:induction false} PeerTableByFlaws(w: Wheel, start: nat, end: nat, events: seq<PeerEvent>)
    ensures var r := PeerTable(w, start, end, events);
            && (r.Ok? <==> PeerSound(w, start, end, events))
            && (r.Ok? ==> PeerHolds(r.value, events))
            && (r.Err? ==> exists i :: FirstPeerFlaw(w, start, end, events, i, r.error))
  {
    hide PeerFlaw, PeerGuard, PeerSound, PeerHolds;
    if events == [] {
      NoPeerEvents(w, start, end);
    } else {
      var n := |events| - 1;
      var front, e := events[..n], events[n];
      var before := PeerTable(w, start, end, front);
      PeerTableByFlaws(w, start, end, front);
      PeerSoundSnoc(w, start, end, events);
      if before.Ok? {
        PeerGuardIsFlaw(w, start, end, before.value, front, e);
        if PeerGuard(w, start, end, before.value, e).None? {
          PeerFlawless(w, start, end, front, e);
          PeerHoldsSnoc(before.value, front, e);
          assert events == front + [e];
        } else {
          assert FirstPeerFlaw(w, start, end, events, n, PeerGuard(w, start, end, before.value, e).value);
        }
      } else {
        var i: nat :| FirstPeerFlaw(w, start, end, front, i, before.error);
        assert front[..i] == events[..i];
        assert FirstPeerFlaw(w, start, end, events, i, before.error);
      }
    }
  }

  lemma PeerFlawless(w: Wheel, start: nat, end: nat, earlier: seq<PeerEvent>, e: PeerEvent)
    requires PeerFlaw(w, start, end, earlier, e).None?
    ensures e.digest.Some? && forall k :: 0 <= k < |earlier| ==> earlier[k].timestamp != e.timestamp
  {
  }

  lemma NoPeerEvents(w: Wheel, start: nat, end: nat)
    ensures PeerSound(w, start, end, []) && PeerHolds(map[], [])
  {
  }

  // ----- the log's side -----

  /** A wheel record of the window; every other record is left out. */
  predicate Counted(w: Wheel, start: nat, end: nat, r: LogRecord) {
    r.topic == w.topic && start < r.simTime && r.simTime <= end
  }

  ghost function LogFlaw(w: Wheel, start: nat, end: nat, earlier: seq<LogRecord>, r: LogRecord): Option<DeliveryError> {
    if !Counted(w, start, end, r) then None
    else if r.direction == Receive then Some(LoggedNotPublished)
    else if r.typeName != w.typeName then Some(LoggedWrongType)
    else if w.decode(r.payload).None? then Some(LoggedUndecodable)
    else if w.decode(r.payload) != Some(r.simTime) then Some(LoggedTimesDisagree)
    else if exists k :: 0 <= k < |earlier| && Counted(w, start, end, earlier[k]) && earlier[k].simTime == r.simTime then
      Some(LoggedDuplicate)
    else None
  }

  ghost predicate LogSound(w: Wheel, start: nat, end: nat, log: seq<LogRecord>) {
    forall i :: 0 <= i < |log| ==> LogFlaw(w, start, end, log[..i], log[i]).None?
  }

  ghost predicate FirstLogFlaw(w: Wheel, start: nat, end: nat, log: seq<LogRecord>, i: nat, error: DeliveryError) {
    && i < |log| && LogSound(w, start, end, log[..i])
    && LogFlaw(w, start, end, log[..i], log[i]) == Some(error)
  }

  ghost predicate LogHolds(w: Wheel, start: nat, end: nat, table: Table, log: seq<LogRecord>) {
    && (forall i :: 0 <= i < |log| && Counted(w, start, end, log[i]) ==>
          log[i].simTime in table && table[log[i].simTime] == Sha256(log[i].payload))
    && (forall t :: t in table ==> exists i :: 0 <= i < |log| && Counted(w, start, end, log[i]) && log[i].simTime == t)
  }

  lemma LogSoundSnoc(w: Wheel, start: nat, end: nat, log: seq<LogRecord>)
    requires log != []
    ensures var n := |log| - 1;
            LogSound(w, start, end, log) <==>
              LogSound(w, start, end, log[..n]) && LogFlaw(w, start, end, log[..n], log[n]).None?
  {
    hide LogFlaw;
    var front := log[..|log| - 1];
    forall i | 0 <= i < |front| ensures front[i] == log[i] && front[..i] == log[..i] {
    }
  }

  lemma LogHoldsSnoc(w: Wheel, start: nat, end: nat, table: Table, front: seq<LogRecord>, r: LogRecord)
    requires LogHolds(w, start, end, table, front)
    requires Counted(w, start, end, r) ==>
               forall k :: 0 <= k < |front| && Counted(w, start, end, front[k]) ==> front[k].simTime != r.simTime
    ensures var grown := if Counted(w, start, end, r) then table[r.simTime := Sha256(r.payload)] else table;
            LogHolds(w, start, end, grown, front + [r])
  {
    hide Counted;
    var log := front + [r];
    var grown := if Counted(w, start, end, r) then table[r.simTime := Sha256(r.payload)] else table;
    forall t | t in grown ensures exists i :: 0 <= i < |log| && Counted(w, start, end, log[i]) && log[i].simTime == t {
      if t in table {
        var i :| 0 <= i < |front| && Counted(w, start, end, front[i]) && front[i].simTime == t;
        assert log[i] == front[i];
      } else {
        assert log[|front|] == r;
      }
    }
  }

  lemma LogGuardIsFlaw(w: Wheel, start: nat, end: nat, table: Table, earlier: seq<LogRecord>, r: LogRecord)
    requires LogHolds(w, start, end, table, earlier)
    ensures Relevant(w, start, end, r) <==> Counted(w, start, end, r)
    ensures LogFlaw(w, start, end, earlier, r) == if Counted(w, start, end, r) then LogGuard(w, table, r) else None
  {
  }

  lemma LogFlawless(w: Wheel, start: nat, end: nat, earlier: seq<LogRecord>, r: LogRecord)
    requires LogFlaw(w, start, end, earlier, r).None? && Counted(w, start, end, r)
    ensures forall k :: 0 <= k < |earlier| && Counted(w, start, end, earlier[k]) ==> earlier[k].simTime != r.simTime
  {
  }

  /** The log's table exists exactly without a flaw; otherwise the error is the first record's that has one. */
  lemma {:induction false} LogTableByFlaws(w: Wheel, start: nat, end: nat, log: seq<LogRecord>)
    ensures var r := LogTable(w, start, end, log);
            && (r.Ok? <==> LogSound(w, start, end, log))
            && (r.Ok? ==> LogHolds(w, start, end, r.value, log))
            && (r.Err? ==> exists i :: FirstLogFlaw(w, start, end, log, i, r.error))
  {
    hide LogFlaw, LogGuard, LogSound, LogHolds, Relevant, Counted;
    if log == [] {
      NoLogRecords(w, start, end);
    } else {
      var n := |log| - 1;
      var front, r := log[..n], log[n];
      var before := LogTable(w, start, end, front);
      LogTableByFlaws(w, start, end, front);
      LogSoundSnoc(w, start, end, log);
      if before.Ok? {
        LogGuardIsFlaw(w, start, end, before.value, front, r);
        if LogFlaw(w, start, end, front, r).None? {
          if Counted(w, start, end, r) {
            LogFlawless(w, start, end, front, r);
          }
          LogHoldsSnoc(w, start, end, before.value, front, r);
          assert log == front + [r];
        } else {
          assert FirstLogFlaw(w, start, end, log, n, LogFlaw(w, start, end, front, r).value);
        }
      } else {
        var i: nat :| FirstLogFlaw(w, start, end, front, i, before.error);
        assert front[..i] == log[..i];
        assert FirstLogFlaw(w, start, end, log, i, before.error);
      }
    }
  }

  lemma NoLogRecords(w: Wheel, start: nat, end: nat)
    ensures LogSound(w, start, end, []) && LogHolds(w, start, end, map[], [])
  {
  }

  // ----- the summary -----

  ghost predicate AtPeer(events: seq<PeerEvent>, t: nat) {
    exists i :: 0 <= i < |events| && events[i].timestamp == t
  }

  ghost predicate Logged(w: Wheel, start: nat, end: nat, log: seq<LogRecord>, t: nat) {
    exists i :: 0 <= i < |log| && Counted(w, start, end, log[i]) && log[i].simTime == t
  }

  ghost predicate SomeMissing(w: Wheel, start: nat, end: nat, events: seq<PeerEvent>, log: seq<LogRecord>) {
    exists t :: Logged(w, start, end, log, t) && !AtPeer(events, t)
  }

  ghost predicate SomeUnexpected(w: Wheel, start: nat, end: nat, events: seq<PeerEvent>, log: seq<LogRecord>) {
    exists t :: AtPeer(events, t) && !Logged(w, start, end, log, t)
  }

  ghost predicate SomeDiffers(w: Wheel, start: nat, end: nat, events: seq<PeerEvent>, log: seq<LogRecord>) {
    exists i, k :: 0 <= i < |events| && 0 <= k < |log| && Counted(w, start, end, log[k]) &&
      log[k].simTime == events[i].timestamp && events[i].digest != Some(Sha256(log[k].payload))
  }

  lemma KeysAre(w: Wheel, start: nat, end: nat, events: seq<PeerEvent>, log: seq<LogRecord>, peer: Table, logged: Table)
    requires PeerHolds(peer, events) && LogHolds(w, start, end, logged, log)
    ensures forall t :: t in peer <==> AtPeer(events, t)
    ensures forall t :: t in logged <==> Logged(w, start, end, log, t)
    ensures logged.Keys - peer.Keys != {} <==> SomeMissing(w, start, end, events, log)
    ensures peer.Keys - logged.Keys != {} <==> SomeUnexpected(w, start, end, events, log)
  {
    hide Counted;
    assert forall t :: t in logged.Keys - peer.Keys <==> Logged(w, start, end, log, t) && !AtPeer(events, t);
    assert forall t :: t in peer.Keys - logged.Keys <==> AtPeer(events, t) && !Logged(w, start, end, log, t);
    if logged.Keys - peer.Keys != {} {
      var t :| t in logged.Keys - peer.Keys;
    }
    if peer.Keys - logged.Keys != {} {
      var t :| t in peer.Keys - logged.Keys;
    }
  }

  lemma DifferenceIs(w: Wheel, start: nat, end: nat, events: seq<PeerEvent>, log: seq<LogRecord>, peer: Table,
      logged: Table)
    requires PeerHolds(peer, events) && LogHolds(w, start, end, logged, log)
    ensures (exists t :: t in logged && t in peer && logged[t] != peer[t]) <==> SomeDiffers(w, start, end, events, log)
  {
    hide Counted;
    if t :| t in logged && t in peer && logged[t] != peer[t] {
      var i :| 0 <= i < |events| && events[i].timestamp == t;
      var k :| 0 <= k < |log| && Counted(w, start, end, log[k]) && log[k].simTime == t;
      assert events[i].digest != Some(Sha256(log[k].payload));
    }
    if SomeDiffers(w, start, end, events, log) {
      var i, k :| 0 <= i < |events| && 0 <= k < |log| && Counted(w, start, end, log[k]) &&
        log[k].simTime == events[i].timestamp && events[i].digest != Some(Sha256(log[k].payload));
      var t := events[i].timestamp;
      assert t in logged && t in peer && logged[t] != peer[t];
    }
  }

  /**
   The summary case by case, in the order of its checks: the first flaw of the peer's events, the first
   flaw of the log's records, a frame missing at the peer, one the log does not have, a payload that
   differs, and otherwise the number of events three times.
   */
  lemma DeliveryCases(w: Wheel, start: nat, end: nat, events: seq<PeerEvent>, log: seq<LogRecord>)
    ensures var r := Delivery(w, start, end, events, log);
            if end <= start then r == Err(WindowNotIncreasing)
            else if !PeerSound(w, start, end, events) then
              r.Err? && exists i :: FirstPeerFlaw(w, start, end, events, i, r.error)
            else if !LogSound(w, start, end, log) then
              r.Err? && exists i :: FirstLogFlaw(w, start, end, log, i, r.error)
            else if SomeMissing(w, start, end, events, log) then r == Err(MissingAtPeer)
            else if SomeUnexpected(w, start, end, events, log) then r == Err(UnexpectedAtPeer)
            else if SomeDiffers(w, start, end, events, log) then r == Err(PayloadMismatch)
            else r == Ok(Evidence(|events|, |events|, |events|))
  {
    hide PeerSound, LogSound, PeerHolds, LogHolds, FirstPeerFlaw, FirstLogFlaw, SomeMissing, SomeUnexpected,
      SomeDiffers, PeerTable, LogTable, GoodEvents, GoodLog, Corresponds, Windowed;
    PeerTableByFlaws(w, start, end, events);
    LogTableByFlaws(w, start, end, log);
    SummaryExactly(w, start, end, events, log);
    var peer, logged := PeerTable(w, start, end, events), LogTable(w, start, end, log);
    if peer.Ok? && logged.Ok? {
      KeysAre(w, start, end, events, log, peer.value, logged.value);
      DifferenceIs(w, start, end, events, log, peer.value, logged.value);
    }
  }

  // ----- the selection -----

  ghost predicate Rising(at: seq<nat>) {
    forall i, j :: 0 <= i < j < |at| ==> at[i] < at[j]
  }

  /** `picked` are the events at the given places, which are all places after `start` and up to `end`, in order. */
  ghost predicate Picks(events: seq<PeerEvent>, start: nat, end: nat, picked: seq<PeerEvent>, at: seq<nat>) {
    && |at| == |picked| && Rising(at)
    && (forall i :: 0 <= i < |at| ==> at[i] < |events| && picked[i] == events[at[i]])
    && (forall k :: 0 <= k < |events| ==>
          (k in at <==> start < events[k].timestamp && events[k].timestamp <= end))
  }

  lemma PicksSnoc(events: seq<PeerEvent>, start: nat, end: nat, picked: seq<PeerEvent>, at: seq<nat>, e: PeerEvent)
    requires Picks(events, start, end, picked, at)
    ensures if start < e.timestamp && e.timestamp <= end then
              Picks(events + [e], start, end, picked + [e], at + [|events|])
            else Picks(events + [e], start, end, picked, at)
  {
    var more := at + [|events|];
    assert forall k :: k in at ==> k < |events|;
    assert forall k :: k in more <==> k in at || k == |events|;
  }
}
