/**
 Delivery evidence of the wheel topic: the exact match of the events the peer selected for a window
 against the runtime's log of it.
 SHA-256 is injective, so equal digests mean equal payloads.
 */
module WheelDelivery {
  import opened Basics

  datatype Digest = Sha256(payload: Bytes)

  /** One received wheel state; `digest` is None when the recorded text is not lowercase hexadecimal. */
  datatype PeerEvent = PeerEvent(timestamp: nat, typeName: string, digest: Option<Digest>)

  datatype Direction = Publish | Receive

  datatype LogRecord = LogRecord(topic: string, direction: Direction, typeName: string, simTime: nat, payload: Bytes)

  datatype DeliveryError =
    | WindowNotIncreasing
    | PeerOutsideWindow
    | PeerWrongType
    | PeerDuplicate
    | PeerBadDigest
    | LoggedNotPublished
    | LoggedWrongType
    | LoggedUndecodable
    | LoggedTimesDisagree
    | LoggedDuplicate
    | MissingAtPeer
    | UnexpectedAtPeer
    | PayloadMismatch

  datatype Evidence = Evidence(logged: nat, peer: nat, matched: nat)

  type Table = map<nat, Digest>

  /** What the two sides agree on: the wheel topic, its type, and how a payload's own timestamp is decoded. */
  datatype Wheel = Wheel(topic: string, typeName: string, decode: Bytes -> Option<nat>)

  predicate Within(start: nat, end: nat, timestamp: nat) {
    start < timestamp <= end
  }

  // ----- the two tables -----

  function PeerGuard(w: Wheel, start: nat, end: nat, table: Table, e: PeerEvent): Option<DeliveryError> {
    if !Within(start, end, e.timestamp) then Some(PeerOutsideWindow)
    else if e.typeName != w.typeName then Some(PeerWrongType)
    else if e.timestamp in table then Some(PeerDuplicate)
    else if e.digest.None? then Some(PeerBadDigest)
    else None
  }

  function PeerTable(w: Wheel, start: nat, end: nat, events: seq<PeerEvent>): Result<Table, DeliveryError> {
    if events == [] then Ok(map[])
    else
      var before := PeerTable(w, start, end, events[..|events| - 1]);
      var e := events[|events| - 1];
      if before.Err? then before
      else if PeerGuard(w, start, end, before.value, e).Some? then Err(PeerGuard(w, start, end, before.value, e).value)
      else Ok(before.value[e.timestamp := e.digest.value])
  }

  predicate Relevant(w: Wheel, start: nat, end: nat, r: LogRecord) {
    r.topic == w.topic && Within(start, end, r.simTime)
  }

  function LogGuard(w: Wheel, table: Table, r: LogRecord): Option<DeliveryError> {
    if r.direction != Publish then Some(LoggedNotPublished)
    else if r.typeName != w.typeName then Some(LoggedWrongType)
    else if w.decode(r.payload).None? then Some(LoggedUndecodable)
    else if w.decode(r.payload).value != r.simTime then Some(LoggedTimesDisagree)
    else if r.simTime in table then Some(LoggedDuplicate)
    else None
  }

  function LogTable(w: Wheel, start: nat, end: nat, log: seq<LogRecord>): Result<Table, DeliveryError> {
    if log == [] then Ok(map[])
    else
      var before := LogTable(w, start, end, log[..|log| - 1]);
      var r := log[|log| - 1];
      if before.Err? || !Relevant(w, start, end, r) then before
      else if LogGuard(w, before.value, r).Some? then Err(LogGuard(w, before.value, r).value)
      else Ok(before.value[r.simTime := Sha256(r.payload)])
  }

  function Compare(peer: Table, logged: Table): Result<Evidence, DeliveryError> {
    if logged.Keys - peer.Keys != {} then Err(MissingAtPeer)
    else if peer.Keys - logged.Keys != {} then Err(UnexpectedAtPeer)
    else if exists t :: t in logged && t in peer && logged[t] != peer[t] then Err(PayloadMismatch)
    else Ok(Evidence(|logged|, |peer|, |logged|))
  }

  function Delivery(w: Wheel, start: nat, end: nat, events: seq<PeerEvent>, log: seq<LogRecord>): Result<Evidence,
      DeliveryError> {
    if start >= end then Err(WindowNotIncreasing)
    else
      var peer := PeerTable(w, start, end, events);
      if peer.Err? then Err(peer.error)
      else
        var logged := LogTable(w, start, end, log);
        if logged.Err? then Err(logged.error) else Compare(peer.value, logged.value)
  }

  method SummarizeWheelLogDelivery(w: Wheel, start: nat, end: nat, events: seq<PeerEvent>, log: seq<LogRecord>)
    returns (r: Result<Evidence, DeliveryError>)
    ensures r == Delivery(w, start, end, events, log)
  {
    hide PeerGuard, LogGuard, Relevant;
    if start >= end {
      return Err(WindowNotIncreasing);
    }
    var peer: Table := map[];
    for i := 0 to |events|
      invariant PeerTable(w, start, end, events[..i]) == Ok(peer)
    {
      assert events[..i + 1][..i] == events[..i];
      var guard := PeerGuard(w, start, end, peer, events[i]);
      if guard.Some? {
        PeerStops(w, start, end, events, i + 1);
        return Err(guard.value);
      }
      PeerHasDigest(w, start, end, peer, events[i]);
      peer := peer[events[i].timestamp := events[i].digest.value];
    }
    assert events[..|events|] == events;
    var logged: Table := map[];
    for i := 0 to |log|
      invariant LogTable(w, start, end, log[..i]) == Ok(logged)
    {
      assert log[..i + 1][..i] == log[..i];
      if Relevant(w, start, end, log[i]) {
        var guard := LogGuard(w, logged, log[i]);
        if guard.Some? {
          LogStops(w, start, end, log, i + 1);
          return Err(guard.value);
        }
        logged := logged[log[i].simTime := Sha256(log[i].payload)];
      }
    }
    assert log[..|log|] == log;
    return Compare(peer, logged);
  }

  lemma PeerHasDigest(w: Wheel, start: nat, end: nat, table: Table, e: PeerEvent)
    requires PeerGuard(w, start, end, table, e).None?
    ensures e.digest.Some?
  {
  }

  lemma {:induction false} PeerStops(w: Wheel, start: nat, end: nat, events: seq<PeerEvent>, i: nat)
    requires i <= |events| && PeerTable(w, start, end, events[..i]).Err?
    ensures PeerTable(w, start, end, events) == PeerTable(w, start, end, events[..i])
  {
    if i < |events| {
      assert events[..|events| - 1][..i] == events[..i];
      PeerStops(w, start, end, events[..|events| - 1], i);
    } else {
      assert events[..i] == events;
    }
  }

  lemma {:induction false} LogStops(w: Wheel, start: nat, end: nat, log: seq<LogRecord>, i: nat)
    requires i <= |log| && LogTable(w, start, end, log[..i]).Err?
    ensures LogTable(w, start, end, log) == LogTable(w, start, end, log[..i])
  {
    if i < |log| {
      assert log[..|log| - 1][..i] == log[..i];
      LogStops(w, start, end, log[..|log| - 1], i);
    } else {
      assert log[..i] == log;
    }
  }

  // ----- what a returned summary means -----

  /** What the two sides are matched on. */
  datatype Entry = Entry(timestamp: nat, digest: Digest)

  ghost predicate DistinctTimes(entries: seq<Entry>) {
    forall i, j :: 0 <= i < j < |entries| ==> entries[i].timestamp != entries[j].timestamp
  }

  function TableOf(entries: seq<Entry>): Option<Table> {
    if entries == [] then Some(map[])
    else
      var before, e := TableOf(entries[..|entries| - 1]), entries[|entries| - 1];
      if before.None? || e.timestamp in before.value then None else Some(before.value[e.timestamp := e.digest])
  }

  ghost predicate Lists(table: Table, entries: seq<Entry>) {
    && |table| == |entries|
    && (forall e :: e in entries ==> e.timestamp in table && table[e.timestamp] == e.digest)
    && (forall t :: t in table ==> Entry(t, table[t]) in entries)
  }

  lemma {:induction false} TableExactly(entries: seq<Entry>)
    ensures TableOf(entries).Some? <==> DistinctTimes(entries)
    ensures TableOf(entries).Some? ==> Lists(TableOf(entries).value, entries)
  {
    if entries != [] {
      var n := |entries| - 1;
      var front, e := entries[..n], entries[n];
      TableExactly(front);
      assert entries == front + [e];
      if TableOf(front).Some? {
        TableGrows(front, e, TableOf(front).value);
      } else {
        assert forall i :: 0 <= i < n ==> front[i] == entries[i];
      }
    }
  }

  lemma TableGrows(front: seq<Entry>, e: Entry, table: Table)
    requires Lists(table, front) && DistinctTimes(front)
    ensures e.timestamp in table <==> !DistinctTimes(front + [e])
    ensures e.timestamp !in table ==> Lists(table[e.timestamp := e.digest], front + [e])
  {
    var entries := front + [e];
    if e.timestamp in table {
      var i :| 0 <= i < |front| && front[i] == Entry(e.timestamp, table[e.timestamp]);
      assert entries[i].timestamp == entries[|front|].timestamp;
    } else {
      assert forall i :: 0 <= i < |front| ==> front[i] in front && front[i].timestamp != e.timestamp;
      var grown := table[e.timestamp := e.digest];
      forall t | t in grown ensures Entry(t, grown[t]) in entries {
        assert t != e.timestamp ==> Entry(t, table[t]) in front;
        assert entries[|front|] == e;
      }
    }
  }

  predicate GoodEvent(w: Wheel, start: nat, end: nat, e: PeerEvent) {
    Within(start, end, e.timestamp) && e.typeName == w.typeName && e.digest.Some?
  }

  function EntryOf(e: PeerEvent): Entry {
    Entry(e.timestamp, if e.digest.Some? then e.digest.value else Sha256([]))
  }

  function Selected(events: seq<PeerEvent>): seq<Entry> {
    if events == [] then [] else Selected(events[..|events| - 1]) + [EntryOf(events[|events| - 1])]
  }

  ghost predicate AllGood(w: Wheel, start: nat, end: nat, events: seq<PeerEvent>) {
    forall i :: 0 <= i < |events| ==> GoodEvent(w, start, end, events[i])
  }

  ghost predicate GoodEvents(w: Wheel, start: nat, end: nat, events: seq<PeerEvent>) {
    AllGood(w, start, end, events) && DistinctTimes(Selected(events))
  }

  predicate GoodRecord(w: Wheel, r: LogRecord) {
    r.direction == Publish && r.typeName == w.typeName && w.decode(r.payload) == Some(r.simTime)
  }

  /** The log's wheel records of the window. */
  function Windowed(w: Wheel, start: nat, end: nat, log: seq<LogRecord>): seq<Entry> {
    if log == [] then []
    else
      var r := log[|log| - 1];
      Windowed(w, start, end, log[..|log| - 1]) +
        if Relevant(w, start, end, r) then [Entry(r.simTime, Sha256(r.payload))] else []
  }

  ghost predicate AllRecorded(w: Wheel, start: nat, end: nat, log: seq<LogRecord>) {
    forall i :: 0 <= i < |log| ==> Relevant(w, start, end, log[i]) ==> GoodRecord(w, log[i])
  }

  ghost predicate GoodLog(w: Wheel, start: nat, end: nat, log: seq<LogRecord>) {
    AllRecorded(w, start, end, log) && DistinctTimes(Windowed(w, start, end, log))
  }

  lemma TableSnoc(entries: seq<Entry>, e: Entry)
    ensures TableOf(entries + [e]) ==
              if TableOf(entries).None? || e.timestamp in TableOf(entries).value then None
              else Some(TableOf(entries).value[e.timestamp := e.digest])
  {
    assert (entries + [e])[..|entries|] == entries;
  }

  lemma AllGoodSnoc(w: Wheel, start: nat, end: nat, events: seq<PeerEvent>)
    requires events != []
    ensures AllGood(w, start, end, events) <==>
              AllGood(w, start, end, events[..|events| - 1]) && GoodEvent(w, start, end, events[|events| - 1])
  {
    hide GoodEvent;
    var front := events[..|events| - 1];
    assert forall i :: 0 <= i < |front| ==> front[i] == events[i];
  }

  lemma {:induction false} PeerTableExactly(w: Wheel, start: nat, end: nat, events: seq<PeerEvent>)
    ensures PeerTable(w, start, end, events).Ok? <==> AllGood(w, start, end, events) && TableOf(Selected(events)).Some?
    ensures PeerTable(w, start, end, events).Ok? ==>
              TableOf(Selected(events)) == Some(PeerTable(w, start, end, events).value)
  {
    hide AllGood, TableOf;
    if events == [] {
      NoEntries();
      assert AllGood(w, start, end, []) by {
        NoEvents(w, start, end);
      }
    } else {
      var n := |events| - 1;
      PeerTableExactly(w, start, end, events[..n]);
      AllGoodSnoc(w, start, end, events);
      TableSnoc(Selected(events[..n]), EntryOf(events[n]));
    }
  }

  lemma NoEntries()
    ensures TableOf([]) == Some(map[])
  {
  }

  lemma NoEvents(w: Wheel, start: nat, end: nat)
    ensures AllGood(w, start, end, []) && AllRecorded(w, start, end, [])
  {
  }

  lemma AllRecordedSnoc(w: Wheel, start: nat, end: nat, log: seq<LogRecord>)
    requires log != []
    ensures AllRecorded(w, start, end, log) <==>
              AllRecorded(w, start, end, log[..|log| - 1]) &&
                (Relevant(w, start, end, log[|log| - 1]) ==> GoodRecord(w, log[|log| - 1]))
  {
    hide GoodRecord, Relevant;
    var front := log[..|log| - 1];
    assert forall i :: 0 <= i < |front| ==> front[i] == log[i];
  }

  lemma {:induction false} LogTableExactly(w: Wheel, start: nat, end: nat, log: seq<LogRecord>)
    ensures LogTable(w, start, end, log).Ok? <==>
              AllRecorded(w, start, end, log) && TableOf(Windowed(w, start, end, log)).Some?
    ensures LogTable(w, start, end, log).Ok? ==>
              TableOf(Windowed(w, start, end, log)) == Some(LogTable(w, start, end, log).value)
  {
    hide AllRecorded, TableOf, Relevant;
    if log == [] {
      NoEntries();
      assert AllRecorded(w, start, end, []) by {
        NoEvents(w, start, end);
      }
    } else {
      var n := |log| - 1;
      var before := Windowed(w, start, end, log[..n]);
      LogTableExactly(w, start, end, log[..n]);
      AllRecordedSnoc(w, start, end, log);
      TableSnoc(before, Entry(log[n].simTime, Sha256(log[n].payload)));
      assert before + [] == before;
    }
  }

  lemma {:induction false} SelectedLength(events: seq<PeerEvent>)
    ensures |Selected(events)| == |events|
  {
    if events != [] {
      SelectedLength(events[..|events| - 1]);
    }
  }

  /** Both sides list the same times with the same payload digests. */
  ghost predicate Corresponds(w: Wheel, start: nat, end: nat, events: seq<PeerEvent>, log: seq<LogRecord>) {
    forall e :: e in Selected(events) <==> e in Windowed(w, start, end, log)
  }

  /**
   A summary is returned exactly when both sides are well formed and correspond one to one; its three
   counts are then the number of selected events.
   */
  lemma SummaryExactly(w: Wheel, start: nat, end: nat, events: seq<PeerEvent>, log: seq<LogRecord>)
    ensures Delivery(w, start, end, events, log).Ok? <==>
              start < end && GoodEvents(w, start, end, events) && GoodLog(w, start, end, log) &&
                Corresponds(w, start, end, events, log)
    ensures Delivery(w, start, end, events, log).Ok? ==>
              Delivery(w, start, end, events, log).value == Evidence(|events|, |events|, |events|) &&
                |Windowed(w, start, end, log)| == |events|
  {
    hide PeerTable, LogTable, AllGood, AllRecorded, Relevant, Selected, Windowed, Compare, TableOf, DistinctTimes;
    PeerTableExactly(w, start, end, events);
    LogTableExactly(w, start, end, log);
    SelectedLength(events);
    TableExactly(Selected(events));
    TableExactly(Windowed(w, start, end, log));
    if PeerTable(w, start, end, events).Ok? && LogTable(w, start, end, log).Ok? {
      var peer, logged := PeerTable(w, start, end, events).value, LogTable(w, start, end, log).value;
      CompareExactly(peer, logged);
      SameTables(peer, logged, Selected(events), Windowed(w, start, end, log));
    }
  }

  lemma SameTables(peer: Table, logged: Table, a: seq<Entry>, b: seq<Entry>)
    requires Lists(peer, a) && Lists(logged, b)
    ensures peer == logged <==> forall e :: e in a <==> e in b
  {
    if peer == logged {
      forall e ensures e in a <==> e in b {
      }
    }
    if forall e :: e in a <==> e in b {
      assert forall t :: t in peer ==> Entry(t, peer[t]) in b;
      assert forall t :: t in logged ==> Entry(t, logged[t]) in a;
    }
  }

  lemma CompareExactly(peer: Table, logged: Table)
    ensures Compare(peer, logged).Ok? <==> peer == logged
    ensures Compare(peer, logged).Ok? ==> Compare(peer, logged).value == Evidence(|peer|, |peer|, |peer|)
  {
    if Compare(peer, logged).Ok? {
      assert forall t :: t in logged ==> t in peer;
      assert forall t :: t in peer ==> t in logged;
      assert peer == logged;
    }
  }
}
