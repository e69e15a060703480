/**
 The multi-rate wall-clock schedule: several channels, one loop, absolute deadlines. Message j of a
 channel (counting from zero) is due at start + j / rate, whatever the loop's clock readings were.
 */
module OutputSchedule {
  import opened Basics

  const NANOSECONDS: nat := 1_000_000_000

  function Times(a: real, b: real): real {
    a * b
  }

  /** Seconds from the start to message j of a channel. */
  function Offset(rate: nat, j: nat): real
    requires rate > 0
  {
    j as real / rate as real
  }

  /** Instant at which message j of a channel falls due. */
  function Due(start: real, rate: nat, j: nat): real
    requires rate > 0
  {
    start + Offset(rate, j)
  }

  /** Simulated timestamp of message number `index`, numbered from one. */
  function Stamp(rate: nat, index: nat): int
    requires rate > 0
  {
    RoundHalfEven(index * NANOSECONDS, rate)
  }

  /** A stamp is its message's exact multiple of the period in nanoseconds, rounded to the nearest, ties to even. */
  ghost predicate NearestStamp(stamp: int, rate: nat, index: nat) {
    var twice := 2 * (stamp * rate - index * 1_000_000_000);
    -twice <= rate && twice <= rate && (twice == rate || -twice == rate ==> stamp % 2 == 0)
  }

  lemma StampIsNearest(rate: nat, index: nat)
    requires rate > 0
    ensures NearestStamp(Stamp(rate, index), rate, index)
  {
    NearestQuotient(index * NANOSECONDS, rate);
  }

  lemma NearestQuotient(n: int, d: int)
    requires d > 0
    ensures var twice := 2 * (RoundHalfEven(n, d) * d - n);
            -d <= twice <= d && (twice == d || twice == -d ==> RoundHalfEven(n, d) % 2 == 0)
  {
    var q, rest := n / d, n % d;
    assert n == q * d + rest && 0 <= rest < d;
    assert (q + 1) * d == q * d + d;
  }

  /** How many messages are due by an instant. */
  function DueCount(start: real, rate: nat, now: real): nat
    requires rate > 0
  {
    if now < start then 0 else
      assert Times(now - start, rate as real) >= 0.0 by { TimesOrder(0.0, now - start, rate as real); }
      Times(now - start, rate as real).Floor + 1
  }

  lemma TimesOrder(a: real, b: real, c: real)
    requires c > 0.0
    ensures a <= b <==> Times(a, c) <= Times(b, c)
    ensures Times(0.0, c) == 0.0
  {
    if a <= b {
      Ordered(a, b, c);
    } else {
      StrictlyOrdered(b, a, c);
    }
  }

  lemma Ordered(a: real, b: real, c: real)
    requires a <= b && c > 0.0
    ensures a * c <= b * c
  {
  }

  lemma StrictlyOrdered(a: real, b: real, c: real)
    requires a < b && c > 0.0
    ensures a * c < b * c
  {
  }

  lemma OffsetTimes(rate: nat, j: nat)
    requires rate > 0
    ensures Times(Offset(rate, j), rate as real) == j as real
  {
    Quotient(j as real, rate as real);
  }

  lemma Quotient(a: real, b: real)
    requires b > 0.0
    ensures a / b * b == a
  {
  }

  /** Exactly the messages counted are due. */
  lemma CountedIsDue(start: real, rate: nat, now: real, j: nat)
    requires rate > 0
    ensures j < DueCount(start, rate, now) <==> Due(start, rate, j) <= now
  {
    hide Times, Offset;
    var r := rate as real;
    OffsetTimes(rate, j);
    TimesOrder(0.0, Offset(rate, j), r);
    TimesOrder(Offset(rate, j), now - start, r);
  }

  lemma DueIncreases(start: real, rate: nat, i: nat, j: nat)
    requires rate > 0
    ensures i < j <==> Due(start, rate, i) < Due(start, rate, j)
  {
    hide Times, Offset;
    OffsetTimes(rate, i);
    OffsetTimes(rate, j);
    TimesOrder(Offset(rate, j), Offset(rate, i), rate as real);
  }

  lemma LaterMeansMore(start: real, rate: nat, now: real, later: real)
    requires rate > 0 && now <= later
    ensures DueCount(start, rate, now) <= DueCount(start, rate, later)
  {
    var n := DueCount(start, rate, now);
    if n > 0 {
      CountedIsDue(start, rate, now, n - 1);
      CountedIsDue(start, rate, later, n - 1);
    }
  }

  // ----- what the loop publishes -----

  /** One published message: its number, its timestamp, and the clock reading that let it go. */
  datatype Publication = Publication(index: nat, timestamp: int, observed: real)

  ghost predicate Nondecreasing(readings: seq<real>) {
    forall i, j :: 0 <= i <= j < |readings| ==> readings[i] <= readings[j]
  }

  /** The first reading not before an instant; the length if there is none. */
  function FirstAt(readings: seq<real>, t: real): (i: nat)
    ensures i <= |readings| && (i < |readings| ==> readings[i] >= t) && forall k :: 0 <= k < i ==> readings[k] < t
  {
    if readings == [] then 0
    else
      var n := |readings| - 1;
      var before := FirstAt(readings[..n], t);
      if before < n then before else if readings[n] >= t then n else n + 1
  }

  /**
   Messages of one channel after the given readings: all that are due, each let go by the first reading
   not before it.
   */
  function Emitted(start: real, rate: nat, readings: seq<real>): seq<Publication>
    requires rate > 0
  {
    if readings == [] then []
    else
      seq(DueCount(start, rate, readings[|readings| - 1]), j requires 0 <= j =>
        Publication(j + 1, Stamp(rate, j + 1),
                    if FirstAt(readings, Due(start, rate, j)) < |readings| then
                      readings[FirstAt(readings, Due(start, rate, j))] else start))
  }

  /** The inner loop: publishes one channel's due messages at one reading. */
  method PublishDue(start: real, end: real, rate: nat, count: nat, now: real) returns (n: nat, batch: seq<Publication>)
    requires rate > 0 && start <= now < end && count <= DueCount(start, rate, now)
    ensures n == DueCount(start, rate, now)
    ensures batch == seq(n - count, k requires 0 <= k => Publication(count + k + 1, Stamp(rate, count + k + 1), now))
  {
    n, batch := count, [];
    var dueAt := Due(start, rate, n);
    while dueAt <= now && dueAt < end
      invariant count <= n <= DueCount(start, rate, now) && dueAt == Due(start, rate, n)
      invariant batch == seq(n - count, k requires 0 <= k =>
                  Publication(count + k + 1, Stamp(rate, count + k + 1), now))
      decreases DueCount(start, rate, now) - n
    {
      CountedIsDue(start, rate, now, n);
      n := n + 1;
      batch := batch + [Publication(n, Stamp(rate, n), now)];
      dueAt := Due(start, rate, n);
    }
    CountedIsDue(start, rate, now, n);
  }

  lemma EmittedGrows(start: real, rate: nat, readings: seq<real>, now: real, batch: seq<Publication>)
    requires rate > 0 && Nondecreasing(readings + [now])
    requires var n := |Emitted(start, rate, readings)|;
             && n <= DueCount(start, rate, now)
             && batch == seq(DueCount(start, rate, now) - n, k requires 0 <= k =>
                  Publication(n + k + 1, Stamp(rate, n + k + 1), now))
    ensures Emitted(start, rate, readings + [now]) == Emitted(start, rate, readings) + batch
  {
    var all := readings + [now];
    var old', new' := Emitted(start, rate, readings), Emitted(start, rate, all);
    assert all[..|readings|] == readings;
    hide DueCount, Stamp, Due;
    forall j | 0 <= j < |new'| ensures new'[j] == (old' + batch)[j] {
      if j < |old'| {
        CountedIsDue(start, rate, readings[|readings| - 1], j);
      } else {
        CountedIsDue(start, rate, now, j);
        if readings != [] {
          CountedIsDue(start, rate, readings[|readings| - 1], j);
        }
      }
    }
  }

  lemma EmittedSoFar(start: real, rate: nat, readings: seq<real>, now: real)
    requires rate > 0 && Nondecreasing(readings + [now])
    ensures |Emitted(start, rate, readings)| <= DueCount(start, rate, now)
  {
    if readings != [] {
      assert (readings + [now])[|readings| - 1] == readings[|readings| - 1] && (readings + [now])[|readings|] == now;
      LaterMeansMore(start, rate, readings[|readings| - 1], now);
    }
  }

  /** The earlier of the end and every channel's next due instant. */
  function SleepUntil(end: real, next: seq<real>): (t: real)
    ensures t <= end && (forall c :: 0 <= c < |next| ==> t <= next[c]) && (t == end || t in next)
  {
    if next == [] then end
    else
      var rest := SleepUntil(end, next[1..]);
      if next[0] < rest then next[0] else rest
  }

  datatype Schedule = Schedule(published: seq<seq<Publication>>, next: seq<real>, targets: seq<real>)

  ghost predicate AfterReadings(start: real, end: real, rates: seq<nat>, readings: seq<real>, s: Schedule)
    requires forall c :: 0 <= c < |rates| ==> rates[c] > 0
  {
    && |s.published| == |s.next| == |rates|
    && (forall c :: 0 <= c < |rates| ==> s.published[c] == Emitted(start, rates[c], readings))
    && (forall c :: 0 <= c < |rates| ==> s.next[c] == Due(start, rates[c], |s.published[c]|))
    && |s.targets| == |readings|
    && (forall i :: 0 <= i < |readings| ==> s.targets[i] == TargetAfter(start, end, rates, readings[..i + 1]))
  }

  /** What the loop sleeps for after the given readings. */
  function TargetAfter(start: real, end: real, rates: seq<nat>, readings: seq<real>): real
    requires forall c :: 0 <= c < |rates| ==> rates[c] > 0
  {
    SleepUntil(end, seq(|rates|, c requires 0 <= c < |rates| =>
      Due(start, rates[c], |Emitted(start, rates[c], readings)|)))
  }

  /** The outer loop over its clock readings; it stops at the first reading not before the end. */
  method RunOutputSchedule(start: real, end: real, rates: seq<nat>, clock: seq<real>) returns (s: Schedule, heads: nat)
    requires forall c :: 0 <= c < |rates| ==> rates[c] > 0
    requires Nondecreasing(clock) && forall i :: 0 <= i < |clock| ==> start <= clock[i]
    ensures heads == FirstAt(clock, end)
    ensures AfterReadings(start, end, rates, clock[..heads], s)
  {
    hide AfterReadings, Nondecreasing, Due;
    s := Schedule(seq(|rates|, _ => []), seq(|rates|, c requires 0 <= c < |rates| => Due(start, rates[c], 0)), []);
    NothingRead(start, end, rates);
    heads := 0;
    while heads < |clock| && clock[heads] < end
      invariant heads <= |clock| && forall i :: 0 <= i < heads ==> clock[i] < end
      invariant AfterReadings(start, end, rates, clock[..heads], s)
    {
      var now := clock[heads];
      PrefixOrdered(clock, heads);
      s := OnePass(start, end, rates, clock[..heads], now, s);
      heads := heads + 1;
    }
  }

  lemma NothingRead(start: real, end: real, rates: seq<nat>)
    requires forall c :: 0 <= c < |rates| ==> rates[c] > 0
    ensures AfterReadings(start, end, rates, [],
              Schedule(seq(|rates|, _ => []), seq(|rates|, c requires 0 <= c < |rates| => Due(start, rates[c], 0)), []))
  {
  }

  lemma PrefixOrdered(clock: seq<real>, n: nat)
    requires Nondecreasing(clock) && n < |clock|
    ensures clock[..n] + [clock[n]] == clock[..n + 1] && Nondecreasing(clock[..n] + [clock[n]])
  {
  }

  /** One pass over all channels at one reading, and the time the loop then sleeps for. */
  method OnePass(start: real, end: real, rates: seq<nat>, ghost readings: seq<real>, now: real, s: Schedule)
      returns (r: Schedule)
    requires forall c :: 0 <= c < |rates| ==> rates[c] > 0
    requires Nondecreasing(readings + [now]) && start <= now < end && AfterReadings(start, end, rates, readings, s)
    ensures AfterReadings(start, end, rates, readings + [now], r)
  {
    hide Emitted, Due, DueCount, TargetAfter, Nondecreasing;
    var published, next := s.published, s.next;
    for c := 0 to |rates|
      invariant |published| == |next| == |rates|
      invariant forall d :: 0 <= d < c ==> published[d] == Emitted(start, rates[d], readings + [now])
      invariant forall d :: 0 <= d < c ==> next[d] == Due(start, rates[d], |published[d]|)
      invariant forall d :: c <= d < |rates| ==> published[d] == s.published[d] && next[d] == s.next[d]
    {
      EmittedSoFar(start, rates[c], readings, now);
      var n, batch := PublishDue(start, end, rates[c], |published[c]|, now);
      EmittedGrows(start, rates[c], readings, now, batch);
      published := published[c := published[c] + batch];
      next := next[c := Due(start, rates[c], n)];
    }
    r := Schedule(published, next, s.targets + [SleepUntil(end, next)]);
    TargetsGrow(start, end, rates, readings, now, s.targets, next);
  }

  lemma TargetsGrow(start: real, end: real, rates: seq<nat>, readings: seq<real>, now: real, targets: seq<real>,
      next: seq<real>)
    requires forall c :: 0 <= c < |rates| ==> rates[c] > 0
    requires |targets| == |readings| && forall i :: 0 <= i < |readings| ==>
               targets[i] == TargetAfter(start, end, rates, readings[..i + 1])
    requires |next| == |rates|
    requires forall c :: 0 <= c < |rates| ==>
               next[c] == Due(start, rates[c], |Emitted(start, rates[c], readings + [now])|)
    ensures var all := readings + [now];
            forall i :: 0 <= i < |all| ==>
              (targets + [SleepUntil(end, next)])[i] == TargetAfter(start, end, rates, all[..i + 1])
  {
    hide Emitted, Due, SleepUntil;
    var all := readings + [now];
    assert all[..|readings| + 1] == all;
    assert next == seq(|rates|, c requires 0 <= c < |rates| => Due(start, rates[c], |Emitted(start, rates[c], all)|));
    forall i | 0 <= i < |readings| ensures targets[i] == TargetAfter(start, end, rates, all[..i + 1]) {
      assert all[..i + 1] == readings[..i + 1];
    }
  }

  // ----- what the schedule guarantees -----

  /**
   At every point of the loop a channel has published exactly its messages due by the last reading,
   numbered from one without a gap, none before it was due.
   */
  lemma PublishedExactlyWhatIsDue(start: real, end: real, rates: seq<nat>, readings: seq<real>, s: Schedule, c: nat,
      j: nat)
    requires forall c :: 0 <= c < |rates| ==> rates[c] > 0
    requires AfterReadings(start, end, rates, readings, s) && Nondecreasing(readings) && c < |rates| && readings != []
    ensures var due, last := start + j as real / rates[c] as real, readings[|readings| - 1];
            && (j < |s.published[c]| <==> due <= last)
            && (j < |s.published[c]| ==>
                  && s.published[c][j].index == j + 1 && NearestStamp(s.published[c][j].timestamp, rates[c], j + 1)
                  && s.published[c][j].observed == readings[FirstAt(readings, due)] >= due)
            && s.next[c] > last
  {
    hide Emitted, Due, DueCount, TargetAfter, Stamp, Nondecreasing, NearestStamp;
    hide AfterReadings, FirstAt;
    DueIs(start, rates[c], j);
    PublishedByDue(start, end, rates, readings, s, c, j);
  }

  lemma PublishedByDue(start: real, end: real, rates: seq<nat>, readings: seq<real>, s: Schedule, c: nat, j: nat)
    requires forall c :: 0 <= c < |rates| ==> rates[c] > 0
    requires AfterReadings(start, end, rates, readings, s) && Nondecreasing(readings) && c < |rates| && readings != []
    ensures var due, last := Due(start, rates[c], j), readings[|readings| - 1];
            && |s.published| == |s.next| == |rates|
            && (j < |s.published[c]| <==> due <= last)
            && (j < |s.published[c]| ==>
                  && FirstAt(readings, due) < |readings|
                  && s.published[c][j].index == j + 1 && NearestStamp(s.published[c][j].timestamp, rates[c], j + 1)
                  && s.published[c][j].observed == readings[FirstAt(readings, due)] >= due)
            && s.next[c] > last
  {
    hide Emitted, Due, DueCount, TargetAfter, Stamp, Nondecreasing, NearestStamp;
    StampIsNearest(rates[c], j + 1);
    EmittedAt(start, rates[c], readings, j);
  }

  lemma DueIs(start: real, rate: nat, j: nat)
    requires rate > 0
    ensures Due(start, rate, j) == start + j as real / rate as real
  {
  }

  lemma EmittedAt(start: real, rate: nat, readings: seq<real>, j: nat)
    requires rate > 0 && Nondecreasing(readings) && readings != []
    ensures var e, last := Emitted(start, rate, readings), readings[|readings| - 1];
            && (j < |e| <==> Due(start, rate, j) <= last)
            && Due(start, rate, |e|) > last
            && (j < |e| ==>
                  && FirstAt(readings, Due(start, rate, j)) < |readings|
                  && e[j] == Publication(j + 1, Stamp(rate, j + 1), readings[FirstAt(readings, Due(start, rate, j))]))
  {
    hide Due, DueCount, Stamp, FirstAt, Nondecreasing;
    var last := readings[|readings| - 1];
    CountedIsDue(start, rate, last, j);
    CountedIsDue(start, rate, last, DueCount(start, rate, last));
  }

  /**
   Lateness never accumulates: if the loop's first reading is within `slack` of the start and each
   later reading within `slack` of the instant the loop slept for, then every message is published
   within `slack` of its due instant, however long the schedule runs.
   */
  lemma NoDrift(start: real, end: real, rates: seq<nat>, readings: seq<real>, s: Schedule, c: nat, j: nat, slack: real)
    requires forall c :: 0 <= c < |rates| ==> rates[c] > 0
    requires AfterReadings(start, end, rates, readings, s) && Nondecreasing(readings) && c < |rates| &&
               j < |s.published[c]|
    requires readings != [] && readings[0] <= start + slack
    requires forall i :: 0 < i < |readings| ==> readings[i] <= s.targets[i - 1] + slack
    ensures s.published[c][j].observed <= start + j as real / rates[c] as real + slack
  {
    hide Emitted, Due, DueCount, TargetAfter, Stamp, Nondecreasing;
    PublishedExactlyWhatIsDue(start, end, rates, readings, s, c, j);
    DueIs(start, rates[c], j);
    var due := Due(start, rates[c], j);
    var first := FirstAt(readings, due);
    if first > 0 {
      PrefixNondecreasing(readings, first);
      TargetNotPast(start, end, rates, readings[..first], c, j);
    } else {
      DueStarts(start, rates[c], j);
    }
  }

  lemma PrefixNondecreasing(readings: seq<real>, n: nat)
    requires Nondecreasing(readings) && n <= |readings|
    ensures Nondecreasing(readings[..n])
  {
  }

  lemma DueStarts(start: real, rate: nat, j: nat)
    requires rate > 0
    ensures start <= Due(start, rate, j)
  {
    if j > 0 {
      DueIncreases(start, rate, 0, j);
    }
  }

  /** While message j is unpublished the loop never sleeps past its due instant. */
  lemma TargetNotPast(start: real, end: real, rates: seq<nat>, readings: seq<real>, c: nat, j: nat)
    requires forall c :: 0 <= c < |rates| ==> rates[c] > 0
    requires c < |rates| && readings != [] && Nondecreasing(readings) &&
               readings[|readings| - 1] < Due(start, rates[c], j)
    ensures TargetAfter(start, end, rates, readings) <= Due(start, rates[c], j)
  {
    hide Emitted, Due, DueCount, Nondecreasing;
    var n := |Emitted(start, rates[c], readings)|;
    EmittedAt(start, rates[c], readings, j);
    DueIncreases(start, rates[c], j, n);
    var next := seq(|rates|, d requires 0 <= d < |rates| => Due(start, rates[d], |Emitted(start, rates[d], readings)|));
    assert next[c] == Due(start, rates[c], n);
  }
}
