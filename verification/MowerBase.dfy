/**
 The mower's base process: the serial receiver that overwrites the remote channels, the navigation
 callback, and the 10 ms tick that arbitrates between them under two watchdogs.
 */
module MowerBase {
  import opened Basics
  import opened LittleEndian
  import opened Sbus

  const MANUAL_SWITCH: nat := 1722
  const REMOTE_LIMIT: nat := 50
  const NAV_LIMIT: nat := 10
  const STICK_MIN := 282.0
  const STICK_MAX := 1722.0
  const STEER_STEP := 0.01
  const SLEW := 0.02

  /** Where a stick reading, clamped to the stick's travel, lies between its ends. */
  function StickShare(input: real): (part: real)
    ensures 0.0 <= part <= 1.0
    ensures (input <= STICK_MIN ==> part == 0.0) && (input >= STICK_MAX ==> part == 1.0)
  {
    var x := if input < STICK_MIN then STICK_MIN else if input > STICK_MAX then STICK_MAX else input;
    (x - STICK_MIN) / (STICK_MAX - STICK_MIN)
  }

  /** A stick reading mapped linearly to an output range. */
  function MapValueClamped(input: real, outMin: real, outMax: real): real {
    StickShare(input) * (outMax - outMin) + outMin
  }

  lemma MapWithin(input: real, outMin: real, outMax: real)
    ensures var r := MapValueClamped(input, outMin, outMax);
            (outMin <= outMax ==> outMin <= r <= outMax) && (outMax <= outMin ==> outMax <= r <= outMin)
    ensures input <= STICK_MIN ==> MapValueClamped(input, outMin, outMax) == outMin
    ensures input >= STICK_MAX ==> MapValueClamped(input, outMin, outMax) == outMax
  {
    hide StickShare;
    Share(StickShare(input), outMax - outMin);
  }

  lemma Share(part: real, whole: real)
    requires 0.0 <= part <= 1.0
    ensures whole >= 0.0 ==> 0.0 <= part * whole <= whole
    ensures whole <= 0.0 ==> whole <= part * whole <= 0.0
  {
  }

  function Clamp(x: real, bound: real): real {
    var y := if x > bound then bound else x;
    if y < -bound then -bound else y
  }

  /** The navigation branch's slew step. */
  function Slewed(steer: real, target: real): real {
    if steer > target + SLEW then steer - SLEW else if steer < target - SLEW then steer + SLEW else steer
  }

  // ----- state -----

  datatype NavCommand = NavCommand(velocity: real, angular: real, steer: real)

  /** `steerBound` is thirty degrees in radians. */
  datatype Base = Base(
    channels: seq<nat>,
    nav: NavCommand,
    navWatchdog: int,
    navOnline: bool,
    remoteWatchdog: int,
    remoteOnline: bool,
    v: real,
    w: real,
    steer: real)

  function Powered(): Base {
    Base(seq(CHANNELS, _ => 0), NavCommand(0.0, 0.0, 0.0), 0, false, 0, false, 0.0, 0.0, 0.0)
  }

  /** What one serial read does: only a 25-byte read that starts with the frame header is decoded. */
  function Received(s: Base, read: Bytes): Base {
    if |read| == FRAME_SIZE && read[0] == FRAME_HEADER then s.(channels := Decode(read[1..1 + PAYLOAD])) else s
  }

  function Navigated(s: Base, cmd: NavCommand): Base {
    s.(nav := cmd, navWatchdog := 0, navOnline := true)
  }

  predicate Manual(s: Base)
    requires |s.channels| == CHANNELS
  {
    s.channels[5] == MANUAL_SWITCH
  }

  /** The manual part of a tick. */
  function Steered(s: Base, steerBound: real): Base
    requires |s.channels| == CHANNELS
  {
    if !Manual(s) then s
    else
      s.(v := MapValueClamped(s.channels[2] as real, -1.5, 1.5),
         w := MapValueClamped(s.channels[0] as real, 1.5, -1.5),
         steer := Clamp(s.steer + MapValueClamped(s.channels[0] as real, -1.0, 1.0) * STEER_STEP, steerBound),
         remoteWatchdog := 0, remoteOnline := true)
  }

  /** Stick ends: full back is -1.5 m/s and turns one way, full forward is 1.5 m/s; the turn stick is mirrored. */
  lemma StickEnds(s: Base, steerBound: real)
    requires |s.channels| == CHANNELS && Manual(s)
    ensures var r := Steered(s, steerBound);
            && (s.channels[2] <= 282 ==> r.v == -1.5) && (s.channels[2] >= 1722 ==> r.v == 1.5)
            && (s.channels[0] <= 282 ==> r.w == 1.5 && r.steer == Clamp(s.steer - STEER_STEP, steerBound))
            && (s.channels[0] >= 1722 ==> r.w == -1.5 && r.steer == Clamp(s.steer + STEER_STEP, steerBound))
            && (s.channels[2] == 1002 ==> r.v == 0.0) &&
                 (s.channels[0] == 1002 ==> r.w == 0.0 && r.steer == Clamp(s.steer, steerBound))
  {
    hide Clamp;
    StickCentre();
    MapWithin(s.channels[2] as real, -1.5, 1.5);
    MapWithin(s.channels[0] as real, 1.5, -1.5);
    MapWithin(s.channels[0] as real, -1.0, 1.0);
  }

  lemma StickCentre()
    ensures StickShare(1002.0) == 0.5
  {
  }

  function Watched(s: Base): Base {
    var s1 := if s.remoteOnline then
      s.(remoteWatchdog := s.remoteWatchdog + 1, remoteOnline := s.remoteWatchdog + 1 <= REMOTE_LIMIT) else s;
    if s1.navOnline then s1.(navWatchdog := s1.navWatchdog + 1, navOnline := s1.navWatchdog + 1 <= NAV_LIMIT) else s1
  }

  function Arbitrated(s: Base, steerBound: real): Base {
    if s.remoteOnline then s
    else if s.navOnline then s.(v := s.nav.velocity, w := s.nav.angular, steer := Clamp(s.nav.steer, steerBound))
    else s.(v := 0.0, w := 0.0)
  }

  function Ticked(s: Base, steerBound: real): Base
    requires |s.channels| == CHANNELS
  {
    Arbitrated(Watched(Steered(s, steerBound)), steerBound)
  }

  // ----- the process -----

  class MowerBase {
    const steerBound: real
    var channels: seq<nat>
    var nav: NavCommand
    var navWatchdog: int
    var navOnline: bool
    var remoteWatchdog: int
    var remoteOnline: bool
    var v: real
    var w: real
    var steer: real

    function Value(): Base
      reads this
    {
      Base.Base(channels, nav, navWatchdog, navOnline, remoteWatchdog, remoteOnline, v, w, steer)
    }

    predicate Valid()
      reads this
    {
      |channels| == CHANNELS && steerBound >= 0.0
    }

    constructor (steerBound: real)
      requires steerBound >= 0.0
      ensures Valid() && Value() == Powered() && this.steerBound == steerBound
    {
      this.steerBound := steerBound;
      channels, nav := seq(CHANNELS, _ => 0), NavCommand(0.0, 0.0, 0.0);
      navWatchdog, navOnline, remoteWatchdog, remoteOnline := 0, false, 0, false;
      v, w, steer := 0.0, 0.0, 0.0;
    }

    /** One read of the serial thread. The original repeats the same assignments once per byte. */
    method ReceiveSerial(read: Bytes)
      requires Valid()
      modifies this`channels
      ensures Valid() && Value() == Received(old(Value()), read)
    {
      hide Decode;
      if |read| == FRAME_SIZE {
        for i := 0 to |read|
          invariant channels == if i > 0 && read[0] == FRAME_HEADER then Decode(read[1..1 + PAYLOAD]) else old(channels)
        {
          if read[0] == FRAME_HEADER {
            channels := Decode(read[1..1 + PAYLOAD]);
          }
        }
      }
    }

    method NavChassisCmdCallback(cmd: NavCommand)
      modifies this`nav, this`navWatchdog, this`navOnline
      ensures Value() == Navigated(old(Value()), cmd)
    {
      nav, navWatchdog, navOnline := cmd, 0, true;
    }

    /** Both branches of the loop end their steering with this clamp. */
    method ClampSteer()
      modifies this`steer
      ensures steer == Clamp(old(steer), steerBound)
    {
      if steer > steerBound {
        steer := steerBound;
      }
      if steer < -steerBound {
        steer := -steerBound;
      }
    }

    /** One pass of the main loop; returns whether the base reports manual control. */
    method Tick() returns (isManual: bool)
      requires Valid()
      modifies this
      ensures Valid() && Value() == Ticked(old(Value()), steerBound) && isManual == remoteOnline
    {
      hide MapValueClamped, Clamp;
      if channels[5] == MANUAL_SWITCH {
        v := MapValueClamped(channels[2] as real, -1.5, 1.5);
        w := MapValueClamped(channels[0] as real, 1.5, -1.5);
        steer := steer + MapValueClamped(channels[0] as real, -1.0, 1.0) * STEER_STEP;
        ClampSteer();
        remoteWatchdog, remoteOnline := 0, true;
      }
      if remoteOnline {
        remoteWatchdog := remoteWatchdog + 1;
        if remoteWatchdog > REMOTE_LIMIT {
          remoteOnline := false;
        }
      }
      if navOnline {
        navWatchdog := navWatchdog + 1;
        if navWatchdog > NAV_LIMIT {
          navOnline := false;
        }
      }
      if !remoteOnline {
        if navOnline {
          v, w, steer := nav.velocity, nav.angular, nav.steer;
          steer := Slewed(steer, nav.steer);
          ClampSteer();
        } else {
          v, w := 0.0, 0.0;
        }
      }
      return remoteOnline;
    }
  }

  // ----- runs -----

  datatype Event = Read(bytes: Bytes) | Nav(cmd: NavCommand) | Tick

  function Run(steerBound: real, events: seq<Event>): (s: Base)
    ensures |s.channels| == CHANNELS
  {
    if events == [] then Powered()
    else
      var s := Run(steerBound, events[..|events| - 1]);
      match events[|events| - 1]
      case Read(bytes) => Received(s, bytes)
      case Nav(cmd) => Navigated(s, cmd)
      case Tick => Ticked(s, steerBound)
  }

  /** Ticks since the last tick that saw the manual switch, that tick being number 0. */
  function SinceManual(steerBound: real, events: seq<Event>): Option<nat> {
    if events == [] then None
    else
      var front := events[..|events| - 1];
      var before := SinceManual(steerBound, front);
      if !events[|events| - 1].Tick? then before
      else if Manual(Run(steerBound, front)) then Some(0)
      else if before.None? then None else Some(before.value + 1)
  }

  /** Ticks since the last navigation command, and that command. */
  function SinceNav(events: seq<Event>): Option<(nat, NavCommand)> {
    if events == [] then None
    else
      var before := SinceNav(events[..|events| - 1]);
      match events[|events| - 1]
      case Nav(cmd) => Some((0, cmd))
      case Tick => if before.None? then None else Some((before.value.0 + 1, before.value.1))
      case Read(_) => before
  }

  /**
   The base is under manual control for exactly fifty ticks from the last tick that saw the switch,
   and navigation counts as online for exactly ten ticks from its last command.
   */
  lemma {:induction false} WatchdogsCountTicks(steerBound: real, events: seq<Event>)
    ensures var s, manual, nav := Run(steerBound, events), SinceManual(steerBound, events), SinceNav(events);
            && (s.remoteOnline <==> manual.Some? && manual.value < 50)
            && (s.remoteOnline ==> s.remoteWatchdog == manual.value + 1)
            && (s.navOnline <==> nav.Some? && nav.value.0 <= 10)
            && (s.navOnline ==> s.navWatchdog == nav.value.0)
            && (nav.Some? ==> s.nav == nav.value.1)
  {
    hide Decode, MapValueClamped, Clamp;
    if events != [] {
      WatchdogsCountTicks(steerBound, events[..|events| - 1]);
    }
  }

  /** Where a stick stands, from -1 at one end to 1 at the other. */
  function Stick(reading: nat): real {
    if reading <= 282 then -1.0 else if reading >= 1722 then 1.0 else (reading as real - 1002.0) / 720.0
  }

  function Limited(x: real, bound: real): real
    requires bound >= 0.0
  {
    if x >= bound then bound else if x <= -bound then -bound else x
  }

  lemma MapIsStick(reading: nat, outMin: real, outMax: real)
    ensures MapValueClamped(reading as real, outMin, outMax) ==
              (outMin + outMax) / 2.0 + Stick(reading) * ((outMax - outMin) / 2.0)
  {
    var part, width := StickShare(reading as real), outMax - outMin;
    assert part == (Stick(reading) + 1.0) / 2.0;
    assert part * width == Stick(reading) * (width / 2.0) + width / 2.0;
  }

  /**
   A tick that sees the manual switch sets speed, turn and steering from the two sticks, at every reading.
   A later tick that is still under manual control leaves them as they were.
   */
  lemma ManualTickObeysSticks(steerBound: real, events: seq<Event>)
    requires steerBound >= 0.0 && events != [] && events[|events| - 1].Tick?
    ensures var s, r := Run(steerBound, events[..|events| - 1]), Run(steerBound, events);
            var manual := SinceManual(steerBound, events);
            && (manual == Some(0) <==> s.channels[5] == 1722)
            && (manual == Some(0) ==>
                  && r.v == 1.5 * Stick(s.channels[2])
                  && r.w == -1.5 * Stick(s.channels[0])
                  && r.steer == Limited(s.steer + 0.01 * Stick(s.channels[0]), steerBound))
            && (manual.Some? && 0 < manual.value < 50 ==> r.v == s.v && r.w == s.w && r.steer == s.steer)
  {
    hide Decode, MapValueClamped, Stick;
    var s := Run(steerBound, events[..|events| - 1]);
    WatchdogsCountTicks(steerBound, events);
    MapIsStick(s.channels[2], -1.5, 1.5);
    MapIsStick(s.channels[0], 1.5, -1.5);
    MapIsStick(s.channels[0], -1.0, 1.0);
  }

  /** The payload of the last complete frame that arrived: 25 bytes that begin with the header. */
  function LastFrame(events: seq<Event>): Option<Bytes> {
    if events == [] then None
    else
      var e := events[|events| - 1];
      if e.Read? && |e.bytes| == 25 && e.bytes[0] == 0x0F then Some(e.bytes[1..23])
      else LastFrame(events[..|events| - 1])
  }

  /** The channels are those of the last complete frame, and zero before the first. */
  lemma {:induction false} ChannelsAreLastFrame(steerBound: real, events: seq<Event>)
    ensures var last := LastFrame(events);
            && (last.Some? ==> |last.value| == PAYLOAD)
            && Run(steerBound, events).channels ==
                 if last.Some? then Decode(last.value) else seq(CHANNELS, _ => 0)
  {
    hide Decode, MapValueClamped, Clamp;
    if events != [] {
      ChannelsAreLastFrame(steerBound, events[..|events| - 1]);
    }
  }

  /** After every tick outside manual control the base obeys the last fresh navigation command or stands still. */
  lemma TickObeysFreshest(steerBound: real, events: seq<Event>)
    requires events != [] && events[|events| - 1].Tick?
    ensures var s, manual, nav := Run(steerBound, events), SinceManual(steerBound, events), SinceNav(events);
            manual.None? || manual.value >= 50 ==>
              if nav.Some? && nav.value.0 <= 10 then
                s.v == nav.value.1.velocity && s.w == nav.value.1.angular &&
                  s.steer == Clamp(nav.value.1.steer, steerBound)
              else s.v == 0.0 && s.w == 0.0 && s.steer == Run(steerBound, events[..|events| - 1]).steer
  {
    hide Decode, MapValueClamped, Clamp;
    WatchdogsCountTicks(steerBound, events);
  }

  /** Under manual control the speeds stay within 1.5, and the steering angle never leaves its bound. */
  lemma {:induction false} RunsStayWithinBounds(steerBound: real, events: seq<Event>)
    requires steerBound >= 0.0
    ensures var s := Run(steerBound, events);
            Abs(s.steer) <= steerBound && (s.remoteOnline ==> Abs(s.v) <= 1.5 && Abs(s.w) <= 1.5)
  {
    hide Decode, MapValueClamped;
    if events != [] {
      var front := events[..|events| - 1];
      RunsStayWithinBounds(steerBound, front);
      var s := Run(steerBound, front);
      MapWithin(s.channels[2] as real, -1.5, 1.5);
      MapWithin(s.channels[0] as real, 1.5, -1.5);
    }
  }

  /**
   The slew is applied to the value just assigned from its own target, so it does nothing and limits
   no rate: after any run, two navigation passes can take the steering from any allowed angle to any other.
   */
  lemma SlewNeverActs(steerBound: real, events: seq<Event>, from: real, to: real)
    requires Abs(from) <= steerBound && Abs(to) <= steerBound
    requires !Manual(Run(steerBound, events)) && !Run(steerBound, events).remoteOnline
    ensures Slewed(to, to) == to
    ensures var before := events + [Nav(NavCommand(0.0, 0.0, from)), Tick];
            var after := before + [Nav(NavCommand(0.0, 0.0, to)), Tick];
            Run(steerBound, before).steer == from && Run(steerBound, after).steer == to
  {
    hide Decode;
    var before := events + [Nav(NavCommand(0.0, 0.0, from)), Tick];
    NavPass(steerBound, events, from);
    NavPass(steerBound, before, to);
  }

  lemma NavPass(steerBound: real, events: seq<Event>, angle: real)
    requires Abs(angle) <= steerBound
    requires !Manual(Run(steerBound, events)) && !Run(steerBound, events).remoteOnline
    ensures var r := Run(steerBound, events + [Nav(NavCommand(0.0, 0.0, angle)), Tick]);
            r.steer == angle && !Manual(r) && !r.remoteOnline
  {
    hide Decode;
    var told := events + [Nav(NavCommand(0.0, 0.0, angle))];
    var passed := events + [Nav(NavCommand(0.0, 0.0, angle)), Tick];
    assert told[..|told| - 1] == events && passed[..|passed| - 1] == told;
    assert passed[|passed| - 1] == Tick;
  }
}
