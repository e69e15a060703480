/**
 Whole LVX2 files: frames tiling the file, the document a file stands for, and the pure parser with
 its optional frame limit. The parser accepts exactly the printed forms of well-formed documents.
 */
module Lvx2Document {
  import opened Basics
  import opened LittleEndian
  import opened Lvx2Format

  // ----- frames -----

  function FrameSize(packages: seq<Package>): (n: nat)
    requires ValidPackages(packages)
    ensures n >= FRAME_HEADER
  {
    FRAME_HEADER + |PrintPackages(packages)|
  }

  function PrintFrameHeader(at: nat, next: nat, index: nat): (b: Bytes)
    requires at < Span(8) && next < Span(8) && index < Span(8)
    ensures |b| == FRAME_HEADER
  {
    Le(at, 8) + Le(next, 8) + Le(index, 8)
  }

  function PrintFrame(at: nat, index: nat, packages: seq<Package>): (b: Bytes)
    requires ValidPackages(packages) && index < Span(8) && at + FrameSize(packages) < Span(8)
    ensures |b| == FrameSize(packages)
  {
    PrintFrameHeader(at, at + FrameSize(packages), index) + PrintPackages(packages)
  }

  ghost predicate ValidFrames(frames: seq<seq<Package>>) {
    forall i :: 0 <= i < |frames| ==> ValidPackages(frames[i])
  }

  /** Where the given frames end when the first starts at `at`. */
  function FramesEnd(at: nat, frames: seq<seq<Package>>): (end: nat)
    requires ValidFrames(frames)
    ensures at <= end
    decreases |frames|
  {
    if frames == [] then at else FramesEnd(at + FrameSize(frames[0]), frames[1..])
  }

  /** Frames written one after another, each header naming its own position and the next one's. */
  function PrintFrames(at: nat, index: nat, frames: seq<seq<Package>>): (b: Bytes)
    requires ValidFrames(frames) && index <= at && FramesEnd(at, frames) < Span(8)
    ensures |b| == FramesEnd(at, frames) - at
    decreases |frames|
  {
    if frames == [] then []
    else PrintFrame(at, index, frames[0]) + PrintFrames(at + FrameSize(frames[0]), index + 1, frames[1..])
  }

  /** The parsed view of frames that tile the file from `at` on. */
  function LayOut(at: nat, index: nat, frames: seq<seq<Package>>): (r: seq<Frame>)
    requires ValidFrames(frames)
    ensures |r| == |frames|
    decreases |frames|
  {
    if frames == [] then []
    else
      var next := at + FrameSize(frames[0]);
      [Frame(at, next, index, frames[0])] + LayOut(next, index + 1, frames[1..])
  }

  /** The checks on a frame header, in the verifier's order. */
  function FrameGuard(header: Bytes, at: nat, count: nat, size: nat): Option<Lvx2Error>
    requires |header| == FRAME_HEADER
  {
    var current, next, index := UnLe(header[0..8]), UnLe(header[8..16]), UnLe(header[16..24]);
    if current != at then Some(CurrentOffsetDiffers)
    else if index != count then Some(IndexNotConsecutive)
    else if next < current + FRAME_HEADER || next > size then Some(NextOffsetOutside)
    else None
  }

  predicate More(at: nat, size: nat, count: nat, limit: Option<int>) {
    at < size && (limit.None? || count < limit.value)
  }

  function ParseFrame(data: Bytes, at: nat, count: nat): (r: Result<Frame, Lvx2Error>)
    ensures r.Ok? ==> at + FRAME_HEADER <= r.value.next <= |data| && r.value.current == at && r.value.index == count
  {
    if at + FRAME_HEADER > |data| then Err(TruncatedFrameHeader)
    else
      var header := data[at..at + FRAME_HEADER];
      var guard := FrameGuard(header, at, count, |data|);
      if guard.Some? then Err(guard.value)
      else
        var next := UnLe(header[8..16]);
        var packages := ParsePackages(data, at + FRAME_HEADER, next);
        if packages.Err? then Err(packages.error) else Ok(Frame(at, next, count, packages.value))
  }

  /** All frames from `at` on, up to the end of the file or the frame limit. */
  function ParseFrames(data: Bytes, at: nat, count: nat, limit: Option<int>): (r: Result<seq<Frame>, Lvx2Error>)
    requires at <= |data|
    decreases |data| - at
  {
    if !More(at, |data|, count, limit) then Ok([])
    else
      var first := ParseFrame(data, at, count);
      if first.Err? then Err(first.error)
      else
        var rest := ParseFrames(data, first.value.next, count + 1, limit);
        if rest.Err? then rest else Ok([first.value] + rest.value)
  }

  /** Where the parsed frames end. */
  function Reached(at: nat, frames: seq<Frame>): nat {
    if frames == [] then at else frames[|frames| - 1].next
  }

  function PackagesOf(frames: seq<Frame>): (r: seq<seq<Package>>)
    ensures |r| == |frames|
  {
    seq(|frames|, i requires 0 <= i < |frames| => frames[i].packages)
  }

  // ----- one frame -----

  lemma ThreeFields(a: Bytes, b: Bytes, c: Bytes)
    requires |a| == |b| == |c| == 8
    ensures var h := a + b + c; h[0..8] == a && h[8..16] == b && h[16..24] == c
  {
  }

  lemma FrameHeaderFields(at: nat, next: nat, index: nat)
    requires at < Span(8) && next < Span(8) && index < Span(8)
    ensures var h := PrintFrameHeader(at, next, index);
            UnLe(h[0..8]) == at && UnLe(h[8..16]) == next && UnLe(h[16..24]) == index
  {
    hide Le, UnLe, Span;
    ThreeFields(Le(at, 8), Le(next, 8), Le(index, 8));
    UnLeOfLe(at, 8);
    UnLeOfLe(next, 8);
    UnLeOfLe(index, 8);
  }

  lemma FrameHeaderBytes(h: Bytes)
    requires |h| == FRAME_HEADER
    ensures PrintFrameHeader(UnLe(h[0..8]), UnLe(h[8..16]), UnLe(h[16..24])) == h
  {
    hide Le, UnLe, Span;
    LeOfUnLe(h[0..8]);
    LeOfUnLe(h[8..16]);
    LeOfUnLe(h[16..24]);
    Slices(h, 0, 8, 16);
    Slices(h, 0, 16, 24);
  }

  lemma FrameParses(data: Bytes, at: nat, index: nat, packages: seq<Package>)
    requires ValidPackages(packages) && index <= at && at + FrameSize(packages) < Span(8) &&
               at + FrameSize(packages) <= |data|
    requires data[at..at + FrameSize(packages)] == PrintFrame(at, index, packages)
    ensures ParseFrame(data, at, index) == Ok(Frame(at, at + FrameSize(packages), index, packages))
  {
    var next := at + FrameSize(packages);
    var header, body := PrintFrameHeader(at, next, index), PrintPackages(packages);
    hide UnLe, Le, Span, ParseFrame, ParsePackages, PrintPackages, ValidPackages, PrintFrameHeader;
    assert next == at + |header| + |body|;
    FrameHeaderFields(at, next, index);
    BytesAt(data, at, header, body);
    PackagesParse(data, at + FRAME_HEADER, next, packages);
    FrameFrom(data, at, index, header, next, packages);
  }

  lemma FrameFrom(data: Bytes, at: nat, index: nat, header: Bytes, next: nat, packages: seq<Package>)
    requires |header| == FRAME_HEADER && at + FRAME_HEADER <= next <= |data| && data[at..at + FRAME_HEADER] == header
    requires UnLe(header[0..8]) == at && UnLe(header[8..16]) == next && UnLe(header[16..24]) == index
    requires ParsePackages(data, at + FRAME_HEADER, next) == Ok(packages)
    ensures ParseFrame(data, at, index) == Ok(Frame(at, next, index, packages))
  {
    hide UnLe, ParsePackages;
  }

  lemma ParsedFrame(data: Bytes, at: nat, count: nat)
    requires ParseFrame(data, at, count).Ok?
    ensures var f := ParseFrame(data, at, count).value;
            && f.current == at && f.index == count && ValidPackages(f.packages) && f.next == at + FrameSize(f.packages)
            && f.next < Span(8) && count < Span(8) && data[at..f.next] == PrintFrame(at, count, f.packages)
  {
    hide Le, UnLe, ParsePackages, PrintPackages, ValidPackages;
    var header := data[at..at + FRAME_HEADER];
    var f := ParseFrame(data, at, count).value;
    FrameHeaderBytes(header);
    ParsedPackages(data, at + FRAME_HEADER, f.next);
    Slices(data, at, at + FRAME_HEADER, f.next);
  }

  lemma FramesNil(data: Bytes, at: nat, index: nat, limit: Option<int>)
    requires index <= at <= |data| && at < Span(8)
    ensures ValidFrames([]) && FramesEnd(at, []) == at && PrintFrames(at, index, []) == [] &&
              LayOut(at, index, []) == []
    ensures PackagesOf([]) == []
    ensures !More(at, |data|, index, limit) ==> ParseFrames(data, at, index, limit) == Ok([])
  {
  }

  lemma FramesCons(at: nat, index: nat, first: seq<Package>, rest: seq<seq<Package>>)
    requires ValidPackages(first) && ValidFrames(rest)
    ensures var frames, next := [first] + rest, at + FrameSize(first);
            && ValidFrames(frames) && FramesEnd(at, frames) == FramesEnd(next, rest)
            && LayOut(at, index, frames) == [Frame(at, next, index, first)] + LayOut(next, index + 1, rest)
            && (index <= at && FramesEnd(next, rest) < Span(8) ==>
                  PrintFrames(at, index, frames) == PrintFrame(at, index, first) + PrintFrames(next, index + 1, rest))
  {
    hide FrameSize, PrintFrame, ValidPackages, Span;
    assert ([first] + rest)[1..] == rest;
  }

  // ----- all frames -----

  /** Printed frames parse back, whatever follows them, when the parser stops where they end. */
  lemma {:induction false} FramesParse(data: Bytes, at: nat, index: nat, frames: seq<seq<Package>>, limit: Option<int>)
    requires ValidFrames(frames) && index <= at && FramesEnd(at, frames) < Span(8) && FramesEnd(at, frames) <= |data|
    requires data[at..FramesEnd(at, frames)] == PrintFrames(at, index, frames)
    requires !More(FramesEnd(at, frames), |data|, index + |frames|, limit)
    requires limit.Some? && frames != [] ==> index + |frames| <= limit.value
    ensures ParseFrames(data, at, index, limit) == Ok(LayOut(at, index, frames))
    decreases |frames|
  {
    hide PrintFrame, ParseFrame, FrameSize, FramesEnd, PrintFrames, LayOut, Span, ParseFrames;
    FramesNil(data, at, index, limit);
    if frames != [] {
      var first, rest := frames[0], frames[1..];
      var next := at + FrameSize(first);
      assert frames == [first] + rest;
      FramesCons(at, index, first, rest);
      BytesAt(data, at, PrintFrame(at, index, first), PrintFrames(next, index + 1, rest));
      FrameParses(data, at, index, first);
      FramesParse(data, next, index + 1, rest, limit);
      ParseStep(data, at, index, limit, Frame(at, next, index, first), LayOut(next, index + 1, rest));
    }
  }

  lemma ParseStep(data: Bytes, at: nat, count: nat, limit: Option<int>, f: Frame, rest: seq<Frame>)
    requires at <= |data| && More(at, |data|, count, limit) && ParseFrame(data, at, count) == Ok(f)
    requires ParseFrames(data, f.next, count + 1, limit) == Ok(rest)
    ensures ParseFrames(data, at, count, limit) == Ok([f] + rest)
  {
    hide ParseFrame;
  }

  /**
   Whatever parses tiles the file: the frames are laid out one after another and their bytes are their
   printed form.
   */
  lemma {:induction false} ParsedFrames(data: Bytes, at: nat, count: nat, limit: Option<int>)
    requires count <= at <= |data| && ParseFrames(data, at, count, limit).Ok? && at < Span(8)
    ensures var frames := ParseFrames(data, at, count, limit).value;
            var contents := PackagesOf(frames);
            && ValidFrames(contents) && frames == LayOut(at, count, contents)
            && Reached(at, frames) == FramesEnd(at, contents) < Span(8) && FramesEnd(at, contents) <= |data|
            && data[at..FramesEnd(at, contents)] == PrintFrames(at, count, contents)
            && !More(FramesEnd(at, contents), |data|, count + |frames|, limit)
            && (limit.Some? && frames != [] ==> count + |frames| <= limit.value)
    decreases |data| - at
  {
    hide PrintFrame, ParseFrame, FrameSize, FramesEnd, PrintFrames, LayOut, ValidPackages, ValidFrames, PackagesOf,
      Span, ParseFrames;
    FramesNil(data, at, count, limit);
    if More(at, |data|, count, limit) {
      ParseMore(data, at, count, limit);
      var f := ParseFrame(data, at, count).value;
      var rest := ParseFrames(data, f.next, count + 1, limit).value;
      ParsedFrame(data, at, count);
      ParsedFrames(data, f.next, count + 1, limit);
      FramesCons(at, count, f.packages, PackagesOf(rest));
      PackagesOfCons(f, rest);
      Slices(data, at, f.next, FramesEnd(f.next, PackagesOf(rest)));
    }
  }

  lemma ParseMore(data: Bytes, at: nat, count: nat, limit: Option<int>)
    requires at <= |data| && More(at, |data|, count, limit) && ParseFrames(data, at, count, limit).Ok?
    ensures ParseFrame(data, at, count).Ok?
    ensures var f := ParseFrame(data, at, count).value;
            ParseFrames(data, f.next, count + 1, limit).Ok? &&
            ParseFrames(data, at, count, limit).value == [f] + ParseFrames(data, f.next, count + 1, limit).value
  {
    hide ParseFrame;
  }

  lemma PackagesOfCons(f: Frame, rest: seq<Frame>)
    ensures PackagesOf([f] + rest) == [f.packages] + PackagesOf(rest)
  {
  }

  // ----- headers -----

  predicate Canonical(serial: Bytes) {
    |serial| <= 16 && (serial != [] ==> serial[|serial| - 1] != 0)
  }

  /** Python's `rstrip(b"\0")`. */
  function Strip(field: Bytes): (serial: Bytes)
    ensures |serial| <= |field|
  {
    if field != [] && field[|field| - 1] == 0 then Strip(field[..|field| - 1]) else field
  }

  function Pad(serial: Bytes): (field: Bytes)
    requires |serial| <= 16
    ensures |field| == 16
  {
    serial + seq(16 - |serial|, _ => 0)
  }

  lemma {:induction false} StripOfPadded(serial: Bytes, zeros: nat)
    requires Canonical(serial)
    ensures Strip(serial + seq(zeros, _ => 0)) == serial
  {
    var field: Bytes := serial + seq(zeros, _ => 0);
    if zeros == 0 {
      assert field == serial;
    } else {
      assert field[..|field| - 1] == serial + seq(zeros - 1, _ => 0);
      StripOfPadded(serial, zeros - 1);
    }
  }

  lemma {:induction false} StripIsCanonical(field: Bytes)
    ensures var s := Strip(field);
            && (s != [] ==> s[|s| - 1] != 0)
            && field == s + seq(|field| - |s|, _ => 0)
  {
    if field != [] && field[|field| - 1] == 0 {
      StripIsCanonical(field[..|field| - 1]);
    }
  }

  ghost predicate ValidDevice(d: DeviceInfo) {
    && Canonical(d.serial) && Canonical(d.hubSerial)
    && d.lidarId < Span(4)
    && d.deviceType == MID360
    && |d.extrinsic| == 6 && forall i :: 0 <= i < 6 ==> |d.extrinsic[i]| == 4
  }

  function Six(values: seq<Bytes>): (b: Bytes)
    requires |values| == 6 && forall i :: 0 <= i < 6 ==> |values[i]| == 4
    ensures |b| == 24
  {
    values[0] + values[1] + values[2] + values[3] + values[4] + values[5]
  }

  function SixOf(b: Bytes): seq<Bytes>
    requires |b| == 24
  {
    [b[0..4], b[4..8], b[8..12], b[12..16], b[16..20], b[20..24]]
  }

  lemma SixRoundTrip(v: seq<Bytes>)
    requires |v| == 6 && forall i :: 0 <= i < 6 ==> |v[i]| == 4
    ensures SixOf(Six(v)) == v
  {
    var b := Six(v);
    assert b[0..4] == v[0] && b[4..8] == v[1] && b[8..12] == v[2];
    assert b[12..16] == v[3] && b[16..20] == v[4] && b[20..24] == v[5];
    assert v == [v[0], v[1], v[2], v[3], v[4], v[5]];
  }

  lemma SixBytes(b: Bytes)
    requires |b| == 24
    ensures |SixOf(b)| == 6 && (forall i :: 0 <= i < 6 ==> |SixOf(b)[i]| == 4) && Six(SixOf(b)) == b
  {
  }

  lemma FieldRoundTrip(field: Bytes)
    requires |field| == 16
    ensures Canonical(Strip(field)) && Pad(Strip(field)) == field
  {
    StripIsCanonical(field);
  }

  function PrintDevice(d: DeviceInfo): (b: Bytes)
    requires ValidDevice(d)
    ensures |b| == DEVICE_SIZE
  {
    Pad(d.serial) + Pad(d.hubSerial) + Le(d.lidarId, 4) +
      [d.lidarType, d.deviceType, if d.extrinsicEnabled then 1 else 0]
    + Six(d.extrinsic)
  }

  function DeviceOf(b: Bytes): DeviceInfo
    requires |b| == DEVICE_SIZE
  {
    DeviceInfo(Strip(b[0..16]), Strip(b[16..32]), UnLe(b[32..36]), b[36], b[37], b[38] == 1, SixOf(b[39..63]))
  }

  lemma DeviceFields(d: DeviceInfo)
    requires ValidDevice(d)
    ensures var b := PrintDevice(d);
            && b[0..16] == Pad(d.serial) && b[16..32] == Pad(d.hubSerial) && b[32..36] == Le(d.lidarId, 4)
            && b[36] == d.lidarType && b[37] == d.deviceType && b[38] == (if d.extrinsicEnabled then 1 else 0)
            && b[39..63] == Six(d.extrinsic)
  {
    hide Pad, Le, Six, Span, Canonical;
  }

  lemma SerialRoundTrip(serial: Bytes)
    requires Canonical(serial)
    ensures Strip(Pad(serial)) == serial
  {
    StripOfPadded(serial, 16 - |serial|);
  }

  lemma DeviceRoundTrip(d: DeviceInfo)
    requires ValidDevice(d)
    ensures DeviceOf(PrintDevice(d)) == d
  {
    DeviceFields(d);
    SerialRoundTrip(d.serial);
    SerialRoundTrip(d.hubSerial);
    UnLeOfLe(d.lidarId, 4);
    SixRoundTrip(d.extrinsic);
    hide Strip, Pad, Canonical, Le, UnLe, Six, SixOf, PrintDevice, Span;
  }

  lemma DeviceBytes(b: Bytes)
    requires |b| == DEVICE_SIZE && b[37] == MID360 && b[38] <= 1
    ensures ValidDevice(DeviceOf(b)) && PrintDevice(DeviceOf(b)) == b
  {
    FieldRoundTrip(b[0..16]);
    FieldRoundTrip(b[16..32]);
    LeOfUnLe(b[32..36]);
    SixBytes(b[39..63]);
    DeviceSlices(b);
    hide Strip, Le, UnLe, Six, SixOf, Span, Pad, Canonical;
    var flag: byte := if DeviceOf(b).extrinsicEnabled then 1 else 0;
    assert flag == b[38];
  }

  lemma DeviceSlices(b: Bytes)
    requires |b| == DEVICE_SIZE
    ensures b == b[0..16] + b[16..32] + b[32..36] + [b[36], b[37], b[38]] + b[39..63]
  {
  }

  /** Everything before the first frame. */
  function PrintHeader(d: DeviceInfo): (b: Bytes)
    requires ValidDevice(d)
    ensures |b| == FIRST_FRAME
  {
    Widths();
    SIGNATURE + VERSION + Le(MAGIC, 4) + Le(FRAME_DURATION_MS, 4) + [1] + PrintDevice(d)
  }

  function ParseHeader(data: Bytes): (r: Result<DeviceInfo, Lvx2Error>)
    ensures r.Ok? ==> |data| >= FIRST_FRAME
  {
    if |data| < PUBLIC_SIZE then Err(TruncatedPublicHeader)
    else if data[0..16] != SIGNATURE then Err(BadSignature)
    else if data[16..20] != VERSION then Err(BadVersion)
    else if UnLe(data[20..24]) != MAGIC then Err(BadMagic)
    else if |data| < PUBLIC_SIZE + PRIVATE_SIZE then Err(TruncatedPrivateHeader)
    else if UnLe(data[24..28]) != FRAME_DURATION_MS then Err(BadFrameDuration)
    else if data[28] != 1 then Err(BadDeviceCount)
    else if |data| < FIRST_FRAME then Err(TruncatedDevice)
    else if data[66] != MID360 then Err(NotMid360)
    else if data[67] > 1 then Err(BadExtrinsicEnable)
    else Ok(DeviceOf(data[29..92]))
  }

  lemma HeaderParses(data: Bytes, d: DeviceInfo)
    requires ValidDevice(d) && |data| >= FIRST_FRAME && data[..FIRST_FRAME] == PrintHeader(d)
    ensures ParseHeader(data) == Ok(d)
  {
    Widths();
    UnLeOfLe(MAGIC, 4);
    UnLeOfLe(FRAME_DURATION_MS, 4);
    DeviceRoundTrip(d);
    DeviceFields(d);
    hide Le, UnLe, PrintDevice, DeviceOf, Span, ValidDevice;
    HeaderParts(Le(MAGIC, 4), Le(FRAME_DURATION_MS, 4), PrintDevice(d));
    HeaderSlices(data);
  }

  lemma HeaderParts(magic: Bytes, duration: Bytes, device: Bytes)
    requires |magic| == |duration| == 4 && |device| == DEVICE_SIZE
    ensures var h := SIGNATURE + VERSION + magic + duration + [1] + device;
            && h[0..16] == SIGNATURE && h[16..20] == VERSION && h[20..24] == magic
            && h[24..28] == duration && h[28] == 1 && h[29..92] == device
  {
  }

  lemma HeaderSlices(data: Bytes)
    requires |data| >= FIRST_FRAME
    ensures var h := data[..FIRST_FRAME];
            && h[0..16] == data[0..16] && h[16..20] == data[16..20] && h[20..24] == data[20..24] &&
                 h[24..28] == data[24..28]
            && h[28] == data[28] && h[29..92] == data[29..92] && h[29..92][37] == data[66] && h[29..92][38] == data[67]
            && h == data[0..16] + data[16..20] + data[20..24] + data[24..28] + [data[28]] + data[29..92]
  {
  }

  lemma ParsedHeader(data: Bytes)
    requires ParseHeader(data).Ok?
    ensures ValidDevice(ParseHeader(data).value) && data[..FIRST_FRAME] == PrintHeader(ParseHeader(data).value)
  {
    LeOfUnLe(data[20..24]);
    LeOfUnLe(data[24..28]);
    DeviceBytes(data[29..92]);
    hide Le, UnLe, PrintDevice, DeviceOf, ValidDevice, Span;
    HeaderSlices(data);
  }

  // ----- whole files -----

  /** What a file says: one device and any number of frames of packages. */
  datatype Document = Document(device: DeviceInfo, frames: seq<seq<Package>>)

  ghost predicate ValidDocument(d: Document) {
    ValidDevice(d.device) && ValidFrames(d.frames) && FramesEnd(FIRST_FRAME, d.frames) < Span(8)
  }

  function Print(d: Document): (b: Bytes)
    requires ValidDocument(d)
    ensures |b| == FramesEnd(FIRST_FRAME, d.frames)
  {
    PrintHeader(d.device) + PrintFrames(FIRST_FRAME, 0, d.frames)
  }

  function PackageTotal(frames: seq<Frame>): nat {
    if frames == [] then 0 else PackageTotal(frames[..|frames| - 1]) + |frames[|frames| - 1].packages|
  }

  function PointsIn(packages: seq<Package>): nat {
    if packages == [] then 0 else PointsIn(packages[..|packages| - 1]) + |packages[|packages| - 1].points|
  }

  function PointTotal(frames: seq<Frame>): nat {
    if frames == [] then 0 else PointTotal(frames[..|frames| - 1]) + PointsIn(frames[|frames| - 1].packages)
  }

  function Shortened<T>(s: seq<T>, n: nat): seq<T> {
    if |s| <= n then s else s[..n]
  }

  /** The details kept for review: the first two frames with their first two packages. */
  function Retained(frames: seq<Frame>): (r: seq<Frame>) {
    var kept := Shortened(frames, DETAIL_FRAMES);
    seq(|kept|, i requires 0 <= i < |kept| => kept[i].(packages := Shortened(kept[i].packages, DETAIL_PACKAGES)))
  }

  function Summary(size: nat, device: DeviceInfo, frames: seq<Frame>): Lvx2File {
    Lvx2File(VERSION, FRAME_DURATION_MS, [device], Retained(frames), size, |frames|, PackageTotal(frames),
      PointTotal(frames),
             Reached(FIRST_FRAME, frames) == size)
  }

  function ParseFile(data: Bytes, limit: Option<int>): Result<Lvx2File, Lvx2Error> {
    var device := ParseHeader(data);
    if device.Err? then Err(device.error)
    else
      var frames := ParseFrames(data, FIRST_FRAME, 0, limit);
      if frames.Err? then Err(frames.error) else Ok(Summary(|data|, device.value, frames.value))
  }
}
