/**
 The LVX2 v1.0 layout: what a well-formed file is and how it is written (`Print`), and, apart from
 that, what the streaming verifier accepts (`ParseFile`). All offsets count from the file's start.
 */
module Lvx2Format {
  import opened Basics
  import opened LittleEndian

  const SIGNATURE: Bytes := [108, 105, 118, 111, 120, 95, 116, 101, 99, 104, 0, 0, 0, 0, 0, 0]
  const VERSION: Bytes := [2, 0, 0, 0]
  const MAGIC: nat := 0xAC0EA767
  const FRAME_DURATION_MS: nat := 50
  const MID360: byte := 9
  const PUBLIC_SIZE: nat := 24
  const PRIVATE_SIZE: nat := 5
  const DEVICE_SIZE: nat := 63
  const FIRST_FRAME: nat := 92
  const FRAME_HEADER: nat := 24
  const PACKAGE_HEADER: nat := 27
  const POINT_SIZE: nat := 14
  const MAX_POINTS: nat := 96
  const DETAIL_FRAMES: nat := 2
  const DETAIL_PACKAGES: nat := 2

  // ----- values -----

  datatype Point = Point(x: int, y: int, z: int, reflectivity: byte, tag: byte)

  datatype Package = Package(
    version: byte,
    lidarId: nat,
    lidarType: byte,
    timestampType: byte,
    timestampRaw: Bytes,
    timestampNs: nat,
    udpCounter: nat,
    dataType: byte,
    length: nat,
    frameCounter: byte,
    reserved: Bytes,
    points: seq<Point>)

  datatype Frame = Frame(current: nat, next: nat, index: nat, packages: seq<Package>)

  /** The six extrinsic values stay raw 4-byte floats. */
  datatype DeviceInfo = DeviceInfo(
    serial: Bytes,
    hubSerial: Bytes,
    lidarId: nat,
    lidarType: byte,
    deviceType: byte,
    extrinsicEnabled: bool,
    extrinsic: seq<Bytes>)

  datatype Lvx2File = Lvx2File(
    version: Bytes,
    frameDurationMs: nat,
    devices: seq<DeviceInfo>,
    frames: seq<Frame>,
    fileSize: nat,
    frameCount: nat,
    packageCount: nat,
    pointCount: nat,
    complete: bool)

  datatype Lvx2Error =
    | TruncatedPublicHeader
    | BadSignature
    | BadVersion
    | BadMagic
    | TruncatedPrivateHeader
    | BadFrameDuration
    | BadDeviceCount
    | TruncatedDevice
    | NotMid360
    | BadExtrinsicEnable
    | TruncatedFrameHeader
    | CurrentOffsetDiffers
    | IndexNotConsecutive
    | NextOffsetOutside
    | TruncatedPackageHeader
    | BadPackageVersion
    | BadTimestampType
    | BadDataType
    | PartialPoint
    | TooManyPoints
    | TruncatedPoints
    | PackageOverruns
    | NotAFrameBoundary

  // ----- points -----

  predicate ValidPoint(p: Point) {
    Int32(p.x) && Int32(p.y) && Int32(p.z)
  }

  function PrintPoint(p: Point): (b: Bytes)
    requires ValidPoint(p)
    ensures |b| == POINT_SIZE
  {
    Le(Unsigned(p.x), 4) + Le(Unsigned(p.y), 4) + Le(Unsigned(p.z), 4) + [p.reflectivity, p.tag]
  }

  function ParsePoint(b: Bytes): (p: Point)
    requires |b| == POINT_SIZE
    ensures ValidPoint(p)
  {
    Point(Signed(UnLe(b[0..4])), Signed(UnLe(b[4..8])), Signed(UnLe(b[8..12])), b[12], b[13])
  }

  predicate ValidPoints(points: seq<Point>) {
    forall i :: 0 <= i < |points| ==> ValidPoint(points[i])
  }

  function PrintPoints(points: seq<Point>): (b: Bytes)
    requires ValidPoints(points)
    ensures |b| == POINT_SIZE * |points|
  {
    if points == [] then [] else PrintPoint(points[0]) + PrintPoints(points[1..])
  }

  function ParsePoints(b: Bytes): (points: seq<Point>)
    requires |b| % POINT_SIZE == 0
    ensures ValidPoints(points) && |points| == |b| / POINT_SIZE
  {
    if b == [] then [] else [ParsePoint(b[..POINT_SIZE])] + ParsePoints(b[POINT_SIZE..])
  }

  lemma PointRoundTrip(p: Point)
    requires ValidPoint(p)
    ensures ParsePoint(PrintPoint(p)) == p
  {
    hide UnLe, Le, Signed, Unsigned, Span;
    var b := PrintPoint(p);
    assert b[0..4] == Le(Unsigned(p.x), 4) && b[4..8] == Le(Unsigned(p.y), 4) && b[8..12] == Le(Unsigned(p.z), 4);
    UnLeOfLe(Unsigned(p.x), 4);
    UnLeOfLe(Unsigned(p.y), 4);
    UnLeOfLe(Unsigned(p.z), 4);
    SignedRoundTrip(p.x, 0);
    SignedRoundTrip(p.y, 0);
    SignedRoundTrip(p.z, 0);
  }

  lemma PointBytes(b: Bytes)
    requires |b| == POINT_SIZE
    ensures PrintPoint(ParsePoint(b)) == b
  {
    hide UnLe, Le, Signed, Unsigned, Span;
    SignedRoundTrip(0, UnLe(b[0..4]));
    SignedRoundTrip(0, UnLe(b[4..8]));
    SignedRoundTrip(0, UnLe(b[8..12]));
    LeOfUnLe(b[0..4]);
    LeOfUnLe(b[4..8]);
    LeOfUnLe(b[8..12]);
    assert b == b[0..4] + b[4..8] + b[8..12] + [b[12], b[13]];
  }

  lemma {:induction false} PointsRoundTrip(points: seq<Point>)
    requires ValidPoints(points)
    ensures ParsePoints(PrintPoints(points)) == points
  {
    if points != [] {
      var b := PrintPoints(points);
      assert b[..POINT_SIZE] == PrintPoint(points[0]) && b[POINT_SIZE..] == PrintPoints(points[1..]);
      PointRoundTrip(points[0]);
      PointsRoundTrip(points[1..]);
    }
  }

  lemma {:induction false} PointsBytes(b: Bytes)
    requires |b| % POINT_SIZE == 0
    ensures PrintPoints(ParsePoints(b)) == b
  {
    if b != [] {
      PointBytes(b[..POINT_SIZE]);
      PointsBytes(b[POINT_SIZE..]);
      var points := ParsePoints(b);
      assert points[1..] == ParsePoints(b[POINT_SIZE..]);
      assert b == b[..POINT_SIZE] + b[POINT_SIZE..];
    }
  }

  // ----- packages -----

  predicate ValidPackage(p: Package) {
    && p.version == 0
    && p.lidarId < Span(4)
    && p.timestampType <= 2
    && p.timestampNs < Span(8) && p.timestampRaw == Le(p.timestampNs, 8)
    && p.udpCounter < Span(2)
    && p.dataType == 1
    && |p.points| <= MAX_POINTS && p.length == POINT_SIZE * |p.points|
    && |p.reserved| == 4
    && ValidPoints(p.points)
  }

  /** Every field fits its place in the header, whether or not its value is allowed. */
  predicate Sized(p: Package) {
    p.lidarId < Span(4) && |p.timestampRaw| == 8 && p.udpCounter < Span(2) && p.length < Span(4) && |p.reserved| == 4
  }

  lemma ValidIsSized(p: Package)
    requires ValidPackage(p)
    ensures Sized(p)
  {
    Widths();
  }

  function PrintPackageHeader(p: Package): (b: Bytes)
    requires Sized(p)
    ensures |b| == PACKAGE_HEADER
  {
    [p.version] + Le(p.lidarId, 4) + [p.lidarType, p.timestampType] + p.timestampRaw + Le(p.udpCounter, 2) +
      [p.dataType]
    + Le(p.length, 4) + [p.frameCounter] + p.reserved
  }

  function PrintPackage(p: Package): (b: Bytes)
    requires ValidPackage(p)
    ensures |b| == PACKAGE_HEADER + p.length
  {
    ValidIsSized(p);
    PrintPackageHeader(p) + PrintPoints(p.points)
  }

  /** The checks on a package header, in the verifier's order. */
  function PackageGuard(header: Bytes, at: nat, end: nat): Option<Lvx2Error>
    requires |header| == PACKAGE_HEADER
  {
    var length := UnLe(header[18..22]);
    if header[0] != 0 then Some(BadPackageVersion)
    else if header[6] > 2 then Some(BadTimestampType)
    else if header[17] != 1 then Some(BadDataType)
    else if length % POINT_SIZE != 0 then Some(PartialPoint)
    else if length / POINT_SIZE > MAX_POINTS then Some(TooManyPoints)
    else if at + PACKAGE_HEADER + length > end then Some(TruncatedPoints)
    else None
  }

  function PackageOf(header: Bytes, points: seq<Point>): Package
    requires |header| == PACKAGE_HEADER
  {
    Package(header[0], UnLe(header[1..5]), header[5], header[6], header[7..15], UnLe(header[7..15]),
      UnLe(header[15..17]),
            header[17], UnLe(header[18..22]), header[22], header[23..27], points)
  }

  /** One package that starts at `at` and must not pass `end`. */
  function ParsePackage(data: Bytes, at: nat, end: nat): (r: Result<Package, Lvx2Error>)
    requires end <= |data|
    ensures r.Ok? ==> at + PACKAGE_HEADER + r.value.length <= end
  {
    if at + PACKAGE_HEADER > end then Err(TruncatedPackageHeader)
    else
      var header := data[at..at + PACKAGE_HEADER];
      var guard := PackageGuard(header, at, end);
      if guard.Some? then Err(guard.value)
      else
        var start := at + PACKAGE_HEADER;
        Ok(PackageOf(header, ParsePoints(data[start..start + UnLe(header[18..22])])))
  }

  lemma HeaderFields(p: Package)
    requires Sized(p)
    ensures var h := PrintPackageHeader(p);
            && h[0] == p.version && h[1..5] == Le(p.lidarId, 4) && h[5] == p.lidarType && h[6] == p.timestampType
            && h[7..15] == p.timestampRaw && h[15..17] == Le(p.udpCounter, 2) && h[17] == p.dataType
            && h[18..22] == Le(p.length, 4) && h[22] == p.frameCounter && h[23..27] == p.reserved
  {
    hide Le, Span;
  }

  lemma HeaderRoundTrip(p: Package)
    requires Sized(p)
    ensures PackageOf(PrintPackageHeader(p), p.points) == p.(timestampNs := UnLe(p.timestampRaw))
    ensures UnLe(PrintPackageHeader(p)[18..22]) == p.length
  {
    HeaderFields(p);
    UnLeOfLe(p.lidarId, 4);
    UnLeOfLe(p.udpCounter, 2);
    UnLeOfLe(p.length, 4);
    hide Le, UnLe, PrintPackageHeader, Span;
  }

  lemma HeaderBytes(h: Bytes, points: seq<Point>)
    requires |h| == PACKAGE_HEADER && ValidPackage(PackageOf(h, points))
    ensures Sized(PackageOf(h, points)) && PrintPackageHeader(PackageOf(h, points)) == h
  {
    LeOfUnLe(h[1..5]);
    LeOfUnLe(h[15..17]);
    LeOfUnLe(h[18..22]);
    ValidIsSized(PackageOf(h, points));
    hide Le, UnLe, ValidPackage;
    assert h == [h[0]] + h[1..5] + [h[5], h[6]] + h[7..15] + h[15..17] + [h[17]] + h[18..22] + [h[22]] + h[23..27];
  }

  lemma GuardPasses(p: Package, at: nat, end: nat)
    requires ValidPackage(p) && at + PACKAGE_HEADER + p.length <= end
    ensures Sized(p) && PackageGuard(PrintPackageHeader(p), at, end).None?
  {
    ValidIsSized(p);
    hide PrintPackageHeader, UnLe, Le, ValidPoints, PackageOf, Span;
    HeaderFields(p);
    HeaderRoundTrip(p);
  }

  lemma Slices(data: Bytes, from: nat, mid: nat, to: nat)
    requires from <= mid <= to <= |data|
    ensures data[from..to][..mid - from] == data[from..mid]
    ensures data[from..to][mid - from..] == data[mid..to]
    ensures data[from..to] == data[from..mid] + data[mid..to]
  {
  }

  /** Printed bytes of a well-formed package parse to it. */
  lemma PackageParses(data: Bytes, at: nat, end: nat, p: Package)
    requires ValidPackage(p) && at + PACKAGE_HEADER + p.length <= end <= |data|
    requires data[at..at + PACKAGE_HEADER + p.length] == PrintPackage(p)
    ensures ParsePackage(data, at, end) == Ok(p)
  {
    GuardPasses(p, at, end);
    UnLeOfLe(p.timestampNs, 8);
    var header, points := PrintPackageHeader(p), PrintPoints(p.points);
    HeaderRoundTrip(p);
    PointsRoundTrip(p.points);
    BytesAt(data, at, header, points);
    hide ParsePackage, PrintPackageHeader, PrintPoints, ParsePoints, UnLe, Le, PackageOf, PackageGuard, ValidPackage;
    AssembledPackage(data, at, end, header, points);
  }

  /** What stands at an offset, split into its first and second part. */
  lemma BytesAt(data: Bytes, at: nat, first: Bytes, second: Bytes)
    requires at + |first| + |second| <= |data|
    requires data[at..at + |first| + |second|] == first + second
    ensures data[at..at + |first|] == first && data[at + |first|..at + |first| + |second|] == second
  {
    Slices(data, at, at + |first|, at + |first| + |second|);
    assert (first + second)[..|first|] == first && (first + second)[|first|..] == second;
  }

  lemma AssembledPackage(data: Bytes, at: nat, end: nat, header: Bytes, points: Bytes)
    requires |header| == PACKAGE_HEADER && at + PACKAGE_HEADER <= end <= |data| && PackageGuard(header, at, end).None?
    requires |points| == UnLe(header[18..22]) && |points| % POINT_SIZE == 0 && at + PACKAGE_HEADER + |points| <= |data|
    requires data[at..at + PACKAGE_HEADER] == header &&
               data[at + PACKAGE_HEADER..at + PACKAGE_HEADER + |points|] == points
    ensures ParsePackage(data, at, end) == Ok(PackageOf(header, ParsePoints(points)))
  {
    hide PackageOf, ParsePoints, PackageGuard, UnLe;
  }

  lemma PackageShape(data: Bytes, at: nat, end: nat)
    requires end <= |data| && ParsePackage(data, at, end).Ok?
    ensures at + PACKAGE_HEADER <= end
    ensures var h, start := data[at..at + PACKAGE_HEADER], at + PACKAGE_HEADER;
            var length := UnLe(h[18..22]);
            && PackageGuard(h, at, end).None? && length % POINT_SIZE == 0 && start + length <= end
            && ParsePackage(data, at, end) == Ok(PackageOf(h, ParsePoints(data[start..start + length])))
            && PackageOf(h, ParsePoints(data[start..start + length])).length == length
  {
    hide UnLe, ParsePoints;
  }

  /** Whatever parses is well formed and its bytes are its printed form. */
  lemma ParsedPackage(data: Bytes, at: nat, end: nat)
    requires end <= |data| && ParsePackage(data, at, end).Ok?
    ensures var p := ParsePackage(data, at, end).value;
            ValidPackage(p) && data[at..at + PACKAGE_HEADER + p.length] == PrintPackage(p)
  {
    hide ParsePackage, PackageGuard, PrintPackageHeader, PrintPoints, ParsePoints, UnLe, Le, ValidPackage, PackageOf;
    PackageShape(data, at, end);
    var start := at + PACKAGE_HEADER;
    var h := data[at..start];
    var b := data[start..start + UnLe(h[18..22])];
    Slices(data, at, start, start + |b|);
    ParsedIsValid(h, at, end, ParsePoints(b));
    PrintsAs(h, b);
    hide PrintPackage;
  }

  lemma PrintsAs(h: Bytes, b: Bytes)
    requires |h| == PACKAGE_HEADER && |b| % POINT_SIZE == 0 && ValidPackage(PackageOf(h, ParsePoints(b)))
    ensures PrintPackage(PackageOf(h, ParsePoints(b))) == h + b
  {
    hide PrintPackageHeader, PrintPoints, ParsePoints, UnLe, Le, ValidPackage;
    PointsBytes(b);
    HeaderBytes(h, ParsePoints(b));
  }

  lemma ParsedIsValid(h: Bytes, at: nat, end: nat, points: seq<Point>)
    requires |h| == PACKAGE_HEADER && PackageGuard(h, at, end).None?
    requires ValidPoints(points) && |points| == UnLe(h[18..22]) / POINT_SIZE
    ensures ValidPackage(PackageOf(h, points))
  {
    LeOfUnLe(h[7..15]);
    hide Le, UnLe, ValidPoints;
  }

  // ----- frames -----

  predicate ValidPackages(packages: seq<Package>) {
    forall i :: 0 <= i < |packages| ==> ValidPackage(packages[i])
  }

  function PrintPackages(packages: seq<Package>): (b: Bytes)
    requires ValidPackages(packages)
  {
    if packages == [] then [] else PrintPackage(packages[0]) + PrintPackages(packages[1..])
  }

  /** The two end checks of the verifier's loops, which the pure parser does not make. */
  predicate EndCheck(e: Lvx2Error) {
    e == PackageOverruns || e == NotAFrameBoundary
  }

  /** All packages between two offsets; each must end where the next begins. */
  function ParsePackages(data: Bytes, at: nat, end: nat): (r: Result<seq<Package>, Lvx2Error>)
    requires at <= end <= |data|
    decreases end - at
  {
    if at >= end then Ok([])
    else
      var first := ParsePackage(data, at, end);
      if first.Err? then Err(first.error)
      else
        var rest := ParsePackages(data, at + PACKAGE_HEADER + first.value.length, end);
        if rest.Err? then rest else Ok([first.value] + rest.value)
  }

  /** Printed packages parse back, and only printed packages parse. */
  lemma {:induction false} PackagesParse(data: Bytes, at: nat, end: nat, packages: seq<Package>)
    requires at <= end <= |data| && ValidPackages(packages) && data[at..end] == PrintPackages(packages)
    ensures ParsePackages(data, at, end) == Ok(packages)
    decreases |packages|
  {
    hide PrintPackage, ParsePackage, ValidPackage;
    if packages == [] {
      assert |data[at..end]| == 0;
    } else {
      var p, rest := packages[0], packages[1..];
      var mid := at + PACKAGE_HEADER + p.length;
      var first, second := PrintPackage(p), PrintPackages(rest);
      assert |data[at..end]| == end - at && |first + second| == |first| + |second|;
      BytesAt(data, at, first, second);
      PackageParses(data, at, end, p);
      PackagesParse(data, mid, end, rest);
      assert packages == [p] + rest;
    }
  }

  lemma PackagesCons(p: Package, rest: seq<Package>)
    requires ValidPackage(p) && ValidPackages(rest)
    ensures ValidPackages([p] + rest) && PrintPackages([p] + rest) == PrintPackage(p) + PrintPackages(rest)
  {
    hide PrintPackage, ValidPackage;
    assert ([p] + rest)[1..] == rest;
  }

  lemma {:induction false} ParsedPackages(data: Bytes, at: nat, end: nat)
    requires at <= end <= |data| && ParsePackages(data, at, end).Ok?
    ensures var packages := ParsePackages(data, at, end).value;
            ValidPackages(packages) && data[at..end] == PrintPackages(packages)
    decreases end - at
  {
    hide PrintPackage, ParsePackage, ValidPackage;
    if at < end {
      hide PrintPackages, ValidPackages;
      var p := ParsePackage(data, at, end).value;
      var mid := at + PACKAGE_HEADER + p.length;
      ParsedPackage(data, at, end);
      ParsedPackages(data, mid, end);
      PackagesCons(p, ParsePackages(data, mid, end).value);
      Slices(data, at, mid, end);
    }
  }
}
