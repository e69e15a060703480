/**
 The streaming LVX2 verifier as it runs: one moving cursor, nested frame and package loops, and
 details kept only for the first frames. It is proved equal to the pure parser for every file and
 every frame limit.
 */
module Lvx2Parser {
  import opened Basics
  import opened LittleEndian
  import opened Lvx2Format
  import opened Lvx2Document
  import Lvx2Facts

  /** A binary file opened for reading. */
  class ByteStream {
    const data: Bytes
    var pos: nat

    constructor (data: Bytes)
      ensures this.data == data && pos == 0
    {
      this.data := data;
      pos := 0;
    }

    /** Up to `size` bytes; fewer, possibly none, at the end of the file. */
    method Read(size: nat) returns (b: Bytes)
      modifies this
      ensures b == if old(pos) > |data| then [] else data[old(pos)..Min(old(pos) + size, |data|)]
      ensures pos == old(pos) + |b|
    {
      b := if pos > |data| then [] else data[pos..Min(pos + size, |data|)];
      pos := pos + |b|;
    }

    method Seek(offset: nat)
      modifies this
      ensures pos == offset
    {
      pos := offset;
    }

    method ReadExact(size: nat) returns (b: Option<Bytes>)
      requires size > 0
      modifies this
      ensures b.Some? <==> old(pos) + size <= |data|
      ensures b.Some? ==> b.value == data[old(pos)..old(pos) + size] && pos == old(pos) + size
    {
      var read := Read(size);
      if |read| != size {
        return None;
      }
      return Some(read);
    }
  }

  /** All points of one package's payload. */
  method ReadPoints(payload: Bytes) returns (points: seq<Point>)
    requires |payload| % POINT_SIZE == 0
    ensures points == Lvx2Format.ParsePoints(payload)
  {
    hide ParsePoints, ParsePoint;
    points := [];
    var offset := 0;
    PointsStart(payload);
    while offset < |payload|
      invariant offset <= |payload| && offset % POINT_SIZE == 0
      invariant ParsePoints(payload) == points + ParsePoints(payload[offset..])
    {
      PointsStep(payload, offset);
      points := points + [ParsePoint(payload[offset..offset + POINT_SIZE])];
      offset := offset + POINT_SIZE;
    }
  }

  lemma PointsStart(payload: Bytes)
    requires |payload| % POINT_SIZE == 0
    ensures ParsePoints(payload) == [] + ParsePoints(payload[0..])
    ensures ParsePoints(payload[|payload|..]) == []
  {
    hide ParsePoint;
    assert payload[0..] == payload && payload[|payload|..] == [];
  }

  lemma PointsStep(payload: Bytes, offset: nat)
    requires |payload| % POINT_SIZE == 0 && offset % POINT_SIZE == 0 && offset + POINT_SIZE <= |payload|
    ensures ParsePoints(payload[offset..]) ==
              [ParsePoint(payload[offset..offset + POINT_SIZE])] + ParsePoints(payload[offset + POINT_SIZE..])
  {
    hide ParsePoint;
    var rest := payload[offset..];
    assert rest[..POINT_SIZE] == payload[offset..offset + POINT_SIZE] &&
      rest[POINT_SIZE..] == payload[offset + POINT_SIZE..];
  }

  /** One package inside the frame that ends at `end`. */
  method ReadPackage(stream: ByteStream, end: nat) returns (r: Result<Package, Lvx2Error>)
    requires end <= |stream.data|
    modifies stream
    ensures r == ParsePackage(stream.data, old(stream.pos), end)
    ensures r.Ok? ==> stream.pos == old(stream.pos) + PACKAGE_HEADER + r.value.length
  {
    hide UnLe, ParsePoints, PackageGuard;
    var at := stream.pos;
    if at + PACKAGE_HEADER > end {
      return Err(TruncatedPackageHeader);
    }
    var header := stream.ReadExact(PACKAGE_HEADER);
    if header.None? {
      return Err(TruncatedPackageHeader);
    }
    var guard := CheckPackage(header.value, stream.pos, end);
    if guard.Some? {
      return Err(guard.value);
    }
    GuardFacts(header.value, at, end);
    var length := UnLe(header.value[18..22]);
    var payload: Bytes := [];
    if length > 0 {
      var read := stream.ReadExact(length);
      if read.None? {
        return Err(TruncatedPoints);
      }
      payload := read.value;
    }
    var points := ReadPoints(payload);
    return Ok(PackageOf(header.value, points));
  }

  lemma GuardFacts(header: Bytes, at: nat, end: nat)
    requires |header| == PACKAGE_HEADER && PackageGuard(header, at, end).None?
    ensures UnLe(header[18..22]) % POINT_SIZE == 0 && at + PACKAGE_HEADER + UnLe(header[18..22]) <= end
  {
    hide UnLe;
  }

  /** The header checks; `position` is where the payload starts. */
  method CheckPackage(header: Bytes, position: nat, end: nat) returns (guard: Option<Lvx2Error>)
    requires |header| == PACKAGE_HEADER <= position
    ensures guard == PackageGuard(header, position - PACKAGE_HEADER, end)
  {
    hide UnLe;
    var length := UnLe(header[18..22]);
    if header[0] != 0 {
      return Some(BadPackageVersion);
    }
    if header[6] !in {0, 1, 2} {
      return Some(BadTimestampType);
    }
    if header[17] != 1 {
      return Some(BadDataType);
    }
    if length % POINT_SIZE != 0 {
      return Some(PartialPoint);
    }
    if length / POINT_SIZE > MAX_POINTS {
      return Some(TooManyPoints);
    }
    if position + length > end {
      return Some(TruncatedPoints);
    }
    return None;
  }

  // ----- loops against the pure parser -----

  /** A pure parse, given what was already parsed before it. */
  function After<T>(done: seq<T>, rest: Result<seq<T>, Lvx2Error>): Result<seq<T>, Lvx2Error> {
    if rest.Err? then rest else Ok(done + rest.value)
  }

  datatype FrameBody = FrameBody(kept: seq<Package>, packages: nat, points: nat)

  /** What the package loop reports of a frame's packages: both counts, and the first two if details are kept. */
  function BodyOf(packages: seq<Package>, keepDetails: bool): FrameBody {
    FrameBody(if keepDetails then Shortened(packages, DETAIL_PACKAGES) else [], |packages|, PointsIn(packages))
  }

  lemma BodyOfNothing(keepDetails: bool)
    ensures BodyOf([], keepDetails) == FrameBody([], 0, 0)
  {
  }

  lemma BodySnoc(done: seq<Package>, p: Package, keepDetails: bool)
    ensures var body := BodyOf(done, keepDetails);
            BodyOf(done + [p], keepDetails) ==
              FrameBody(if keepDetails && |body.kept| < DETAIL_PACKAGES then body.kept + [p] else body.kept,
                        body.packages + 1, body.points + |p.points|)
  {
    assert (done + [p])[..|done|] == done;
  }

  /** The package loop of one frame: counts every package, keeps the first two if asked to. */
  method ReadPackages(stream: ByteStream, next: nat, keepDetails: bool) returns (r: Result<FrameBody, Lvx2Error>)
    requires stream.pos <= next <= |stream.data|
    modifies stream
    ensures var packages := ParsePackages(stream.data, old(stream.pos), next);
            r == if packages.Err? then Err(packages.error) else Ok(BodyOf(packages.value, keepDetails))
  {
    hide ParsePackage, ParsePackages, BodyOf, After;
    var body := FrameBody([], 0, 0);
    ghost var start := stream.pos;
    ghost var done: seq<Package> := [];
    AfterNothing(ParsePackages(stream.data, start, next));
    BodyOfNothing(keepDetails);
    NoPackages(stream.data, next);
    while stream.pos < next
      invariant start <= stream.pos <= next
      invariant ParsePackages(stream.data, start, next) == After(done, ParsePackages(stream.data, stream.pos, next))
      invariant body == BodyOf(done, keepDetails)
      decreases next - stream.pos
    {
      PackagesStep(stream.data, stream.pos, next);
      var package := ReadPackage(stream, next);
      if package.Err? {
        AfterError(done, package.error);
        return Err(package.error);
      }
      var p := package.value;
      body := FrameBody(if keepDetails && |body.kept| < DETAIL_PACKAGES then body.kept + [p] else body.kept,
                        body.packages + 1, body.points + |p.points|);
      AfterSnoc(done, p, ParsePackages(stream.data, stream.pos, next));
      BodySnoc(done, p, keepDetails);
      done := done + [p];
    }
    AfterAll(done, ParsePackages(stream.data, stream.pos, next));
    if stream.pos != next {
      return Err(PackageOverruns);
    }
    return Ok(body);
  }

  lemma AfterNothing<T>(rest: Result<seq<T>, Lvx2Error>)
    ensures After([], rest) == rest
  {
    if rest.Ok? {
      assert [] + rest.value == rest.value;
    }
  }

  lemma AfterAll<T>(done: seq<T>, rest: Result<seq<T>, Lvx2Error>)
    requires rest == Ok([])
    ensures After(done, rest) == Ok(done)
  {
    assert done + [] == done;
  }

  lemma AfterError<T>(done: seq<T>, error: Lvx2Error)
    ensures After(done, Err(error)) == Err(error)
  {
  }

  /** The pure parser takes the packages of a frame one at a time. */
  lemma PackagesStep(data: Bytes, at: nat, next: nat)
    requires at < next <= |data|
    ensures var p := ParsePackage(data, at, next);
            ParsePackages(data, at, next) ==
              if p.Err? then Err(p.error)
                else After([p.value], ParsePackages(data, at + PACKAGE_HEADER + p.value.length, next))
  {
    hide ParsePackage;
  }

  lemma NoPackages(data: Bytes, next: nat)
    requires next <= |data|
    ensures ParsePackages(data, next, next) == Ok([])
  {
  }

  lemma AfterSnoc<T>(done: seq<T>, x: T, rest: Result<seq<T>, Lvx2Error>)
    ensures After(done + [x], rest) == After(done, After([x], rest))
  {
    if rest.Ok? {
      assert done + [x] + rest.value == done + ([x] + rest.value);
    }
  }

  lemma TotalsSnoc(done: seq<Frame>, f: Frame)
    ensures PackageTotal(done + [f]) == PackageTotal(done) + |f.packages|
    ensures PointTotal(done + [f]) == PointTotal(done) + PointsIn(f.packages)
    ensures Reached(FIRST_FRAME, done + [f]) == f.next
    ensures Retained(done + [f]) ==
              if |done| < DETAIL_FRAMES then Retained(done) + [f.(packages := Shortened(f.packages, DETAIL_PACKAGES))]
                else Retained(done)
    ensures |Retained(done)| == Min(|done|, DETAIL_FRAMES)
  {
    assert (done + [f])[..|done|] == done;
    hide PointsIn, Retained;
    RetainedSnoc(done, f);
  }

  lemma RetainedSnoc(done: seq<Frame>, f: Frame)
    ensures Retained(done + [f]) ==
              if |done| < DETAIL_FRAMES then Retained(done) + [f.(packages := Shortened(f.packages, DETAIL_PACKAGES))]
                else Retained(done)
    ensures |Retained(done)| == Min(|done|, DETAIL_FRAMES)
  {
  }

  /** One frame at the stream's position, which is the expected offset. */
  method ReadFrame(stream: ByteStream, count: nat, keepDetails: bool)
      returns (r: Result<(nat, nat, FrameBody), Lvx2Error>)
    modifies stream
    ensures var f := ParseFrame(stream.data, old(stream.pos), count);
            && (r.Err? <==> f.Err?) && (r.Err? ==> r.error == f.error)
            && (r.Ok? ==> r.value == (f.value.current, f.value.next, BodyOf(f.value.packages, keepDetails)))
  {
    hide UnLe, ParsePackages, BodyOf;
    var at := stream.pos;
    var header := stream.ReadExact(FRAME_HEADER);
    if header.None? {
      return Err(TruncatedFrameHeader);
    }
    var h := header.value;
    var current, next, index := UnLe(h[0..8]), UnLe(h[8..16]), UnLe(h[16..24]);
    if current != at {
      return Err(CurrentOffsetDiffers);
    }
    if index != count {
      return Err(IndexNotConsecutive);
    }
    if next < current + FRAME_HEADER || next > |stream.data| {
      return Err(NextOffsetOutside);
    }
    var body := ReadPackages(stream, next, keepDetails);
    if body.Err? {
      return Err(body.error);
    }
    return Ok((current, next, body.value));
  }

  lemma Part(data: Bytes, from: nat, to: nat, i: nat, j: nat)
    requires from <= to <= |data| && i <= j <= to - from
    ensures data[from..to][i..j] == data[from + i..from + j]
  {
    var inner := data[from..to];
    forall k | 0 <= k < j - i ensures inner[i..j][k] == data[from + i..from + j][k] {
      assert inner[i + k] == data[from + i + k];
    }
  }

  lemma HeaderReads(data: Bytes)
    ensures |data| >= 24 ==>
              var b := data[0..24];
              b[0..16] == data[0..16] && b[16..20] == data[16..20] && b[20..24] == data[20..24]
    ensures |data| >= 29 ==> data[24..29][0..4] == data[24..28]
  {
    if |data| >= 24 {
      Part(data, 0, 24, 0, 16);
      Part(data, 0, 24, 16, 20);
      Part(data, 0, 24, 20, 24);
    }
    if |data| >= 29 {
      Part(data, 24, 29, 0, 4);
    }
  }

  method ReadHeader(stream: ByteStream) returns (r: Result<DeviceInfo, Lvx2Error>)
    requires stream.pos == 0
    modifies stream
    ensures r == ParseHeader(stream.data)
    ensures r.Ok? ==> stream.pos == FIRST_FRAME
  {
    hide UnLe, Strip, SixOf;
    HeaderReads(stream.data);
    var public := stream.ReadExact(PUBLIC_SIZE);
    if public.None? {
      return Err(TruncatedPublicHeader);
    }
    if public.value[0..16] != SIGNATURE {
      return Err(BadSignature);
    }
    if public.value[16..20] != VERSION {
      return Err(BadVersion);
    }
    if UnLe(public.value[20..24]) != MAGIC {
      return Err(BadMagic);
    }
    var private := stream.ReadExact(PRIVATE_SIZE);
    if private.None? {
      return Err(TruncatedPrivateHeader);
    }
    if UnLe(private.value[0..4]) != FRAME_DURATION_MS {
      return Err(BadFrameDuration);
    }
    if private.value[4] != 1 {
      return Err(BadDeviceCount);
    }
    var device := stream.ReadExact(DEVICE_SIZE);
    if device.None? {
      return Err(TruncatedDevice);
    }
    if device.value[37] != MID360 {
      return Err(NotMid360);
    }
    if device.value[38] !in {0, 1} {
      return Err(BadExtrinsicEnable);
    }
    return Ok(DeviceOf(device.value));
  }

  /**
   The whole verifier. Both loops terminate because the cursor only moves forward, and the checks
   that a frame ends at its next offset and the file at a frame boundary can never fail.
   */
  method ParseLvx2(data: Bytes, limit: Option<int>) returns (r: Result<Lvx2File, Lvx2Error>)
    ensures r == ParseFile(data, limit) && Lvx2Facts.Reports(data, limit, r)
  {
    hide ParseHeader, ParseFrame, Retained, PackageTotal, PointTotal, Reached, Lvx2Facts.Reports;
    Lvx2Facts.ParseReports(data, limit);
    var stream := new ByteStream(data);
    var device := ReadHeader(stream);
    if device.Err? {
      return Err(device.error);
    }
    var file := Lvx2File(VERSION, FRAME_DURATION_MS, [device.value], [], |data|, 0, 0, 0, false);
    var expected := stream.pos;
    ghost var done: seq<Frame> := [];
    AfterNothing(ParseFrames(data, FIRST_FRAME, 0, limit));
    NothingRetained();
    while More(expected, |data|, file.frameCount, limit)
      invariant expected == Reached(FIRST_FRAME, done) <= |data|
      invariant ParseFrames(data, FIRST_FRAME, 0, limit) ==
                  After(done, ParseFrames(data, expected, file.frameCount, limit))
      invariant file == Lvx2File(VERSION, FRAME_DURATION_MS, [device.value], Retained(done), |data|, |done|,
                  PackageTotal(done), PointTotal(done), false)
      decreases |data| - expected
    {
      stream.Seek(expected);
      var keepDetails := |file.frames| < DETAIL_FRAMES;
      var frame := ReadFrame(stream, file.frameCount, keepDetails);
      if frame.Err? {
        return Err(frame.error);
      }
      var (current, next, body) := frame.value;
      ghost var f := ParseFrame(data, expected, file.frameCount).value;
      TotalsSnoc(done, f);
      AfterSnoc(done, f, ParseFrames(data, next, file.frameCount + 1, limit));
      file := file.(frames := if keepDetails then file.frames + [Frame(current, next, file.frameCount, body.kept)]
        else file.frames,
                    frameCount := file.frameCount + 1,
                    packageCount := file.packageCount + body.packages,
                    pointCount := file.pointCount + body.points);
      expected := next;
      done := done + [f];
    }
    assert done + [] == done;
    file := file.(complete := expected == |data|);
    if limit.None? && !file.complete {
      return Err(NotAFrameBoundary);
    }
    return Ok(file);
  }

  lemma NothingRetained()
    ensures Retained([]) == [] && PackageTotal([]) == 0 && PointTotal([]) == 0 &&
              Reached(FIRST_FRAME, []) == FIRST_FRAME
  {
  }
}
