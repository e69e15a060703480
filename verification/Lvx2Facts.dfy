/**
 What the verifier reports about a file, field by field, in terms of the document that the file shows;
 and what it reports about a file that was cut off.
 */
module Lvx2Facts {
  import opened Basics
  import opened LittleEndian
  import opened Lvx2Format
  import opened Lvx2Document
  import opened Lvx2Theorems

  // ----- counts of a document -----

  function PackagesIn(frames: seq<seq<Package>>): nat {
    if frames == [] then 0 else |frames[0]| + PackagesIn(frames[1..])
  }

  function PointsOf(packages: seq<Package>): nat {
    if packages == [] then 0 else |packages[0].points| + PointsOf(packages[1..])
  }

  function AllPoints(frames: seq<seq<Package>>): nat {
    if frames == [] then 0 else PointsOf(frames[0]) + AllPoints(frames[1..])
  }

  /** A reported frame is the document's frame of that number, with its first two packages. */
  ghost predicate DescribesFrame(f: Frame, d: Document, i: nat)
    requires ValidDocument(d) && i < |d.frames|
  {
    && f.index == i
    && f.current == FramesEnd(FIRST_FRAME, d.frames[..i])
    && f.next == FramesEnd(FIRST_FRAME, d.frames[..i + 1])
    && f.packages == d.frames[i][..Min(2, |d.frames[i]|)]
  }

  /** Every field of the report on a file of the given size that shows the document. */
  ghost predicate Describes(f: Lvx2File, size: nat, d: Document)
    requires ValidDocument(d)
  {
    && f.version == [2, 0, 0, 0] && f.frameDurationMs == 50 && f.devices == [d.device]
    && f.fileSize == size
    && f.frameCount == |d.frames|
    && f.packageCount == PackagesIn(d.frames)
    && f.pointCount == AllPoints(d.frames)
    && (f.complete <==> |Print(d)| == size)
    && |f.frames| == Min(2, |d.frames|)
    && forall i :: 0 <= i < |f.frames| ==> DescribesFrame(f.frames[i], d, i)
  }

  // ----- the report -----

  lemma {:induction false} PointsCons(p: Package, rest: seq<Package>)
    ensures PointsIn([p] + rest) == |p.points| + PointsIn(rest)
    decreases |rest|
  {
    var all := [p] + rest;
    if rest == [] {
      assert all[..0] == [];
    } else {
      PointsCons(p, rest[..|rest| - 1]);
      assert all[..|all| - 1] == [p] + rest[..|rest| - 1];
    }
  }

  lemma {:induction false} PointsAgree(packages: seq<Package>)
    ensures PointsIn(packages) == PointsOf(packages)
  {
    if packages != [] {
      PointsAgree(packages[1..]);
      PointsCons(packages[0], packages[1..]);
      assert packages == [packages[0]] + packages[1..];
    }
  }

  lemma {:induction false} TotalsCons(f: Frame, rest: seq<Frame>)
    ensures PackageTotal([f] + rest) == |f.packages| + PackageTotal(rest)
    ensures PointTotal([f] + rest) == PointsIn(f.packages) + PointTotal(rest)
    decreases |rest|
  {
    hide PointsIn;
    var all := [f] + rest;
    if rest == [] {
      assert all[..0] == [];
    } else {
      TotalsCons(f, rest[..|rest| - 1]);
      assert all[..|all| - 1] == [f] + rest[..|rest| - 1];
    }
  }

  lemma {:induction false} TotalsAgree(at: nat, index: nat, frames: seq<seq<Package>>)
    requires ValidFrames(frames)
    ensures var all := LayOut(at, index, frames);
            PackageTotal(all) == PackagesIn(frames) && PointTotal(all) == AllPoints(frames)
    decreases |frames|
  {
    hide FrameSize, ValidPackages, PointsIn, PointsOf, PackageTotal, PointTotal;
    if frames == [] {
      NoTotals();
    } else {
      var next := at + FrameSize(frames[0]);
      TotalsAgree(next, index + 1, frames[1..]);
      TotalsCons(Frame(at, next, index, frames[0]), LayOut(next, index + 1, frames[1..]));
      PointsAgree(frames[0]);
    }
  }

  lemma NoTotals()
    ensures PackageTotal([]) == 0 && PointTotal([]) == 0
  {
  }

  /** Where frame i of a layout stands. */
  lemma {:induction false} LayOutAt(at: nat, index: nat, frames: seq<seq<Package>>, i: nat)
    requires ValidFrames(frames) && i < |frames|
    ensures LayOut(at, index, frames)[i] ==
              Frame(FramesEnd(at, frames[..i]), FramesEnd(at, frames[..i + 1]), index + i, frames[i])
    decreases |frames|
  {
    hide FrameSize, ValidPackages;
    var next := at + FrameSize(frames[0]);
    assert frames[..i + 1][1..] == frames[1..][..i];
    if i > 0 {
      LayOutAt(next, index + 1, frames[1..], i - 1);
      assert frames[..i][1..] == frames[1..][..i - 1];
    } else {
      assert frames[1..][..0] == [];
    }
  }

  lemma RetainedAt(frames: seq<Frame>, i: nat)
    requires i < Min(2, |frames|)
    ensures |Retained(frames)| == Min(2, |frames|)
    ensures Retained(frames)[i] == frames[i].(packages := frames[i].packages[..Min(2, |frames[i].packages|)])
  {
    var packages := frames[i].packages;
    assert Shortened(packages, DETAIL_PACKAGES) == packages[..Min(2, |packages|)];
  }

  lemma RetainedNone(frames: seq<Frame>)
    ensures |Retained(frames)| == Min(2, |frames|)
  {
  }

  lemma SummaryDescribes(size: nat, d: Document)
    requires ValidDocument(d)
    ensures Describes(Summary(size, d.device, FramesOf(d)), size, d)
  {
    hide ValidDevice, FrameSize, ValidPackages, PackageTotal, PointTotal, Retained, PackagesIn, AllPoints, FramesEnd,
      LayOut, Reached, Print;
    SameFrames(d);
    LayOutReaches(FIRST_FRAME, 0, d.frames);
    TotalsAgree(FIRST_FRAME, 0, d.frames);
    var all := FramesOf(d);
    RetainedNone(all);
    forall i | 0 <= i < Min(2, |all|) ensures DescribesFrame(Retained(all)[i], d, i) {
      RetainedAt(all, i);
      LayOutAt(FIRST_FRAME, 0, d.frames, i);
    }
  }

  /** The report on a file that shows a document, up to a frame limit if one is given, describes that document. */
  lemma FileDescribes(data: Bytes, limit: Option<int>, d: Document)
    requires Shows(data, limit, d)
    ensures ParseFile(data, limit).Ok? && Describes(ParseFile(data, limit).value, |data|, d)
  {
    hide ParseFile, Describes, ValidDocument, Print, FramesOf, Summary;
    ShownParses(data, limit, d);
    SummaryDescribes(|data|, d);
  }

  /** And every report is of that kind. */
  lemma ReportsDescribe(data: Bytes, limit: Option<int>) returns (d: Document)
    requires ParseFile(data, limit).Ok?
    ensures Shows(data, limit, d) && Describes(ParseFile(data, limit).value, |data|, d)
  {
    hide ParseFile, Shows, Describes;
    d := AcceptedShows(data, limit);
    FileDescribes(data, limit, d);
  }

  /** What a result may be: a refusal when nothing is shown, else a description of what is. */
  ghost predicate Reports(data: Bytes, limit: Option<int>, r: Result<Lvx2File, Lvx2Error>) {
    && (r.Err? ==> forall d :: !Shows(data, limit, d))
    && (r.Ok? ==> exists d :: Shows(data, limit, d))
    && (r.Ok? ==> forall d :: Shows(data, limit, d) ==> Describes(r.value, |data|, d))
  }

  lemma ParseReports(data: Bytes, limit: Option<int>)
    ensures Reports(data, limit, ParseFile(data, limit))
  {
    hide ParseFile, ValidDocument, Print, Describes;
    AcceptedExactly(data, limit);
    forall d | Shows(data, limit, d)
      ensures ParseFile(data, limit).Ok? && Describes(ParseFile(data, limit).value, |data|, d)
    {
      FileDescribes(data, limit, d);
    }
  }

  // ----- the frame limit -----

  function FirstFrames(d: Document, n: nat): Document
    requires n <= |d.frames|
  {
    Document(d.device, d.frames[..n])
  }

  /** The first frames are printed as they are in the whole document. */
  lemma {:induction false} PrefixPrints(at: nat, index: nat, frames: seq<seq<Package>>, n: nat)
    requires ValidFrames(frames) && n <= |frames| && index <= at && FramesEnd(at, frames) < Span(8)
    ensures FramesEnd(at, frames[..n]) <= FramesEnd(at, frames)
    ensures n < |frames| ==> FramesEnd(at, frames[..n]) + FRAME_HEADER <= FramesEnd(at, frames)
    ensures PrintFrames(at, index, frames[..n]) <= PrintFrames(at, index, frames)
    decreases |frames|
  {
    hide FrameSize, PrintFrame, ValidPackages, Span;
    if n > 0 {
      PrefixPrints(at + FrameSize(frames[0]), index + 1, frames[1..], n - 1);
      assert frames[..n][1..] == frames[1..][..n - 1];
    }
  }

  lemma PrefixIsValid(d: Document, n: nat)
    requires ValidDocument(d) && n <= |d.frames|
    ensures ValidDocument(FirstFrames(d, n)) && Print(FirstFrames(d, n)) <= Print(d)
    ensures n < |d.frames| ==> |Print(FirstFrames(d, n))| < |Print(d)|
  {
    hide PrintHeader, FrameSize, ValidPackages, PrintFrames, FramesEnd, ValidDevice, Span;
    PrefixPrints(FIRST_FRAME, 0, d.frames, n);
  }

  /** A limited read of a document's file reports on its first frames. */
  lemma LimitedDescribes(d: Document, limit: int)
    requires ValidDocument(d)
    ensures var n := Min(Max(limit, 0), |d.frames|);
            && ValidDocument(FirstFrames(d, n)) && ParseFile(Print(d), Some(limit)).Ok?
            && Describes(ParseFile(Print(d), Some(limit)).value, |Print(d)|, FirstFrames(d, n))
  {
    hide Print, ValidDocument, ParseFile, Describes;
    var n := Min(Max(limit, 0), |d.frames|);
    PrefixIsValid(d, n);
    assert n == |d.frames| ==> d.frames[..n] == d.frames;
    FileDescribes(Print(d), Some(limit), FirstFrames(d, n));
  }

  // ----- a file that was cut off -----

  /** The frame that a cut at n falls into. */
  ghost predicate CutIn(at: nat, frames: seq<seq<Package>>, n: nat, k: nat)
    requires ValidFrames(frames) && k < |frames|
  {
    FramesEnd(at, frames[..k]) <= n < FramesEnd(at, frames[..k + 1])
  }

  /** What the verifier says of a cut n bytes into a file, in a frame that starts at the given offset. */
  function CutError(start: nat, n: nat): Option<Lvx2Error> {
    if n == start then None
    else if n < start + 24 then Some(TruncatedFrameHeader)
    else Some(NextOffsetOutside)
  }

  lemma OneFrame(at: nat, packages: seq<Package>)
    requires ValidPackages(packages)
    ensures FramesEnd(at, [packages]) == at + FrameSize(packages)
  {
    hide FrameSize;
    assert [packages][1..] == [];
  }

  lemma {:induction false} FindCut(at: nat, frames: seq<seq<Package>>, n: nat) returns (k: nat)
    requires ValidFrames(frames) && at <= n < FramesEnd(at, frames)
    ensures k < |frames| && CutIn(at, frames, n, k)
    decreases |frames|
  {
    hide FrameSize, ValidPackages;
    var next := at + FrameSize(frames[0]);
    OneFrame(at, frames[0]);
    assert frames[..1] == [frames[0]];
    if n < next {
      k := 0;
    } else {
      var j := FindCut(next, frames[1..], n);
      k := j + 1;
      assert frames[..k][1..] == frames[1..][..j] && frames[..k + 1][1..] == frames[1..][..j + 1];
    }
  }

  lemma CutsNext(at: nat, frames: seq<seq<Package>>, n: nat, k: nat)
    requires ValidFrames(frames) && k < |frames| && CutIn(at, frames, n, k)
    ensures var next := at + FrameSize(frames[0]);
            && at <= n
            && (k == 0 ==> n < next && FramesEnd(at, frames[..k]) == at)
            && (k > 0 ==> next <= n && CutIn(next, frames[1..], n, k - 1)
                          && FramesEnd(at, frames[..k]) == FramesEnd(next, frames[1..][..k - 1]))
  {
    hide FrameSize, ValidPackages;
    assert frames[..k + 1][1..] == frames[1..][..k];
    if k == 0 {
      OneFrame(at, frames[0]);
      assert frames[..1] == [frames[0]];
    } else {
      assert frames[..k][1..] == frames[1..][..k - 1];
    }
  }

  lemma CutFrame(data: Bytes, at: nat, index: nat, packages: seq<Package>)
    requires ValidPackages(packages) && index <= at && at + FrameSize(packages) < Span(8)
    requires at < |data| < at + FrameSize(packages)
    requires data[at..] == PrintFrame(at, index, packages)[..|data| - at]
    ensures ParseFrame(data, at, index) == Err(CutError(at, |data|).value)
  {
    hide PrintPackages, ValidPackages, ParsePackages, Span, PrintFrameHeader, UnLe;
    if |data| >= at + FRAME_HEADER {
      var h := PrintFrameHeader(at, at + FrameSize(packages), index);
      FrameHeaderFields(at, at + FrameSize(packages), index);
      assert data[at..at + FRAME_HEADER] == h by {
        assert data[at..at + FRAME_HEADER] == data[at..][..FRAME_HEADER];
      }
    }
  }

  /** A cut inside the first frame. */
  lemma CutHere(data: Bytes, at: nat, index: nat, packages: seq<Package>)
    requires ValidPackages(packages) && index <= at && at + FrameSize(packages) < Span(8)
    requires at <= |data| < at + FrameSize(packages)
    requires data[at..] == PrintFrame(at, index, packages)[..|data| - at]
    ensures var r, e := ParseFrames(data, at, index, None), CutError(at, |data|);
            r == if e.None? then Ok([]) else Err(e.value)
  {
    hide PrintFrame, ValidPackages, ParseFrame, FrameSize, Span;
    if |data| > at {
      CutFrame(data, at, index, packages);
    }
  }

  lemma {:induction false} CutFrames(data: Bytes, at: nat, index: nat, frames: seq<seq<Package>>, k: nat)
    requires ValidFrames(frames) && index <= at && FramesEnd(at, frames) < Span(8) && k < |frames|
    requires at <= |data| <= FramesEnd(at, frames) && CutIn(at, frames, |data|, k)
    requires data[at..] == PrintFrames(at, index, frames)[..|data| - at]
    ensures var r, e := ParseFrames(data, at, index, None), CutError(FramesEnd(at, frames[..k]), |data|);
            r == if e.None? then Ok(LayOut(at, index, frames[..k])) else Err(e.value)
    decreases |frames|
  {
    hide PrintFrame, ParseFrame, FrameSize, FramesEnd, PrintFrames, LayOut, Span, ParseFrames, ValidPackages, CutIn;
    var first, rest, next := frames[0], frames[1..], at + FrameSize(frames[0]);
    assert frames == [first] + rest;
    FramesCons(at, index, first, rest);
    CutsNext(at, frames, |data|, k);
    FramesNil(data, at, index, None);
    var printed := PrintFrame(at, index, first);
    if k == 0 {
      assert data[at..] == printed[..|data| - at];
      CutHere(data, at, index, first);
      assert frames[..k] == [];
    } else {
      var more := PrintFrames(next, index + 1, rest);
      CutSplits(data, at, printed, more);
      FrameParses(data, at, index, first);
      CutFrames(data, next, index + 1, rest, k - 1);
      FramesCons(at, index, first, rest[..k - 1]);
      assert frames[..k] == [first] + rest[..k - 1];
      ParseOnce(data, at, index, Frame(at, next, index, first));
    }
  }

  lemma CutSplits(data: Bytes, at: nat, first: Bytes, second: Bytes)
    requires at + |first| <= |data| <= at + |first| + |second|
    requires data[at..] == (first + second)[..|data| - at]
    ensures data[at..at + |first|] == first
    ensures data[at + |first|..] == second[..|data| - at - |first|]
  {
    var tail := data[at..];
    assert data[at..at + |first|] == tail[..|first|];
    assert data[at + |first|..] == tail[|first|..];
  }

  lemma ParseOnce(data: Bytes, at: nat, count: nat, f: Frame)
    requires at < |data| && ParseFrame(data, at, count) == Ok(f)
    ensures var rest := ParseFrames(data, f.next, count + 1, None);
            ParseFrames(data, at, count, None) == if rest.Err? then rest else Ok([f] + rest.value)
  {
    hide ParseFrame;
  }

  lemma CutHeader(data: Bytes, d: DeviceInfo)
    requires ValidDevice(d) && |data| < FIRST_FRAME && data == PrintHeader(d)[..|data|]
    ensures ParseHeader(data) ==
              Err(if |data| < 24 then TruncatedPublicHeader else if |data| < 29 then TruncatedPrivateHeader
                else TruncatedDevice)
  {
    var h := PrintHeader(d);
    hide Le, UnLe, PrintDevice, ValidDevice, PrintHeader;
    HeaderIs(d);
    if |data| >= 24 {
      HeaderStarts(data, h, 24);
    }
    if |data| >= 29 {
      HeaderStarts(data, h, 29);
    }
  }

  lemma HeaderIs(d: DeviceInfo)
    requires ValidDevice(d)
    ensures var h := PrintHeader(d);
            && h[0..16] == SIGNATURE && h[16..20] == VERSION && UnLe(h[20..24]) == MAGIC
            && UnLe(h[24..28]) == FRAME_DURATION_MS && h[28] == 1
  {
    hide Le, UnLe, PrintDevice, Span;
    Widths();
    HeaderParts(Le(MAGIC, 4), Le(FRAME_DURATION_MS, 4), PrintDevice(d));
    UnLeOfLe(MAGIC, 4);
    UnLeOfLe(FRAME_DURATION_MS, 4);
  }

  lemma HeaderStarts(data: Bytes, h: Bytes, n: nat)
    requires n <= |data| <= |h| && data == h[..|data|]
    ensures n >= 24 ==> data[0..16] == h[0..16] && data[16..20] == h[16..20] && data[20..24] == h[20..24]
    ensures n >= 29 ==> data[24..28] == h[24..28] && data[28] == h[28]
  {
  }

  /**
   A document's file cut off after n bytes is refused, with the reason fixed by where the cut falls, unless it
   falls exactly between two frames: then it is accepted and reported as the document's first frames.
   */
  lemma CutFile(d: Document, n: nat) returns (k: nat)
    requires ValidDocument(d) && n < |Print(d)|
    ensures n >= 92 ==> k < |d.frames| && CutIn(FIRST_FRAME, d.frames, n, k)
    ensures var r := ParseFile(Print(d)[..n], None);
            if n < 24 then r == Err(TruncatedPublicHeader)
            else if n < 29 then r == Err(TruncatedPrivateHeader)
            else if n < 92 then r == Err(TruncatedDevice)
            else
              var start := FramesEnd(FIRST_FRAME, d.frames[..k]);
              if n == start then
                ValidDocument(FirstFrames(d, k)) && r.Ok? && Describes(r.value, n, FirstFrames(d, k))
              else if n < start + 24 then r == Err(TruncatedFrameHeader)
              else r == Err(NextOffsetOutside)
  {
    hide PrintHeader, FrameSize, ValidPackages, PrintFrames, FramesEnd, ValidDevice, Span, ParseHeader, ParseFrames,
      Summary, Describes, LayOut, CutIn, ValidFrames;
    var data := Print(d)[..n];
    if n < FIRST_FRAME {
      k := 0;
      assert data == PrintHeader(d.device)[..n];
      CutHeader(data, d.device);
    } else {
      k := FindCut(FIRST_FRAME, d.frames, n);
      assert data[..FIRST_FRAME] == PrintHeader(d.device);
      HeaderParses(data, d.device);
      assert data[FIRST_FRAME..] == PrintFrames(FIRST_FRAME, 0, d.frames)[..n - FIRST_FRAME];
      CutFrames(data, FIRST_FRAME, 0, d.frames, k);
      PrefixIsValid(d, k);
      SummaryDescribes(n, FirstFrames(d, k));
      SameFrames(FirstFrames(d, k));
    }
  }

  // ----- which flaw is reported -----

  /** The first thing wrong with a package header, given the room left for its points. */
  function PackageFlaw(p: Package, room: nat): Option<Lvx2Error> {
    if p.version > 0 then Some(BadPackageVersion)
    else if p.timestampType != 0 && p.timestampType != 1 && p.timestampType != 2 then Some(BadTimestampType)
    else if p.dataType != 1 then Some(BadDataType)
    else if p.length % 14 > 0 then Some(PartialPoint)
    else if p.length > 96 * 14 then Some(TooManyPoints)
    else if p.length > room then Some(TruncatedPoints)
    else None
  }

  /** Any header that fits its fields is refused for its first flaw, or else read back field by field. */
  lemma PackageFlawIsReported(data: Bytes, at: nat, end: nat, p: Package)
    requires Sized(p) && at + 27 <= end <= |data| && data[at..at + 27] == PrintPackageHeader(p)
    ensures var r, flaw := ParsePackage(data, at, end), PackageFlaw(p, end - at - 27);
            if flaw.Some? then r == Err(flaw.value)
            else r.Ok? && r.value == p.(timestampNs := UnLe(p.timestampRaw), points := r.value.points)
  {
    hide PrintPackageHeader, UnLe, Le, Span, ParsePoints;
    HeaderFields(p);
    HeaderRoundTrip(p);
  }

  /** A package cut off inside its header. */
  lemma ShortPackage(data: Bytes, at: nat, end: nat)
    requires end <= |data|
    ensures ParsePackage(data, at, end) == Err(TruncatedPackageHeader) <==> at + 27 > end
  {
    hide PackageOf, ParsePoints, UnLe;
  }

  /** Any frame header is refused for the first of its three offsets that is wrong. */
  lemma FrameFlawIsReported(data: Bytes, at: nat, count: nat, current: nat, next: nat, index: nat)
    requires current < Span(8) && next < Span(8) && index < Span(8)
    requires at + 24 <= |data| && data[at..at + 24] == PrintFrameHeader(current, next, index)
    ensures var r := ParseFrame(data, at, count);
            && (current != at ==> r == Err(CurrentOffsetDiffers))
            && (current == at && index != count ==> r == Err(IndexNotConsecutive))
            && (current == at && index == count && !(at + 24 <= next <= |data|) ==> r == Err(NextOffsetOutside))
            && (current == at && index == count && at + 24 <= next <= |data| ==>
                  var packages := ParsePackages(data, at + 24, next);
                  r == if packages.Err? then Err(packages.error) else Ok(Frame(at, next, count, packages.value)))
  {
    hide PrintFrameHeader, UnLe, Span, ParsePackages;
    FrameHeaderFields(current, next, index);
  }

  /** Any 92 header bytes are refused for the first field that is not the fixed one. */
  lemma HeaderFlawIsReported(data: Bytes, signature: Bytes, version: Bytes, magic: nat, duration: nat, devices: byte,
      device: Bytes)
    requires |signature| == 16 && |version| == 4 && magic < Span(4) && duration < Span(4) && |device| == 63
    requires |data| >= 92 && data[..92] == signature + version + Le(magic, 4) + Le(duration, 4) + [devices] + device
    ensures ParseHeader(data) ==
              if signature != SIGNATURE then Err(BadSignature)
              else if version != [2, 0, 0, 0] then Err(BadVersion)
              else if magic != 0xAC0EA767 then Err(BadMagic)
              else if duration != 50 then Err(BadFrameDuration)
              else if devices != 1 then Err(BadDeviceCount)
              else if device[37] != 9 then Err(NotMid360)
              else if device[38] != 0 && device[38] != 1 then Err(BadExtrinsicEnable)
              else Ok(DeviceOf(device))
  {
    hide Le, UnLe, Span, DeviceOf;
    UnLeOfLe(magic, 4);
    UnLeOfLe(duration, 4);
    AnyHeaderParts(signature, version, Le(magic, 4), Le(duration, 4), devices, device);
    HeaderSlices(data);
  }

  lemma AnyHeaderParts(signature: Bytes, version: Bytes, magic: Bytes, duration: Bytes, devices: byte, device: Bytes)
    requires |signature| == 16 && |version| == |magic| == |duration| == 4 && |device| == 63
    ensures var h := signature + version + magic + duration + [devices] + device;
            && h[0..16] == signature && h[16..20] == version && h[20..24] == magic
            && h[24..28] == duration && h[28] == devices && h[29..92] == device
  {
  }
}
