/**
 What acceptance of an LVX2 file means: exactly the printed documents are accepted, with and without
 a frame limit; frames tile the file and packages tile each frame.
 */
module Lvx2Theorems {
  import opened Basics
  import opened LittleEndian
  import opened Lvx2Format
  import opened Lvx2Document

  /** The file begins with the printed document, and the parser stops where the document ends. */
  ghost predicate Shows(data: Bytes, limit: Option<int>, d: Document) {
    && ValidDocument(d)
    && Print(d) <= data
    && !More(|Print(d)|, |data|, |d.frames|, limit)
    && (limit.Some? && d.frames != [] ==> |d.frames| <= limit.value)
  }

  function FramesOf(d: Document): seq<Frame>
    requires ValidDocument(d)
  {
    LayOut(FIRST_FRAME, 0, d.frames)
  }

  lemma PrintSlices(data: Bytes, d: Document)
    requires ValidDocument(d) && |Print(d)| <= |data|
    ensures Print(d) <= data <==>
              data[..FIRST_FRAME] == PrintHeader(d.device) &&
                data[FIRST_FRAME..|Print(d)|] == PrintFrames(FIRST_FRAME, 0, d.frames)
  {
    hide PrintHeader, PrintFrames, ValidDevice, ValidFrames;
    var h, f, n := PrintHeader(d.device), PrintFrames(FIRST_FRAME, 0, d.frames), |Print(d)|;
    Slices(data, 0, FIRST_FRAME, n);
    assert data[0..n] == data[..n] && data[0..FIRST_FRAME] == data[..FIRST_FRAME];
    if Print(d) <= data {
      BytesAt(data, 0, h, f);
    }
  }

  /** A file that shows a document parses to that document's summary. */
  lemma ShownParses(data: Bytes, limit: Option<int>, d: Document)
    requires Shows(data, limit, d)
    ensures ParseFile(data, limit) == Ok(Summary(|data|, d.device, FramesOf(d)))
    ensures ParseFrames(data, FIRST_FRAME, 0, limit) == Ok(FramesOf(d))
  {
    PrintSlices(data, d);
    hide PrintHeader, PrintFrames, ParseHeader, ParseFrames, LayOut, Summary, ValidDevice, ValidFrames, Span;
    HeaderParses(data, d.device);
    FramesParse(data, FIRST_FRAME, 0, d.frames, limit);
  }

  /** Every accepted file shows the document its parse stands for. */
  lemma AcceptedShows(data: Bytes, limit: Option<int>) returns (d: Document)
    requires ParseFile(data, limit).Ok?
    ensures Shows(data, limit, d)
    ensures ParseFile(data, limit) == Ok(Summary(|data|, d.device, FramesOf(d)))
  {
    hide PrintHeader, PrintFrames, ParseHeader, ParseFrames, LayOut, Summary, ValidDevice, ValidFrames;
    assert FIRST_FRAME < Span(8) by {
      Widths();
    }
    hide Span;
    var frames := ParseFrames(data, FIRST_FRAME, 0, limit).value;
    d := Document(ParseHeader(data).value, PackagesOf(frames));
    ParsedHeader(data);
    ParsedFrames(data, FIRST_FRAME, 0, limit);
    PrintSlices(data, d);
  }

  /** Acceptance is exactly being, up to the frame limit, the printed form of a well-formed document. */
  lemma AcceptedExactly(data: Bytes, limit: Option<int>)
    ensures ParseFile(data, limit).Ok? <==> exists d :: Shows(data, limit, d)
  {
    hide Shows, ParseFile;
    if ParseFile(data, limit).Ok? {
      var d := AcceptedShows(data, limit);
    }
    if d :| Shows(data, limit, d) {
      ShownParses(data, limit, d);
    }
  }

  /** Without a limit the whole file is the printed document. */
  lemma UnlimitedShowsAll(data: Bytes, d: Document)
    ensures Shows(data, None, d) <==> ValidDocument(d) && Print(d) == data
  {
    hide ValidDocument, Print;
  }

  /** Writing a document and parsing the file gives the document's summary. */
  lemma RoundTrip(d: Document)
    requires ValidDocument(d)
    ensures ParseFile(Print(d), None) == Ok(Summary(|Print(d)|, d.device, FramesOf(d)))
  {
    hide ValidDocument, Print, ParseFile, FramesOf;
    UnlimitedShowsAll(Print(d), d);
    ShownParses(Print(d), None, d);
  }

  /** Different documents have different files. */
  lemma PrintIsInjective(d: Document, e: Document)
    requires ValidDocument(d) && ValidDocument(e) && Print(d) == Print(e)
    ensures d == e
  {
    UnlimitedShowsAll(Print(d), d);
    UnlimitedShowsAll(Print(d), e);
    PrintSlices(Print(d), d);
    PrintSlices(Print(d), e);
    hide ValidDocument, Print, ParseFrames, PrintHeader, PrintFrames, ParseHeader, LayOut, Shows, PackagesOf;
    SameDevice(Print(d), d, e);
    ShownParses(Print(d), None, d);
    ShownParses(Print(d), None, e);
    ContentsOfLayOut(FIRST_FRAME, 0, d.frames);
    ContentsOfLayOut(FIRST_FRAME, 0, e.frames);
  }

  lemma SameDevice(data: Bytes, d: Document, e: Document)
    requires ValidDocument(d) && ValidDocument(e) && |data| >= FIRST_FRAME
    requires data[..FIRST_FRAME] == PrintHeader(d.device) == PrintHeader(e.device)
    ensures d.device == e.device
  {
    HeaderParses(data, d.device);
    HeaderParses(data, e.device);
  }

  lemma {:induction false} ContentsOfLayOut(at: nat, index: nat, frames: seq<seq<Package>>)
    requires ValidFrames(frames)
    ensures PackagesOf(LayOut(at, index, frames)) == frames
    decreases |frames|
  {
    hide FrameSize, ValidPackages;
    if frames != [] {
      var next := at + FrameSize(frames[0]);
      ContentsOfLayOut(next, index + 1, frames[1..]);
      PackagesOfCons(Frame(at, next, index, frames[0]), LayOut(next, index + 1, frames[1..]));
    }
  }

  // ----- tiling -----

  function TileStart(at: nat, frames: seq<Frame>, i: nat): nat
    requires i <= |frames|
  {
    if i == 0 then at else frames[i - 1].next
  }

  /** Frames follow one another without a gap, numbered, and packages fill each of them exactly. */
  ghost predicate Tiles(at: nat, index: nat, frames: seq<Frame>) {
    && (forall i :: 0 <= i < |frames| ==>
          && frames[i].index == index + i
          && frames[i].current == TileStart(at, frames, i)
          && ValidPackages(frames[i].packages)
          && frames[i].next == frames[i].current + FRAME_HEADER + |PrintPackages(frames[i].packages)|)
  }

  lemma {:induction false} LayOutTiles(at: nat, index: nat, frames: seq<seq<Package>>)
    requires ValidFrames(frames)
    ensures Tiles(at, index, LayOut(at, index, frames))
    decreases |frames|
  {
    hide PrintPackages, ValidPackages;
    if frames != [] {
      LayOutTiles(at + FrameSize(frames[0]), index + 1, frames[1..]);
    }
  }

  /** An accepted file is tiled from its first frame to its end. */
  lemma AcceptanceTiles(data: Bytes)
    requires ParseFile(data, None).Ok?
    ensures var frames := ParseFrames(data, FIRST_FRAME, 0, None).value;
            Tiles(FIRST_FRAME, 0, frames) && Reached(FIRST_FRAME, frames) == |data|
  {
    hide ParseFrames, LayOut, Tiles, Shows, FramesOf;
    var d := AcceptedShows(data, None);
    ShownParses(data, None, d);
    UnlimitedShowsAll(data, d);
    LayOutTiles(FIRST_FRAME, 0, d.frames);
    LayOutReaches(FIRST_FRAME, 0, d.frames);
    SameFrames(d);
    hide ParseFile, Print;
  }

  lemma SameFrames(d: Document)
    requires ValidDocument(d)
    ensures FramesOf(d) == LayOut(FIRST_FRAME, 0, d.frames) && |Print(d)| == FramesEnd(FIRST_FRAME, d.frames)
  {
  }

  lemma {:induction false} LayOutReaches(at: nat, index: nat, frames: seq<seq<Package>>)
    requires ValidFrames(frames)
    ensures Reached(at, LayOut(at, index, frames)) == FramesEnd(at, frames)
    decreases |frames|
  {
    hide FrameSize, ValidPackages;
    if frames != [] {
      LayOutReaches(at + FrameSize(frames[0]), index + 1, frames[1..]);
    }
  }

  /** Every parsed package's raw time is its time in little endian. */
  lemma RawTimestamps(data: Bytes, limit: Option<int>, i: nat, k: nat)
    requires ParseFile(data, limit).Ok?
    requires var frames := ParseFrames(data, FIRST_FRAME, 0, limit).value; i < |frames| && k < |frames[i].packages|
    ensures var p := ParseFrames(data, FIRST_FRAME, 0, limit).value[i].packages[k];
            p.timestampNs < Span(8) && p.timestampRaw == Le(p.timestampNs, 8) && |p.points| <= MAX_POINTS
  {
    var d := AcceptedShows(data, limit);
    ShownParses(data, limit, d);
    ContentsOfLayOut(FIRST_FRAME, 0, d.frames);
    hide Span, ParseFrames, LayOut, Le, Shows, ParseFile;
    var frames := ParseFrames(data, FIRST_FRAME, 0, limit).value;
    assert PackagesOf(frames)[i] == frames[i].packages;
    assert ValidPackage(frames[i].packages[k]);
  }

  lemma PackageNeverFailsEndCheck(data: Bytes, at: nat, end: nat)
    requires end <= |data|
    ensures var r := ParsePackage(data, at, end); r.Err? ==> !EndCheck(r.error)
  {
    hide ParsePoints, UnLe;
  }

  lemma {:induction false} PackagesNeverFailEndCheck(data: Bytes, at: nat, end: nat)
    requires at <= end <= |data|
    ensures var r := ParsePackages(data, at, end); r.Err? ==> !EndCheck(r.error)
    decreases end - at
  {
    hide ParsePackage, EndCheck;
    PackageNeverFailsEndCheck(data, at, end);
    if at < end && ParsePackage(data, at, end).Ok? {
      PackagesNeverFailEndCheck(data, at + PACKAGE_HEADER + ParsePackage(data, at, end).value.length, end);
    }
  }

  lemma {:induction false} FramesNeverFailEndCheck(data: Bytes, at: nat, count: nat, limit: Option<int>)
    requires at <= |data|
    ensures var r := ParseFrames(data, at, count, limit); r.Err? ==> !EndCheck(r.error)
    decreases |data| - at
  {
    if More(at, |data|, count, limit) {
      var f := ParseFrame(data, at, count);
      if f.Ok? {
        FramesNeverFailEndCheck(data, f.value.next, count + 1, limit);
      } else if at + FRAME_HEADER <= |data| && FrameGuard(data[at..at + FRAME_HEADER], at, count, |data|).None? {
        PackagesNeverFailEndCheck(data, at + FRAME_HEADER, UnLe(data[at..at + FRAME_HEADER][8..16]));
      }
    }
  }

  /** The checks that a frame ends at its next offset and the file at a frame boundary never fail. */
  lemma EndChecksAreDead(data: Bytes, limit: Option<int>)
    ensures var r := ParseFile(data, limit); r.Err? ==> !EndCheck(r.error)
  {
    hide ParseFrames, UnLe;
    if ParseHeader(data).Ok? {
      FramesNeverFailEndCheck(data, FIRST_FRAME, 0, limit);
    }
  }

  // ----- the frame limit -----

  /** A limited parse of an acceptable file sees exactly the first frames of the unlimited one. */
  lemma {:induction false} LimitedPrefix(data: Bytes, at: nat, count: nat, limit: int)
    requires at <= |data| && ParseFrames(data, at, count, None).Ok?
    ensures var full := ParseFrames(data, at, count, None).value;
            ParseFrames(data, at, count, Some(limit)) == Ok(full[..Min(Max(limit - count, 0), |full|)])
    decreases |data| - at
  {
    hide ParseFrame;
    if More(at, |data|, count, Some(limit)) {
      ParseMore(data, at, count, None);
      var f := ParseFrame(data, at, count).value;
      var rest := ParseFrames(data, f.next, count + 1, None).value;
      LimitedPrefix(data, f.next, count + 1, limit);
      var n := Min(Max(limit - count, 0), |[f] + rest|);
      assert ([f] + rest)[..n] == [f] + rest[..n - 1];
    } else {
      assert More(at, |data|, count, None) || ParseFrames(data, at, count, None).value == [];
    }
  }

  /** The limited parse of an acceptable file succeeds, keeps the headers, and counts the prefix only. */
  lemma LimitedAgrees(data: Bytes, limit: int)
    requires ParseFile(data, None).Ok?
    ensures var full := ParseFrames(data, FIRST_FRAME, 0, None).value;
            var seen := full[..Min(Max(limit, 0), |full|)];
            && ParseFile(data, Some(limit)) == Ok(Summary(|data|, ParseHeader(data).value, seen))
            && (ParseFile(data, Some(limit)).value.complete <==> Max(limit, 0) >= |full|)
  {
    hide ParseHeader, ParseFrames, PackageTotal, PointTotal, Retained;
    LimitedPrefix(data, FIRST_FRAME, 0, limit);
    AcceptanceTiles(data);
    hide Span, PrintPackages, Le, ValidPackages;
    var full := ParseFrames(data, FIRST_FRAME, 0, None).value;
    TilesGrow(FIRST_FRAME, 0, full, Min(Max(limit, 0), |full|));
  }

  lemma TileAt(at: nat, index: nat, frames: seq<Frame>, n: nat)
    requires Tiles(at, index, frames) && n < |frames|
    ensures frames[n].current == TileStart(at, frames, n) && frames[n].next > frames[n].current
  {
    hide PrintPackages, ValidPackages;
  }

  lemma NextTile(at: nat, index: nat, frames: seq<Frame>, n: nat)
    requires Tiles(at, index, frames) && n < |frames|
    ensures frames[n].next > Reached(at, frames[..n])
  {
    hide Tiles;
    TileAt(at, index, frames, n);
    if n > 0 {
      assert frames[..n][n - 1] == frames[n - 1];
    } else {
      assert frames[..n] == [];
    }
  }

  lemma {:induction false} TilesGrow(at: nat, index: nat, frames: seq<Frame>, n: nat)
    requires Tiles(at, index, frames) && n <= |frames|
    ensures n < |frames| ==> Reached(at, frames[..n]) < Reached(at, frames)
    decreases |frames| - n
  {
    hide Tiles;
    if n < |frames| {
      NextTile(at, index, frames, n);
      assert frames[..n + 1][n] == frames[n];
      TilesGrow(at, index, frames, n + 1);
      assert frames[..|frames|] == frames;
    }
  }
}
