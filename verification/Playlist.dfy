/** Writing a media playlist (src/mpd/processor.rs:1037-1209) with skipped segments (src/hls/skip_filter.rs), against
    what a player makes of its lines (RFC 8216, section 4.3). */
module Playlist {
  import opened Bytes
  import opened LiveWindow

  datatype SkipRange = SkipRange(start: real, end: real)

  predicate Overlaps(ranges: seq<SkipRange>, start: real, end: real) {
    exists r <- ranges :: start < r.end && end > r.start
  }

  predicate Between(x: real, from: real, to: real) {
    from < x < to
  }

  /** A segment overlaps a range exactly when they have more than a border in common. */
  lemma OverlapMeans(r: SkipRange, start: real, end: real)
    requires start < end && r.start < r.end
    ensures Overlaps([r], start, end) <==> exists x: real :: Between(x, start, end) && Between(x, r.start, r.end)
  {
    assert r in [r];
    if start < r.end && end > r.start {
      var from, to := if start < r.start then r.start else start, if end < r.end then end else r.end;
      var x := (from + to) / 2.0;
      assert Between(x, start, end) && Between(x, r.start, r.end);
    }
  }

  class SkipSegmentFilter {
    const ranges: seq<SkipRange>
    var currentTime: real

    constructor (ranges: seq<SkipRange>)
      ensures this.ranges == ranges && currentTime == 0.0
    {
      this.ranges := ranges;
      currentTime := 0.0;
    }

    /** The clock moves on whether or not the segment is skipped. */
    method CheckAndAdvance(duration: real) returns (skip: bool)
      modifies this
      ensures currentTime == old(currentTime) + duration
      ensures skip == Overlaps(ranges, old(currentTime), currentTime)
    {
      var segmentStart := currentTime;
      var segmentEnd := segmentStart + duration;
      currentTime := segmentEnd;
      skip := exists r <- ranges :: segmentStart < r.end && segmentEnd > r.start;
    }
  }

  // ----- Lines -----

  /** An initialization section: where it is, and which of its bytes. */
  datatype InitRef = InitRef(url: string, range: Option<string>)

  datatype Profile = Profile(initUrl: Option<string>, initRange: Option<string>, explicitStart: bool,
                             nominal: Option<nat>)

  datatype Item = Item(segment: Segment, media: string, date: Option<string>, profile: Profile)

  datatype Line =
    | ExtM3u | Version(n: nat) | Start(offset: real, precise: bool) | TargetDuration(seconds: nat)
    | MediaSequence(number: nat) | VodType | EndList | Discontinuity | Map(init: InitRef)
    | ProgramDateTime(date: string) | ExtInf(duration: real) | Uri(media: string)

  function Init(item: Item): InitRef {
    InitRef(if item.profile.initUrl.Some? then item.profile.initUrl.value else "", item.profile.initRange)
  }

  // ----- Writing the segments -----

  datatype Writer = Writer(lines: seq<Line>, time: real, needDiscontinuity: bool, currentInit: Option<string>)

  /** The lines of one segment, given what has been announced so far. */
  function SegmentLines(w: Writer, item: Item, isTs: bool): seq<Line> {
    var init := Init(item);
    var changed := !isTs && w.currentInit != Some(init.url);
    var boundary := changed && w.currentInit.Some?;
    (if boundary then [Discontinuity] else [])
    + ((if changed && init.url != "" then [Map(init)] else [])
       + ((if w.needDiscontinuity && !boundary then [Discontinuity] else [])
          + ((if item.date.Some? && !isTs then [ProgramDateTime(item.date.value)] else [])
             + [ExtInf(item.segment.extinf), Uri(item.media)])))
  }

  function WriteOne(w: Writer, item: Item, ranges: seq<SkipRange>, isTs: bool): Writer {
    var end := w.time + item.segment.extinf;
    if Overlaps(ranges, w.time, end) then w.(time := end, needDiscontinuity := true)
    else
      Writer(w.lines + SegmentLines(w, item, isTs), end, false, if isTs then w.currentInit else Some(Init(item).url))
  }

  function WriteAll(header: seq<Line>, items: seq<Item>, n: nat, ranges: seq<SkipRange>, isTs: bool): Writer
    requires n <= |items|
  {
    if n == 0 then Writer(header, 0.0, false, None)
    else WriteOne(WriteAll(header, items, n - 1, ranges, isTs), items[n - 1], ranges, isTs)
  }

  /** The lines of one segment that is not skipped. */
  method PushSegment(item: Item, isTs: bool, hls: seq<Line>, need: bool, currentInit: Option<string>)
    returns (lines: seq<Line>, needDiscontinuity: bool, current: Option<string>)
    ensures lines == hls + SegmentLines(Writer(hls, 0.0, need, currentInit), item, isTs)
    ensures !needDiscontinuity
    ensures current == if isTs then currentInit else Some(Init(item).url)
  {
    lines, needDiscontinuity, current := hls, need, currentInit;
    ghost var boundary: seq<Line>, maps: seq<Line>, gap: seq<Line>, date: seq<Line> := [], [], [], [];
    if !isTs {
      var init := Init(item);
      if current != Some(init.url) {
        if current.Some? {
          boundary := [Discontinuity];
          lines := lines + [Discontinuity];
          needDiscontinuity := false;
        }
        current := Some(init.url);
        if init.url != "" {
          maps := [Map(init)];
          lines := lines + [Map(init)];
        }
      }
    }
    assert lines == hls + boundary + maps;
    if needDiscontinuity {
      gap := [Discontinuity];
      lines := lines + [Discontinuity];
      needDiscontinuity := false;
    }
    if item.date.Some? {
      if !isTs {
        date := [ProgramDateTime(item.date.value)];
        lines := lines + [ProgramDateTime(item.date.value)];
      }
    }
    ghost var body := [ExtInf(item.segment.extinf), Uri(item.media)];
    assert lines == hls + boundary + maps + gap + date;
    lines := lines + [ExtInf(item.segment.extinf)];
    lines := lines + [Uri(item.media)];
    assert lines == hls + (boundary + (maps + (gap + (date + body))));
  }

  method EmitSegments(header: seq<Line>, items: seq<Item>, ranges: seq<SkipRange>, isTs: bool) returns (hls: seq<Line>)
    ensures hls == WriteAll(header, items, |items|, ranges, isTs).lines
  {
    hide SegmentLines, Overlaps;
    var filter: SkipSegmentFilter? := null;
    if ranges != [] {
      filter := new SkipSegmentFilter(ranges);
    }
    NothingOverlaps();
    var needDiscontinuity := false;
    var currentInitUrl: Option<string> := None;
    hls := header;
    ghost var time := 0.0;
    for i := 0 to |items|
      invariant WriteAll(header, items, i, ranges, isTs) == Writer(hls, time, needDiscontinuity, currentInitUrl)
      invariant filter == null ==> ranges == []
      invariant filter != null ==> fresh(filter) && filter.ranges == ranges && filter.currentTime == time
    {
      var item := items[i];
      ghost var before := Writer(hls, time, needDiscontinuity, currentInitUrl);
      time := time + item.segment.extinf;
      var skip := false;
      if filter != null {
        skip := filter.CheckAndAdvance(item.segment.extinf);
      }
      if skip {
        needDiscontinuity := true;
        continue;
      }
      LinesIgnoreTime(before, item, isTs);
      hls, needDiscontinuity, currentInitUrl := PushSegment(item, isTs, hls, needDiscontinuity, currentInitUrl);
    }
  }

  lemma NothingOverlaps()
    ensures forall a, b :: !Overlaps([], a, b)
  {
  }

  lemma LinesIgnoreTime(w: Writer, item: Item, isTs: bool)
    ensures SegmentLines(w, item, isTs)
            == SegmentLines(Writer(w.lines, 0.0, w.needDiscontinuity, w.currentInit), item, isTs)
  {
  }

  // ----- Reading the lines -----

  /** A segment as a player plays it: with the initialization section in force and the breaks announced before it. */
  datatype Played = Played(media: string, duration: Option<real>, date: Option<string>, init: Option<InitRef>,
                           breaks: nat)

  datatype Player = Player(played: seq<Played>, duration: Option<real>, date: Option<string>, init: Option<InitRef>,
                           breaks: nat)

  const IDLE := Player([], None, None, None, 0)

  function PlayLine(p: Player, l: Line): Player {
    match l
    case Discontinuity => p.(breaks := p.breaks + 1)
    case Map(init) => p.(init := Some(init))
    case ProgramDateTime(date) => p.(date := Some(date))
    case ExtInf(duration) => p.(duration := Some(duration))
    case Uri(media) => Player(p.played + [Played(media, p.duration, p.date, p.init, p.breaks)], None, None, p.init, 0)
    case _ => p
  }

  function Play(p: Player, lines: seq<Line>): Player
    decreases |lines|
  {
    if lines == [] then p else Play(PlayLine(p, lines[0]), lines[1..])
  }

  lemma {:induction false} PlayConcat(p: Player, a: seq<Line>, b: seq<Line>)
    ensures Play(p, a + b) == Play(Play(p, a), b)
    decreases |a|
  {
    if a == [] {
      assert a + b == b;
    } else {
      ConcatTail(a, b);
      PlayConcat(PlayLine(p, a[0]), a[1..], b);
    }
  }

  lemma PlaySingle(p: Player, l: Line)
    ensures Play(p, [l]) == PlayLine(p, l)
  {
    assert [l][1..] == [];
  }

  lemma PlayOptional(p: Player, c: bool, l: Line, rest: seq<Line>)
    ensures Play(p, (if c then [l] else []) + rest) == Play(if c then PlayLine(p, l) else p, rest)
  {
    PlayConcat(p, if c then [l] else [], rest);
    PlaySingle(p, l);
  }

  /** One written segment, as played. */
  lemma PlaySegment(w: Writer, item: Item, isTs: bool, p: Player)
    requires p.breaks == 0 && p.date == None && p.duration == None
    ensures var init := Init(item);
            var changed := !isTs && w.currentInit != Some(init.url);
            var section := if changed && init.url != "" then Some(init) else p.init;
            var breaks := if (changed && w.currentInit.Some?) || w.needDiscontinuity then 1 else 0;
            Play(p, SegmentLines(w, item, isTs))
            == Player(p.played + [Played(item.media, Some(item.segment.extinf), if isTs then None else item.date,
                                         section, breaks)],
                      None, None, section, 0)
  {
    hide Play;
    var init := Init(item);
    var changed := !isTs && w.currentInit != Some(init.url);
    var boundary := changed && w.currentInit.Some?;
    var dated := item.date.Some? && !isTs;
    var date := if dated then item.date.value else "";
    var body := [ExtInf(item.segment.extinf), Uri(item.media)];
    var dates := if dated then [ProgramDateTime(date)] else [];
    var gap := w.needDiscontinuity && !boundary;
    var gaps := if gap then [Discontinuity] else [];
    var mapped := changed && init.url != "";
    var maps := if mapped then [Map(init)] else [];
    PlayOptional(p, boundary, Discontinuity, maps + (gaps + (dates + body)));
    var p1 := if boundary then PlayLine(p, Discontinuity) else p;
    PlayOptional(p1, mapped, Map(init), gaps + (dates + body));
    var p2 := if mapped then PlayLine(p1, Map(init)) else p1;
    PlayOptional(p2, gap, Discontinuity, dates + body);
    var p3 := if gap then PlayLine(p2, Discontinuity) else p2;
    PlayOptional(p3, dated, ProgramDateTime(date), body);
    var p4 := if dated then PlayLine(p3, ProgramDateTime(date)) else p3;
    assert body == [ExtInf(item.segment.extinf)] + [Uri(item.media)];
    PlayConcat(p4, [ExtInf(item.segment.extinf)], [Uri(item.media)]);
    PlaySingle(p4, ExtInf(item.segment.extinf));
    PlaySingle(PlayLine(p4, ExtInf(item.segment.extinf)), Uri(item.media));
  }

  // ----- What should be played -----

  /** When segment `i` begins, counting from the first listed one. */
  function StartTime(items: seq<Item>, i: nat): real
    requires i <= |items|
  {
    if i == 0 then 0.0 else StartTime(items, i - 1) + items[i - 1].segment.extinf
  }

  predicate Skipped(items: seq<Item>, ranges: seq<SkipRange>, i: nat)
    requires i < |items|
  {
    Overlaps(ranges, StartTime(items, i), StartTime(items, i + 1))
  }

  predicate Inside(items: seq<Item>, ks: seq<nat>) {
    forall j :: 0 <= j < |ks| ==> ks[j] < |items|
  }

  /** The segments before `n` that no skip range touches. */
  function Kept(items: seq<Item>, ranges: seq<SkipRange>, n: nat): (ks: seq<nat>)
    requires n <= |items|
    ensures Inside(items, ks) && forall j :: 0 <= j < |ks| ==> ks[j] < n
  {
    if n == 0 then [] else Kept(items, ranges, n - 1) + if Skipped(items, ranges, n - 1) then [] else [n - 1]
  }

  /** They are listed once each, in order. */
  lemma {:induction false} KeptExactly(items: seq<Item>, ranges: seq<SkipRange>, n: nat)
    requires n <= |items|
    ensures forall a, b :: 0 <= a < b < |Kept(items, ranges, n)| ==>
              Kept(items, ranges, n)[a] < Kept(items, ranges, n)[b]
    ensures forall k :: 0 <= k < n ==> (k in Kept(items, ranges, n) <==> !Skipped(items, ranges, k))
  {
    hide Skipped;
    if n > 0 {
      KeptExactly(items, ranges, n - 1);
      forall k | 0 <= k < n ensures k in Kept(items, ranges, n) <==> !Skipped(items, ranges, k) {
        assert k in Kept(items, ranges, n)
               <==> k in Kept(items, ranges, n - 1) || (k == n - 1 && !Skipped(items, ranges, k));
      }
    }
  }

  /** Is a segment missing between kept segment `j` and the one before it? */
  predicate GapBefore(ks: seq<nat>, j: nat)
    requires j < |ks|
  {
    ks[j] > if j == 0 then 0 else ks[j - 1] + 1
  }

  predicate InitChanges(items: seq<Item>, ks: seq<nat>, j: nat)
    requires j < |ks| && Inside(items, ks)
  {
    j > 0 && Init(items[ks[j]]).url != Init(items[ks[j - 1]]).url
  }

  /** The initialization section a player has in force at kept segment `j`. */
  function InitInForce(items: seq<Item>, ks: seq<nat>, j: nat): Option<InitRef>
    requires j < |ks| && Inside(items, ks)
    decreases j
  {
    var init := Init(items[ks[j]]);
    if (j == 0 || InitChanges(items, ks, j)) && init.url != "" then Some(init)
    else if j == 0 then None
    else InitInForce(items, ks, j - 1)
  }

  predicate PlayedRight(items: seq<Item>, ks: seq<nat>, isTs: bool, j: nat, p: Played)
    requires j < |ks| && Inside(items, ks)
  {
    var item := items[ks[j]];
    && p.media == item.media && p.duration == Some(item.segment.extinf)
    && p.date == (if isTs then None else item.date)
    && p.init == (if isTs then None else InitInForce(items, ks, j))
    && p.breaks == if GapBefore(ks, j) || (!isTs && InitChanges(items, ks, j)) then 1 else 0
  }

  lemma {:induction false} InitInForceStable(items: seq<Item>, ks: seq<nat>, k: nat, j: nat)
    requires j < |ks| && k < |items| && Inside(items, ks)
    ensures Inside(items, ks + [k]) && InitInForce(items, ks + [k], j) == InitInForce(items, ks, j)
    decreases j
  {
    if j > 0 {
      InitInForceStable(items, ks, k, j - 1);
    }
  }

  lemma RightStable(items: seq<Item>, ks: seq<nat>, k: nat, isTs: bool, j: nat, p: Played)
    requires j < |ks| && k < |items| && Inside(items, ks) && PlayedRight(items, ks, isTs, j, p)
    ensures Inside(items, ks + [k]) && PlayedRight(items, ks + [k], isTs, j, p)
  {
    InitInForceStable(items, ks, k, j);
  }

  /** What holds after `n` segments have been considered. */
  predicate InStep(items: seq<Item>, ranges: seq<SkipRange>, isTs: bool, n: nat, w: Writer, p: Player)
    requires n <= |items|
  {
    var ks := Kept(items, ranges, n);
    var last := |ks| - 1;
    && w.time == StartTime(items, n)
    && w.needDiscontinuity == (n > if ks == [] then 0 else ks[last] + 1)
    && w.currentInit == (if isTs || ks == [] then None else Some(Init(items[ks[last]]).url))
    && p.breaks == 0 && p.date == None && p.duration == None
    && p.init == (if isTs || ks == [] then None else InitInForce(items, ks, last))
    && |p.played| == |ks|
    && forall j :: 0 <= j < |ks| ==> PlayedRight(items, ks, isTs, j, p.played[j])
  }

  lemma StepKept(items: seq<Item>, ranges: seq<SkipRange>, isTs: bool, n: nat, w: Writer, p: Player)
    requires n < |items| && InStep(items, ranges, isTs, n, w, p) && !Skipped(items, ranges, n)
    ensures InStep(items, ranges, isTs, n + 1, WriteOne(w, items[n], ranges, isTs),
                   Play(p, SegmentLines(w, items[n], isTs)))
    ensures WriteOne(w, items[n], ranges, isTs).lines == w.lines + SegmentLines(w, items[n], isTs)
  {
    hide Play, SegmentLines, Overlaps, PlayedRight, InitInForce;
    var ks := Kept(items, ranges, n);
    var q := Play(p, SegmentLines(w, items[n], isTs));
    PlaySegment(w, items[n], isTs, p);
    assert Kept(items, ranges, n + 1) == ks + [n];
    forall j | 0 <= j < |ks| ensures PlayedRight(items, ks + [n], isTs, j, q.played[j]) {
      RightStable(items, ks, n, isTs, j, p.played[j]);
    }
    LastRight(items, ks, isTs, n, w, p);
  }

  /** The segment just written is played right. */
  lemma LastRight(items: seq<Item>, ks: seq<nat>, isTs: bool, n: nat, w: Writer, p: Player)
    requires n < |items| && Inside(items, ks) && Inside(items, ks + [n])
    requires w.needDiscontinuity == (n > if ks == [] then 0 else ks[|ks| - 1] + 1)
    requires w.currentInit == (if isTs || ks == [] then None else Some(Init(items[ks[|ks| - 1]]).url))
    requires p.breaks == 0 && p.date == None && p.duration == None
    requires p.init == (if isTs || ks == [] then None else InitInForce(items, ks, |ks| - 1))
    ensures var q := Play(p, SegmentLines(w, items[n], isTs));
            && |q.played| == |p.played| + 1
            && PlayedRight(items, ks + [n], isTs, |ks|, q.played[|p.played|])
            && q.init == (if isTs then None else InitInForce(items, ks + [n], |ks|))
  {
    hide Play, SegmentLines;
    PlaySegment(w, items[n], isTs, p);
    if ks != [] {
      InitInForceStable(items, ks, n, |ks| - 1);
    }
  }

  lemma StepSkipped(items: seq<Item>, ranges: seq<SkipRange>, isTs: bool, n: nat, w: Writer, p: Player)
    requires n < |items| && InStep(items, ranges, isTs, n, w, p) && Skipped(items, ranges, n)
    ensures InStep(items, ranges, isTs, n + 1, WriteOne(w, items[n], ranges, isTs), p)
    ensures WriteOne(w, items[n], ranges, isTs).lines == w.lines
  {
    hide Overlaps, PlayedRight, InitInForce;
    KeptSame(items, ranges, n);
  }

  lemma KeptSame(items: seq<Item>, ranges: seq<SkipRange>, n: nat)
    requires n < |items| && Skipped(items, ranges, n)
    ensures Kept(items, ranges, n + 1) == Kept(items, ranges, n)
  {
  }

  /** Header lines say nothing about segments. */
  predicate Silent(l: Line) {
    !l.Discontinuity? && !l.Map? && !l.ProgramDateTime? && !l.ExtInf? && !l.Uri?
  }

  lemma {:induction false} SilentLines(p: Player, lines: seq<Line>)
    requires forall l <- lines :: Silent(l)
    ensures Play(p, lines) == p
    decreases |lines|
  {
    if lines != [] {
      assert lines[0] in lines;
      SilentLines(p, lines[1..]);
    }
  }

  lemma NothingWritten(header: seq<Line>, items: seq<Item>, ranges: seq<SkipRange>, isTs: bool)
    requires forall l <- header :: Silent(l)
    ensures var w := WriteAll(header, items, 0, ranges, isTs); InStep(items, ranges, isTs, 0, w, Play(IDLE, w.lines))
  {
    SilentLines(IDLE, header);
  }

  lemma {:induction false} PlayedInStep(header: seq<Line>, items: seq<Item>, ranges: seq<SkipRange>, isTs: bool, n: nat)
    requires n <= |items| && forall l <- header :: Silent(l)
    ensures var w := WriteAll(header, items, n, ranges, isTs); InStep(items, ranges, isTs, n, w, Play(IDLE, w.lines))
    decreases n
  {
    hide SegmentLines, Play, PlayedRight, InStep, Overlaps, WriteOne;
    if n == 0 {
      NothingWritten(header, items, ranges, isTs);
    } else {
      PlayedInStep(header, items, ranges, isTs, n - 1);
      var w := WriteAll(header, items, n - 1, ranges, isTs);
      if Skipped(items, ranges, n - 1) {
        StepSkipped(items, ranges, isTs, n - 1, w, Play(IDLE, w.lines));
      } else {
        StepKept(items, ranges, isTs, n - 1, w, Play(IDLE, w.lines));
        PlayConcat(IDLE, w.lines, SegmentLines(w, items[n - 1], isTs));
      }
    }
  }

  /** A player plays exactly the segments no skip range touches, in order, with a break exactly where a segment is
      missing or the initialization URL changes, and never more than one. */
  lemma PlaysWhatIsKept(header: seq<Line>, items: seq<Item>, ranges: seq<SkipRange>, isTs: bool)
    requires forall l <- header :: Silent(l)
    ensures var played := Play(IDLE, WriteAll(header, items, |items|, ranges, isTs).lines).played;
            var ks := Kept(items, ranges, |items|);
            && |played| == |ks|
            && forall j :: 0 <= j < |ks| ==> PlayedRight(items, ks, isTs, j, played[j])
  {
    hide PlayedRight, Play;
    PlayedInStep(header, items, ranges, isTs, |items|);
  }

  /** The section in force is the segment's own, URL for URL, exactly when it has one to announce. */
  lemma {:induction false} InitNamesSegment(items: seq<Item>, ks: seq<nat>, j: nat)
    requires j < |ks| && Inside(items, ks)
    ensures (InitInForce(items, ks, j).Some? && InitInForce(items, ks, j).value.url == Init(items[ks[j]]).url)
            <==> Init(items[ks[j]]).url != ""
    ensures InitInForce(items, ks, j).Some? ==> InitInForce(items, ks, j).value.url != ""
    decreases j
  {
    if j > 0 {
      InitNamesSegment(items, ks, j - 1);
    }
  }

  /** Where the run of segments with the URL of segment `j` begins. */
  function RunStart(items: seq<Item>, ks: seq<nat>, j: nat): (r: nat)
    requires j < |ks| && Inside(items, ks)
    ensures r <= j
    decreases j
  {
    if j == 0 || InitChanges(items, ks, j) then j else RunStart(items, ks, j - 1)
  }

  /** The byte range announced is that of the first segment of the run: a range that changes under one URL is not
      noticed. */
  lemma {:induction false} InitOfRun(items: seq<Item>, ks: seq<nat>, j: nat)
    requires j < |ks| && Inside(items, ks) && Init(items[ks[j]]).url != ""
    ensures InitInForce(items, ks, j) == Some(Init(items[ks[RunStart(items, ks, j)]]))
    ensures InitInForce(items, ks, j) == Some(Init(items[ks[j]]))
            <==> Init(items[ks[RunStart(items, ks, j)]]).range == Init(items[ks[j]]).range
    decreases j
  {
    InitNamesSegment(items, ks, j);
    if j > 0 && !InitChanges(items, ks, j) {
      InitOfRun(items, ks, j - 1);
    }
  }

  // ----- The whole playlist -----

  function SegmentsOf(items: seq<Item>): seq<Segment> {
    seq(|items|, i requires 0 <= i < |items| => items[i].segment)
  }

  function MaxExtinf(extinfs: seq<real>): real {
    if extinfs == [] then 0.0
    else
      var m := MaxExtinf(extinfs[..|extinfs| - 1]);
      if m < extinfs[|extinfs| - 1] then extinfs[|extinfs| - 1] else m
  }

  function TargetSeconds(items: seq<Item>, isTs: bool): nat {
    ToUnsigned(Ceil(MaxExtinf(Extinfs(SegmentsOf(items)))) as real) + if isTs then 1 else 0
  }

  function StartOffset(s: Settings, isLive: bool): Option<real> {
    if s.startOffset.Some? then s.startOffset else if isLive then Some(-30.0) else None
  }

  function Trimmed(merged: seq<Item>, s: Settings, isLive: bool): (r: seq<Item>)
    ensures merged != [] ==> r != []
  {
    if !isLive then merged
    else
      var depth := PlaylistDepth(s.isTs, StartOffset(s, true), s.configuredDepth, Extinfs(SegmentsOf(merged)));
      merged[SatSub(|merged|, depth)..]
  }

  /** The lines before the segments. */
  function Header(merged: seq<Item>, s: Settings, isLive: bool): seq<Line>
    requires merged != []
  {
    var items, offset := Trimmed(merged, s, isLive), StartOffset(s, isLive);
    var first := items[0];
    var number :=
      if isLive then LiveMediaSequence(first.segment, first.profile.explicitStart, first.profile.nominal)
      else Max(first.segment.number, 1);
    [ExtM3u, Version(if s.isTs then 3 else 6)]
    + (if offset.Some? then [Start(offset.value, !s.isTs)] else [])
    + [TargetDuration(TargetSeconds(items, s.isTs)), MediaSequence(number)]
    + (if isLive then [] else [VodType])
  }

  function PlaylistLines(merged: seq<Item>, s: Settings, isLive: bool, ranges: seq<SkipRange>): seq<Line> {
    if merged == [] then [ExtM3u, Version(if s.isTs then 3 else 6)]
    else
      var items := Trimmed(merged, s, isLive);
      WriteAll(Header(merged, s, isLive), items, |items|, ranges, s.isTs).lines + if isLive then [] else [EndList]
  }

  method BuildMediaPlaylist(merged: seq<Item>, s: Settings, isLive: bool, ranges: seq<SkipRange>)
    returns (hls: seq<Line>)
    ensures hls == PlaylistLines(merged, s, isLive, ranges)
  {
    hide WriteAll, TargetSeconds, PlaylistDepth, LiveMediaSequence;
    hls := [ExtM3u, Version(if s.isTs then 3 else 6)];
    if merged == [] {
      return;
    }
    var offset := StartOffset(s, isLive);
    if offset.Some? {
      hls := hls + [Start(offset.value, !s.isTs)];
    }
    var trimmed := merged;
    if isLive {
      var depth := PlaylistDepth(s.isTs, offset, s.configuredDepth, Extinfs(SegmentsOf(merged)));
      trimmed := merged[SatSub(|merged|, depth)..];
    }
    var first := trimmed[0];
    var number := Max(first.segment.number, 1);
    if isLive {
      number := LiveMediaSequence(first.segment, first.profile.explicitStart, first.profile.nominal);
    }
    hls := hls + [TargetDuration(TargetSeconds(trimmed, s.isTs)), MediaSequence(number)];
    if !isLive {
      hls := hls + [VodType];
    }
    assert hls == Header(merged, s, isLive);
    hls := EmitSegments(hls, trimmed, ranges, s.isTs);
    if !isLive {
      hls := hls + [EndList];
    }
  }

  lemma HeaderIsSilent(merged: seq<Item>, s: Settings, isLive: bool)
    requires merged != []
    ensures forall l <- Header(merged, s, isLive) :: Silent(l)
  {
    hide Trimmed, TargetSeconds, LiveMediaSequence, StartOffset;
  }

  /** The whole playlist plays as its segment lines do. */
  lemma PlaylistPlays(merged: seq<Item>, s: Settings, isLive: bool, ranges: seq<SkipRange>)
    ensures var played := Play(IDLE, PlaylistLines(merged, s, isLive, ranges)).played;
            var items := Trimmed(merged, s, isLive);
            var ks := Kept(items, ranges, |items|);
            && |played| == |ks|
            && forall j :: 0 <= j < |ks| ==> PlayedRight(items, ks, s.isTs, j, played[j])
  {
    hide PlayedRight, Play, WriteAll, PlaylistDepth, Header;
    if merged == [] {
      SilentLines(IDLE, PlaylistLines(merged, s, isLive, ranges));
    } else {
      HeaderIsSilent(merged, s, isLive);
      var items, header := Trimmed(merged, s, isLive), Header(merged, s, isLive);
      PlaysWhatIsKept(header, items, ranges, s.isTs);
      var lines, end := WriteAll(header, items, |items|, ranges, s.isTs).lines, if isLive then [] else [EndList];
      PlayConcat(IDLE, lines, end);
      SilentLines(Play(IDLE, lines), end);
    }
  }

  /** For a fixed-duration live template, the segments written and the media sequence announced are those of its reload.
      */
  lemma ReloadWritten(t: Template, s: Settings, now: real, merged: seq<Item>)
    requires merged != [] && SegmentsOf(merged) == LiveSegments(t, now)
    requires forall i :: 0 <= i < |merged| ==>
               && merged[i].profile.explicitStart == t.explicitStart
               && merged[i].profile.nominal == NominalDuration(LiveSegments(t, now))
    ensures LivePlaylist(t, s, now).Some?
    ensures SegmentsOf(Trimmed(merged, s, true)) == LivePlaylist(t, s, now).value.segments
    ensures MediaSequence(LivePlaylist(t, s, now).value.sequence) in Header(merged, s, true)
  {
    hide PlaylistDepth, LiveMediaSequence, NominalDuration, TargetSeconds, LiveSegments;
    var at := TrimIndex(s, LiveSegments(t, now));
    TrimInside(s, LiveSegments(t, now));
    assert Trimmed(merged, s, true) == merged[at..];
    assert SegmentsOf(merged[at..]) == SegmentsOf(merged)[at..];
    assert SegmentsOf(merged)[at..][0] == merged[at..][0].segment;
  }

  lemma {:induction false} MaxIsUpper(extinfs: seq<real>)
    ensures (forall x <- extinfs :: x <= MaxExtinf(extinfs)) && MaxExtinf(extinfs) >= 0.0
    ensures MaxExtinf(extinfs) == 0.0 || MaxExtinf(extinfs) in extinfs
  {
    if extinfs != [] {
      MaxIsUpper(extinfs[..|extinfs| - 1]);
      assert extinfs == extinfs[..|extinfs| - 1] + [extinfs[|extinfs| - 1]];
    }
  }

  lemma {:induction false} ExtinfsHold(segments: seq<Segment>, i: nat)
    requires i < |segments| && segments[i].extinf > 0.0
    ensures segments[i].extinf in Extinfs(segments)
    decreases i
  {
    if i > 0 {
      ExtinfsHold(segments[1..], i - 1);
    }
  }

  /** No listed segment is longer than the announced target (RFC 8216, section 4.3.3.1). */
  lemma TargetCovers(items: seq<Item>, isTs: bool, i: nat)
    requires i < |items|
    ensures items[i].segment.extinf <= TargetSeconds(items, isTs) as real
  {
    var segments := SegmentsOf(items);
    MaxIsUpper(Extinfs(segments));
    if segments[i].extinf > 0.0 {
      ExtinfsHold(segments, i);
    }
  }

  /** The target is the fewest whole seconds that do, and one more for transport streams. */
  lemma TargetSmallest(items: seq<Item>, isTs: bool)
    ensures var t := TargetSeconds(items, isTs) - if isTs then 1 else 0;
            t == 0 || exists i :: 0 <= i < |items| && items[i].segment.extinf > (t - 1) as real
  {
    var segments := SegmentsOf(items);
    var longest := MaxExtinf(Extinfs(segments));
    MaxIsUpper(Extinfs(segments));
    if longest > 0.0 {
      var i := ExtinfFound(segments, longest);
      assert items[i].segment.extinf == longest;
      assert Ceil(longest) as real - 1.0 < longest;
    }
  }

  lemma {:induction false} ExtinfFound(segments: seq<Segment>, x: real) returns (i: nat)
    requires x in Extinfs(segments)
    ensures i < |segments| && segments[i].extinf == x
    decreases |segments|
  {
    if segments[0].extinf == x {
      i := 0;
    } else {
      i := ExtinfFound(segments[1..], x);
      i := i + 1;
    }
  }

  // ----- What the playlist announces -----

  /** Writing segments adds nothing that a header says. */
  lemma {:induction false} OnlySegmentLines(header: seq<Line>, items: seq<Item>, n: nat, ranges: seq<SkipRange>,
                                            isTs: bool)
    requires n <= |items|
    ensures forall l | Silent(l) :: l in WriteAll(header, items, n, ranges, isTs).lines <==> l in header
    ensures header <= WriteAll(header, items, n, ranges, isTs).lines
    decreases n
  {
    hide SegmentLines, Overlaps;
    if n > 0 {
      var w := WriteAll(header, items, n - 1, ranges, isTs);
      OnlySegmentLines(header, items, n - 1, ranges, isTs);
      LinesAboutSegment(w, items[n - 1], isTs);
    }
  }

  lemma LinesAboutSegment(w: Writer, item: Item, isTs: bool)
    ensures forall l <- SegmentLines(w, item, isTs) :: !Silent(l)
  {
  }

  /** A playlist with segments begins with its header, and says nothing but that and that it has ended. */
  lemma HeaderFirst(merged: seq<Item>, s: Settings, isLive: bool, ranges: seq<SkipRange>)
    requires merged != []
    ensures Header(merged, s, isLive) <= PlaylistLines(merged, s, isLive, ranges)
    ensures forall l | Silent(l) :: l in PlaylistLines(merged, s, isLive, ranges)
                                    <==> l in Header(merged, s, isLive) || (l == EndList && !isLive)
  {
    hide WriteAll, Header, Trimmed;
    var items := Trimmed(merged, s, isLive);
    OnlySegmentLines(Header(merged, s, isLive), items, |items|, ranges, s.isTs);
  }

  /** A playlist is announced as recorded and as complete exactly when it is not live, the latter in its last line. */
  lemma EndsWhenRecorded(merged: seq<Item>, s: Settings, isLive: bool, ranges: seq<SkipRange>)
    requires merged != []
    ensures var lines := PlaylistLines(merged, s, isLive, ranges);
            && [ExtM3u] <= lines
            && (VodType in lines <==> !isLive)
            && (EndList in lines <==> !isLive)
            && (!isLive ==> lines[|lines| - 1..] == [EndList])
  {
    hide WriteAll, TargetSeconds, LiveMediaSequence, Trimmed;
    HeaderFirst(merged, s, isLive, ranges);
    assert Silent(VodType) && Silent(EndList);
  }

  /** It announces one version, one target duration and one media sequence. */
  lemma AnnouncedNumbers(merged: seq<Item>, s: Settings, isLive: bool, ranges: seq<SkipRange>, n: nat)
    requires merged != []
    ensures var lines, items := PlaylistLines(merged, s, isLive, ranges), Trimmed(merged, s, isLive);
            var first := items[0];
            && (Version(n) in lines <==> n == if s.isTs then 3 else 6)
            && (TargetDuration(n) in lines <==> n == TargetSeconds(items, s.isTs))
            && (MediaSequence(n) in lines <==>
                n == if isLive then
                       LiveMediaSequence(first.segment, first.profile.explicitStart, first.profile.nominal)
                     else if first.segment.number > 1 then first.segment.number else 1)
  {
    hide WriteAll, PlaylistLines, TargetSeconds, LiveMediaSequence, Trimmed;
    HeaderFirst(merged, s, isLive, ranges);
    assert Silent(Version(n)) && Silent(TargetDuration(n)) && Silent(MediaSequence(n));
  }

  /** It announces the start offset that is set, or else, when live, 30 seconds before the end. */
  lemma AnnouncedStart(merged: seq<Item>, s: Settings, isLive: bool, ranges: seq<SkipRange>, o: real, precise: bool)
    requires merged != []
    ensures Start(o, precise) in PlaylistLines(merged, s, isLive, ranges)
            <==> && precise == !s.isTs
                 && (s.startOffset == Some(o) || (s.startOffset == None && isLive && o == -30.0))
  {
    hide WriteAll, PlaylistLines, TargetSeconds, LiveMediaSequence, Trimmed;
    HeaderFirst(merged, s, isLive, ranges);
    assert Silent(Start(o, precise));
  }

  /** So in a recording that skips nothing, whose numbers run without a break from 1 or later, a player that counts from
      the media sequence gives every segment its own number. */
  lemma RecordedNumbers(merged: seq<Item>, s: Settings, ranges: seq<SkipRange>, first: nat, j: nat)
    requires j < |merged| && first >= 1
    requires forall i :: 0 <= i < |merged| ==> merged[i].segment.number == first + i
    requires forall i :: 0 <= i < |merged| ==> !Skipped(merged, ranges, i)
    ensures var lines := PlaylistLines(merged, s, false, ranges);
            && MediaSequence(first) in lines
            && |Play(IDLE, lines).played| == |merged|
            && Play(IDLE, lines).played[j].media == merged[j].media
            && merged[j].segment.number == first + j
  {
    hide Play, PlaylistLines, Skipped, WriteAll;
    AnnouncedNumbers(merged, s, false, ranges, first);
    PlaylistPlays(merged, s, false, ranges);
    AllKept(merged, ranges, |merged|);
  }

  lemma {:induction false} AllKept(items: seq<Item>, ranges: seq<SkipRange>, n: nat)
    requires n <= |items| && forall i :: 0 <= i < |items| ==> !Skipped(items, ranges, i)
    ensures |Kept(items, ranges, n)| == n && forall i :: 0 <= i < n ==> Kept(items, ranges, n)[i] == i
  {
    hide Skipped;
    if n > 0 {
      AllKept(items, ranges, n - 1);
    }
  }
}
