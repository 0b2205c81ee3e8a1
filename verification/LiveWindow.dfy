/** Segment lists for fixed-duration templates and `SegmentTimeline`s (src/mpd/timeline.rs), and the numbers a live
    playlist gives its segments from one reload to the next (src/mpd/processor.rs:800-863 and 1087-1126). Seconds are
    reals. */
module LiveWindow {
  import opened Bytes
  import opened Sorting

  datatype TimelineEntry = TimelineEntry(number: nat, time: nat, duration: nat, startUnix: Option<real>,
                                         endUnix: Option<real>)

  function Max(a: int, b: int): int {
    if a < b then b else a
  }

  /** Subtraction that stops at zero. */
  function SatSub(a: nat, b: nat): nat {
    if a < b then 0 else a - b
  }

  function Ceil(x: real): int {
    -(-x).Floor
  }

  /** A float cast to an unsigned integer: the fraction is dropped, negative values give zero. */
  function ToUnsigned(x: real): nat {
    if x < 0.0 then 0 else x.Floor
  }

  lemma DivOrder(a: real, b: real, d: real)
    requires d > 0.0
    ensures a / d <= b <==> a <= b * d
    ensures b <= a / d <==> b * d <= a
  {
    var q := a / d;
    assert q * d == a;
    TimesOrder(q, b, d);
    TimesOrder(b, q, d);
  }

  lemma TimesOrder(a: real, b: real, d: real)
    requires d > 0.0
    ensures a <= b <==> a * d <= b * d
  {
    var gap := b - a;
    assert b * d - a * d == gap * d;
    if gap < 0.0 {
      assert (-gap) * d > 0.0;
    } else {
      assert gap * d >= 0.0;
    }
  }

  // ----- Fixed-duration templates -----

  /** A `SegmentTemplate` with `@duration`; without `@startNumber` numbers start at 1. */
  datatype Template = Template(
    availability: real, bufferDepth: real, explicitStart: bool, startNumber: nat, duration: nat, timescale: nat,
    offset: nat)

  predicate ValidTemplate(t: Template) {
    t.explicitStart || t.startNumber == 1
  }

  function SegmentSeconds(t: Template): (d: real)
    requires t.timescale > 0
    ensures t.duration > 0 ==> d > 0.0
  {
    t.duration as real / t.timescale as real
  }

  function SegmentCount(t: Template): nat
    requires t.timescale > 0 && t.duration > 0
  {
    ToUnsigned(Ceil(t.bufferDepth / SegmentSeconds(t)) as real)
  }

  /** The window is the fewest segments that cover the buffer. */
  lemma WindowCovers(t: Template)
    requires t.timescale > 0 && t.duration > 0
    ensures var n, d := SegmentCount(t), SegmentSeconds(t);
            && t.bufferDepth <= n as real * d
            && (n > 0 ==> (n - 1) as real * d < t.bufferDepth)
  {
    var q, n := t.bufferDepth / SegmentSeconds(t), SegmentCount(t);
    assert Ceil(q) as real - 1.0 < q <= Ceil(q) as real;
    DivOrder(t.bufferDepth, n as real, SegmentSeconds(t));
    if n > 0 {
      DivOrder(t.bufferDepth, (n - 1) as real, SegmentSeconds(t));
    }
  }

  function Elapsed(t: Template, now: real): nat
    requires t.timescale > 0 && t.duration > 0
  {
    ToUnsigned((now - t.availability) / SegmentSeconds(t))
  }

  function Earliest(t: Template, now: real): (n: nat)
    requires t.timescale > 0 && t.duration > 0
    ensures n >= t.startNumber
  {
    Max(SatSub(t.startNumber + Elapsed(t, now), SegmentCount(t)), t.startNumber)
  }

  /** Where segment `n` stands on the media timeline. */
  function Time(t: Template, n: nat): nat
    requires n >= t.startNumber
  {
    t.offset + (n - t.startNumber) * t.duration
  }

  /** Segment `n` does not depend on the clock. */
  function LiveEntry(t: Template, n: nat): TimelineEntry
    requires t.timescale > 0 && n >= t.startNumber
  {
    var start := t.availability + (n - t.startNumber) as real * SegmentSeconds(t);
    TimelineEntry(n, Time(t, n), t.duration, Some(start), Some(start + SegmentSeconds(t)))
  }

  /** A zero duration lists nothing, and a zero timescale makes segments infinitely long, of which none fits the buffer.
      */
  function LiveEntries(t: Template, now: real): seq<TimelineEntry> {
    if t.duration == 0 || t.timescale == 0 then []
    else
      var earliest := Earliest(t, now);
      seq(SegmentCount(t), k requires 0 <= k < SegmentCount(t) => LiveEntry(t, earliest + k))
  }

  lemma ElapsedGrows(t: Template, now: real, later: real)
    requires t.timescale > 0 && t.duration > 0 && now <= later
    ensures Elapsed(t, now) <= Elapsed(t, later) && Earliest(t, now) <= Earliest(t, later)
  {
    var d := SegmentSeconds(t);
    var a, b := (now - t.availability) / d, (later - t.availability) / d;
    DivOrder(now - t.availability, b, d);
    assert b * d == later - t.availability;
    assert a <= b;
  }

  predicate EndedBy(e: TimelineEntry, now: real) {
    e.endUnix.Some? && e.endUnix.value <= now
  }

  /** Every listed segment has ended by now exactly when at least a whole window has passed since the stream began. */
  lemma AllEnded(t: Template, now: real)
    requires t.timescale > 0 && t.duration > 0
    ensures (forall e <- LiveEntries(t, now) :: EndedBy(e, now))
            <==> SegmentCount(t) == 0 || SegmentCount(t) <= Elapsed(t, now)
  {
    hide SegmentSeconds, EndedBy, Elapsed, SegmentCount;
    var es, n, first := LiveEntries(t, now), SegmentCount(t), Earliest(t, now);
    forall k | 0 <= k < n ensures EndedBy(es[k], now) <==> first + k + 1 - t.startNumber <= Elapsed(t, now) {
      EndsBy(t, first + k, now);
    }
    if n > 0 {
      assert es[n - 1] in es;
    }
  }

  lemma EndsBy(t: Template, n: nat, now: real)
    requires t.timescale > 0 && t.duration > 0 && n >= t.startNumber
    ensures EndedBy(LiveEntry(t, n), now) <==> n + 1 - t.startNumber <= Elapsed(t, now)
  {
    var d, k := SegmentSeconds(t), n - t.startNumber;
    var q := (now - t.availability) / d;
    assert k as real * d + d == (k + 1) as real * d;
    DivOrder(now - t.availability, (k + 1) as real, d);
    assert (k + 1) as real <= q <==> k + 1 <= q.Floor;
  }

  // ----- Segments -----

  datatype Segment = Segment(number: nat, extinf: real, time: Option<nat>, duration: Option<nat>,
                             startUnix: Option<real>)

  function AboveZero(n: nat): Option<nat> {
    if n > 0 then Some(n) else None
  }

  function EntryToSegment(e: TimelineEntry, timescale: nat): Segment {
    var extinf :=
      if e.startUnix.Some? && e.endUnix.Some? then e.endUnix.value - e.startUnix.value
      else e.duration as real / Max(timescale, 1) as real;
    Segment(e.number, extinf, AboveZero(e.time), AboveZero(e.duration), e.startUnix)
  }

  function LiveSegments(t: Template, now: real): (r: seq<Segment>)
    ensures |r| == |LiveEntries(t, now)|
  {
    var es := LiveEntries(t, now);
    seq(|es|, k requires 0 <= k < |es| => EntryToSegment(es[k], t.timescale))
  }

  lemma LiveSegmentAt(t: Template, now: real, k: nat)
    requires k < |LiveEntries(t, now)|
    ensures t.timescale > 0 && t.duration > 0
    ensures LiveSegments(t, now)[k] == EntryToSegment(LiveEntry(t, Earliest(t, now) + k), t.timescale)
    ensures LiveSegments(t, now)[k].extinf == SegmentSeconds(t)
  {
  }

  /** Where a listed segment stands: its number counts durations from the first one of the stream, in wall-clock time
      from when that became available, and in decode time from the offset; only the decode time zero is not given. */
  lemma SegmentOfWindow(t: Template, now: real, k: nat)
    requires k < |LiveSegments(t, now)|
    ensures t.timescale > 0 && t.duration > 0
    ensures var s := LiveSegments(t, now)[k];
            var gone := s.number - t.startNumber;
            && s.number == LiveSegments(t, now)[0].number + k && gone >= 0 && s.duration == Some(t.duration)
            && s.extinf * t.timescale as real == t.duration as real
            && s.startUnix.Some?
            && (s.startUnix.value - t.availability) * t.timescale as real == (gone * t.duration) as real
            && s.time == if gone == 0 && t.offset == 0 then None else Some(t.offset + gone * t.duration)
  {
    hide Earliest, SegmentSeconds, LiveSegments;
    LiveSegmentAt(t, now, k);
    LiveSegmentAt(t, now, 0);
    var gone, d := Earliest(t, now) + k - t.startNumber, SegmentSeconds(t);
    Seconds(t);
    Scaled(gone, d, t.timescale, t.duration);
    assert gone > 0 ==> gone * t.duration > 0;
  }

  lemma Seconds(t: Template)
    requires t.timescale > 0
    ensures SegmentSeconds(t) * t.timescale as real == t.duration as real
  {
  }

  lemma Scaled(gone: nat, d: real, timescale: nat, duration: nat)
    requires d * timescale as real == duration as real
    ensures gone as real * d * timescale as real == (gone * duration) as real
  {
    assert gone as real * d * timescale as real == gone as real * (d * timescale as real);
  }

  // ----- The median -----

  function ByKey<T>(key: T -> real): (T, T) -> bool {
    (a: T, b: T) => key(a) <= key(b)
  }

  lemma KeysOrder<T(!new)>(key: T -> real)
    ensures Orders(ByKey(key))
  {
  }

  /** The element in the middle of the sorted list; of two middle elements the upper one. */
  function Median<T(!new)>(key: T -> real, s: seq<T>): (m: T)
    requires s != []
    ensures m in s
  {
    KeysOrder(key);
    SortSorts(ByKey(key), s);
    var sorted := Sort(ByKey(key), s);
    assert sorted[|s| / 2] in multiset(sorted);
    sorted[|s| / 2]
  }

  /** The sorted list holds the same elements, half of them not above the median and at least as many not below it. The
      source calls it the lower median; that is the same value if and only if the length is odd or the two middle keys
      are equal. */
  lemma UpperMedian<T(!new)>(key: T -> real, s: seq<T>)
    requires s != []
    ensures var t, m := Sort(ByKey(key), s), Median(key, s);
            && |t| == |s| && multiset(t) == multiset(s)
            && (forall i :: 0 <= i < |s| / 2 ==> key(t[i]) <= key(m))
            && (forall i :: |s| / 2 <= i < |s| ==> key(m) <= key(t[i]))
            && (key(t[(|s| - 1) / 2]) == key(m) <==> |s| % 2 == 1 || key(t[|s| / 2 - 1]) == key(t[|s| / 2]))
  {
    hide Orders, Sort;
    KeysOrder(key);
    SortSorts(ByKey(key), s);
    SortedKeys(key, Sort(ByKey(key), s));
    if |s| % 2 == 0 {
      assert (|s| - 1) / 2 == |s| / 2 - 1;
    }
  }

  lemma SortedKeys<T(!new)>(key: T -> real, t: seq<T>)
    requires Sorted(ByKey(key), t)
    ensures forall i, j :: 0 <= i <= j < |t| ==> key(t[i]) <= key(t[j])
  {
    forall i, j | 0 <= i < j < |t| ensures key(t[i]) <= key(t[j]) {
      assert ByKey(key)(t[i], t[j]);
    }
  }

  function Durations(segments: seq<Segment>): (r: seq<nat>) {
    if segments == [] then []
    else
      (if segments[0].duration.Some? && segments[0].duration.value > 0 then [segments[0].duration.value] else [])
      + Durations(segments[1..])
  }

  function NominalDuration(segments: seq<Segment>): Option<nat> {
    var ds := Durations(segments);
    if ds == [] then None else Some(Median((n: nat) => n as real, ds))
  }

  /** The nominal duration is the one in the middle when the known durations are put in order, the upper of two, and is
      not known if none of them is. */
  lemma NominalIsMiddle(segments: seq<Segment>, ordered: seq<nat>)
    requires multiset(ordered) == multiset(Durations(segments))
    requires forall i, j :: 0 <= i < j < |ordered| ==> ordered[i] <= ordered[j]
    ensures NominalDuration(segments) == if ordered == [] then None else Some(ordered[|ordered| / 2])
  {
    hide Sort, Orders, Durations;
    var ds, key := Durations(segments), (n: nat) => n as real;
    assert |multiset(ds)| == |ds| && |multiset(ordered)| == |ordered|;
    if ds != [] {
      KeysOrder(key);
      SortSorts(ByKey(key), ds);
      SortedUnique(ByKey(key), Sort(ByKey(key), ds), ordered);
    }
  }

  lemma {:induction false} EqualDurations(segments: seq<Segment>, d: nat)
    requires forall s <- segments :: s.duration == Some(d)
    requires d > 0
    ensures |Durations(segments)| == |segments| && forall x <- Durations(segments) :: x == d
  {
    if segments != [] {
      assert segments[0] in segments;
      EqualDurations(segments[1..], d);
    }
  }

  // ----- A reload -----

  function LiveMediaSequence(first: Segment, explicitStart: bool, nominal: Option<nat>): nat {
    if explicitStart then Max(first.number, 1)
    else if first.time.Some? && nominal.Some? && nominal.value > 0 then Max(first.time.value / nominal.value, 1)
    else Max(first.number, 1)
  }

  /** How many segments a live playlist keeps. */
  function PlaylistDepth(isTs: bool, startOffset: Option<real>, configured: nat, extinfs: seq<real>): (depth: nat)
    ensures depth >= 1 && depth >= configured
    ensures startOffset.Some? && startOffset.value < 0.0 && extinfs != [] ==>
              -startOffset.value <= (depth - if isTs then 10 else 12) as real * SegmentLength(extinfs)
  {
    var depth := Max(configured, if isTs then 20 else 15);
    if startOffset.None? || startOffset.value >= 0.0 then depth
    else
      var length := SegmentLength(extinfs);
      var behind := ToUnsigned(Ceil(-startOffset.value / length) as real);
      var safety := if isTs then 10 else 12;
      var kept := Max(depth, behind + safety);
      DivOrder(-startOffset.value, (kept - safety) as real, length);
      kept
  }

  /** It is the smallest such number that is not below 15, or 20 for transport streams. */
  lemma DepthSmallest(isTs: bool, startOffset: Option<real>, configured: nat, extinfs: seq<real>, depth: nat)
    requires depth >= configured && depth >= if isTs then 20 else 15
    requires startOffset.Some? && startOffset.value < 0.0 ==>
               var kept := depth - if isTs then 10 else 12;
               kept >= 0 && -startOffset.value <= kept as real * SegmentLength(extinfs)
    ensures PlaylistDepth(isTs, startOffset, configured, extinfs) <= depth
    ensures PlaylistDepth(isTs, startOffset, configured, extinfs) >= if isTs then 20 else 15
  {
    hide SegmentLength;
    if startOffset.Some? && startOffset.value < 0.0 {
      var kept := depth - if isTs then 10 else 12;
      DivOrder(-startOffset.value, kept as real, SegmentLength(extinfs));
    }
  }

  /** The length segments are taken to have: the upper median, at least a tenth of a second, or 4 seconds if unknown. */
  lemma LengthTaken(extinfs: seq<real>)
    ensures extinfs == [] ==> SegmentLength(extinfs) == 4.0
    ensures extinfs != [] ==>
              var m := Median((x: real) => x, extinfs);
              SegmentLength(extinfs) == m || (m < 0.1 && SegmentLength(extinfs) == 0.1)
    ensures extinfs != [] ==> SegmentLength(extinfs) >= 0.1
  {
    hide Median;
  }

  function SegmentLength(extinfs: seq<real>): (d: real)
    ensures d > 0.0
  {
    if extinfs == [] then 4.0
    else
      var m := Median((x: real) => x, extinfs);
      if m < 0.1 then 0.1 else m
  }

  function Extinfs(segments: seq<Segment>): seq<real> {
    if segments == [] then []
    else (if segments[0].extinf > 0.0 then [segments[0].extinf] else []) + Extinfs(segments[1..])
  }

  /** Where the segments of length `x` stand. */
  function PlacesOf(segments: seq<Segment>, x: real): set<nat> {
    set i: nat | i < |segments| && segments[i].extinf == x
  }

  lemma {:induction false} ExtinfsMore(segments: seq<Segment>, last: Segment)
    ensures Extinfs(segments + [last]) == Extinfs(segments) + if last.extinf > 0.0 then [last.extinf] else []
  {
    if segments == [] {
      assert [] + [last] == [last] && [last][1..] == [];
    } else {
      ExtinfsMore(segments[1..], last);
      assert (segments + [last])[1..] == segments[1..] + [last];
    }
  }

  lemma NothingListed(x: real)
    ensures Extinfs([]) == [] && PlacesOf([], x) == {}
  {
  }

  lemma PlacesMore(front: seq<Segment>, last: Segment, x: real)
    ensures |PlacesOf(front + [last], x)| == |PlacesOf(front, x)| + if last.extinf == x then 1 else 0
  {
    var all, before := PlacesOf(front + [last], x), PlacesOf(front, x);
    assert all - {|front|} == before;
  }

  /** The lengths that count are the positive ones, each as often as it occurs. */
  lemma {:induction false} LengthsCounted(segments: seq<Segment>, x: real)
    ensures multiset(Extinfs(segments))[x] == if x > 0.0 then |PlacesOf(segments, x)| else 0
    decreases |segments|
  {
    hide Extinfs, PlacesOf;
    if segments == [] {
      NothingListed(x);
    } else {
      var n := |segments| - 1;
      var front, last := segments[..n], segments[n];
      assert segments == front + [last];
      LengthsCounted(front, x);
      ExtinfsMore(front, last);
      PlacesMore(front, last, x);
    }
  }

  /** What stays the same over the reloads of one playlist: the output form and the player's settings. */
  datatype Settings = Settings(isTs: bool, startOffset: Option<real>, configuredDepth: nat)

  datatype Reload = Reload(sequence: nat, segments: seq<Segment>)

  function TrimIndex(s: Settings, segments: seq<Segment>): nat {
    var startOffset := if s.startOffset.Some? then s.startOffset else Some(-30.0);
    SatSub(|segments|, PlaylistDepth(s.isTs, startOffset, s.configuredDepth, Extinfs(segments)))
  }

  /** A live playlist at one clock value; one without segments has no media sequence. */
  function LivePlaylist(t: Template, s: Settings, now: real): (r: Option<Reload>)
    ensures r.Some? ==> t.timescale > 0 && t.duration > 0 && r.value.segments != []
  {
    var segments := LiveSegments(t, now);
    if segments == [] then None
    else
      var trimmed := segments[TrimIndex(s, segments)..];
      Some(Reload(LiveMediaSequence(trimmed[0], t.explicitStart, NominalDuration(segments)), trimmed))
  }

  // ----- Over reloads -----

  /** The number of the first segment of a playlist. */
  function FirstNumber(t: Template, s: Settings, now: real): (n: nat)
    requires t.timescale > 0 && t.duration > 0
    ensures n >= t.startNumber
  {
    Earliest(t, now) + TrimIndex(s, LiveSegments(t, now))
  }

  lemma {:induction false} EqualExtinfs(a: seq<Segment>, b: seq<Segment>)
    requires |a| == |b| && forall k :: 0 <= k < |a| ==> a[k].extinf == b[k].extinf
    ensures Extinfs(a) == Extinfs(b)
  {
    if a != [] {
      EqualExtinfs(a[1..], b[1..]);
    }
  }

  /** The same number of segments is trimmed at every reload. */
  lemma TrimConstant(t: Template, s: Settings, now: real, later: real)
    ensures TrimIndex(s, LiveSegments(t, now)) == TrimIndex(s, LiveSegments(t, later))
  {
    hide PlaylistDepth, LiveEntry;
    var a, b := LiveSegments(t, now), LiveSegments(t, later);
    forall k | 0 <= k < |a| ensures a[k].extinf == b[k].extinf {
      LiveSegmentAt(t, now, k);
      LiveSegmentAt(t, later, k);
    }
    EqualExtinfs(a, b);
  }

  lemma ListedAt(t: Template, s: Settings, now: real, k: nat)
    requires LivePlaylist(t, s, now).Some? && k < |LivePlaylist(t, s, now).value.segments|
    ensures LivePlaylist(t, s, now).value.segments[k]
            == EntryToSegment(LiveEntry(t, FirstNumber(t, s, now) + k), t.timescale)
  {
    hide TrimIndex, LiveEntry, EntryToSegment, LiveEntries, LiveMediaSequence, NominalDuration, Earliest;
    TrimInside(s, LiveSegments(t, now));
    LiveSegmentAt(t, now, TrimIndex(s, LiveSegments(t, now)) + k);
  }

  lemma TrimInside(s: Settings, segments: seq<Segment>)
    ensures segments != [] ==> TrimIndex(s, segments) < |segments|
  {
    hide PlaylistDepth;
  }

  lemma NominalIsDuration(t: Template, now: real)
    requires LiveSegments(t, now) != []
    ensures NominalDuration(LiveSegments(t, now)) == Some(t.duration)
  {
    var segments := LiveSegments(t, now);
    forall x <- segments ensures x.duration == Some(t.duration) {
      var k :| 0 <= k < |segments| && segments[k] == x;
      LiveSegmentAt(t, now, k);
    }
    LiveSegmentAt(t, now, 0);
    EqualDurations(segments, t.duration);
  }

  lemma PlaylistLength(t: Template, s: Settings, now: real)
    requires t.timescale > 0 && t.duration > 0
    ensures |LiveSegments(t, now)| == SegmentCount(t)
    ensures LivePlaylist(t, s, now).Some? <==> SegmentCount(t) > 0
    ensures LivePlaylist(t, s, now).Some? ==>
              |LivePlaylist(t, s, now).value.segments| == SegmentCount(t) - TrimIndex(s, LiveSegments(t, now))
  {
    hide TrimIndex, LiveSegments, SegmentCount, LiveMediaSequence, NominalDuration;
    TrimInside(s, LiveSegments(t, now));
  }

  /** Where the first segment of a playlist stands on the media timeline. */
  function FirstTime(t: Template, s: Settings, now: real): nat
    requires t.timescale > 0 && t.duration > 0
  {
    Time(t, FirstNumber(t, s, now))
  }

  /** Has the playlist moved past the start of the stream? A caller can read this off the first segment. */
  predicate Settled(t: Template, s: Settings, now: real)
    requires t.timescale > 0 && t.duration > 0
  {
    if t.explicitStart then FirstNumber(t, s, now) >= 1 else FirstTime(t, s, now) >= t.duration
  }

  /** What is added to a segment's own number to get its number in the playlist. */
  function Shift(t: Template, settled: bool): int
    requires t.duration > 0
  {
    if t.explicitStart then if settled then 0 else 1
    else if settled then t.offset / t.duration - 1 else 0
  }

  lemma WholeSteps(p: nat, k: nat, d: nat)
    requires d > 0
    ensures (p + k * d) / d == p / d + k
  {
    ModUnique(p + k * d, d, p / d + k, p % d) by {
      assert d * (p / d + k) == d * (p / d) + k * d;
    }
  }

  /** The media sequence is the first segment's number plus a shift that depends only on whether the stream has settled.
      */
  lemma SequenceIsShifted(t: Template, s: Settings, now: real)
    requires ValidTemplate(t) && LivePlaylist(t, s, now).Some?
    ensures LivePlaylist(t, s, now).value.sequence == FirstNumber(t, s, now) + Shift(t, Settled(t, s, now))
  {
    hide TrimIndex, Time, LiveSegments, FirstNumber, LiveMediaSequence;
    ListedAt(t, s, now, 0);
    NominalIsDuration(t, now);
    SequenceOf(t, FirstNumber(t, s, now));
  }

  lemma SequenceOf(t: Template, n: nat)
    requires ValidTemplate(t) && t.timescale > 0 && t.duration > 0 && n >= t.startNumber
    ensures LiveMediaSequence(EntryToSegment(LiveEntry(t, n), t.timescale), t.explicitStart, Some(t.duration))
            == n + Shift(t, if t.explicitStart then n >= 1 else Time(t, n) >= t.duration)
  {
    if !t.explicitStart {
      WholeSteps(t.offset, n - 1, t.duration);
      if n > 1 {
        MulAtLeast(t.duration, n - 1);
      }
    }
  }

  lemma SettledGrows(t: Template, s: Settings, now: real, later: real)
    requires t.timescale > 0 && t.duration > 0 && now <= later
    ensures FirstNumber(t, s, now) <= FirstNumber(t, s, later)
    ensures Settled(t, s, now) ==> Settled(t, s, later)
  {
    hide Elapsed, SegmentCount, TrimIndex, LiveSegments, Earliest;
    ElapsedGrows(t, now, later);
    TrimConstant(t, s, now, later);
    var a, b := FirstNumber(t, s, now) - t.startNumber, FirstNumber(t, s, later) - t.startNumber;
    assert b * t.duration == a * t.duration + (b - a) * t.duration;
  }

  /** The media sequence never decreases over any run of reloads with a clock that does not go back. */
  lemma SequenceNeverDecreases(t: Template, s: Settings, clocks: seq<real>, i: nat, j: nat)
    requires ValidTemplate(t) && i <= j < |clocks|
    requires forall a, b :: 0 <= a <= b < |clocks| ==> clocks[a] <= clocks[b]
    ensures LivePlaylist(t, s, clocks[i]).Some? <==> LivePlaylist(t, s, clocks[j]).Some?
    ensures LivePlaylist(t, s, clocks[i]).Some? ==>
              LivePlaylist(t, s, clocks[i]).value.sequence <= LivePlaylist(t, s, clocks[j]).value.sequence
  {
    hide TrimIndex, NominalDuration, Settled, FirstNumber, LiveMediaSequence;
    if LivePlaylist(t, s, clocks[i]).Some? {
      SequenceIsShifted(t, s, clocks[i]);
      SequenceIsShifted(t, s, clocks[j]);
      SettledGrows(t, s, clocks[i], clocks[j]);
      SettlingStep(t, s, clocks[i], clocks[j]);
    }
  }

  lemma SettlingStep(t: Template, s: Settings, now: real, later: real)
    requires ValidTemplate(t) && t.timescale > 0 && t.duration > 0
    requires FirstNumber(t, s, now) <= FirstNumber(t, s, later)
    requires Settled(t, s, now) ==> Settled(t, s, later)
    ensures FirstNumber(t, s, now) + Shift(t, Settled(t, s, now))
            <= FirstNumber(t, s, later) + Shift(t, Settled(t, s, later))
  {
    hide FirstNumber;
    assert t.offset / t.duration >= 0;
  }

  /** A segment listed by two reloads is described the same way in both, and has the same number in both playlists
      exactly when both or neither have settled. */
  lemma SameNumberInEveryReload(t: Template, s: Settings, now: real, later: real, n: nat)
    requires ValidTemplate(t) && LivePlaylist(t, s, now).Some? && LivePlaylist(t, s, later).Some?
    requires t.timescale > 0 && t.duration > 0
    requires 0 <= n - FirstNumber(t, s, now) < |LivePlaylist(t, s, now).value.segments|
    requires 0 <= n - FirstNumber(t, s, later) < |LivePlaylist(t, s, later).value.segments|
    ensures var a, b := LivePlaylist(t, s, now).value, LivePlaylist(t, s, later).value;
            var i, j := n - FirstNumber(t, s, now), n - FirstNumber(t, s, later);
            && a.segments[i] == b.segments[j] && a.segments[i].number == n
            && (a.sequence + i == b.sequence + j <==> Settled(t, s, now) == Settled(t, s, later))
  {
    hide LivePlaylist, FirstNumber;
    SequenceIsShifted(t, s, now);
    SequenceIsShifted(t, s, later);
    ListedAt(t, s, now, n - FirstNumber(t, s, now));
    ListedAt(t, s, later, n - FirstNumber(t, s, later));
    if !t.explicitStart && t.offset >= t.duration {
      SettledFromTheStart(t, s, now);
      SettledFromTheStart(t, s, later);
    }
    OffsetSteps(t);
  }

  lemma OffsetSteps(t: Template)
    requires t.duration > 0
    ensures t.offset / t.duration >= 1 <==> t.offset >= t.duration
  {
  }

  lemma SettledFromTheStart(t: Template, s: Settings, now: real)
    requires ValidTemplate(t) && t.timescale > 0 && t.duration > 0
    requires if t.explicitStart then t.startNumber >= 1 else t.offset >= t.duration
    ensures Settled(t, s, now)
  {
    hide FirstNumber;
  }

  /** An explicit start number of at least 1 is carried into the playlist unchanged. */
  lemma ExplicitNumbersKept(t: Template, s: Settings, now: real)
    requires t.explicitStart && t.startNumber >= 1 && LivePlaylist(t, s, now).Some?
    ensures LivePlaylist(t, s, now).value.sequence == LivePlaylist(t, s, now).value.segments[0].number
  {
    hide TrimIndex, NominalDuration;
    SequenceIsShifted(t, s, now);
    ListedAt(t, s, now, 0);
  }

  // ----- A renumbered segment -----

  /** A stream without `@startNumber`, two-second segments and a four-second buffer. */
  const EARLY := Template(0.0, 4.0, false, 1, 2, 1, 0)
  const PLAYER := Settings(false, None, 0)

  /** At the start of the stream, segment 2 is number 2 in one reload and number 1 in the next. */
  lemma EarlyReloadRenumbers()
    ensures var a := LivePlaylist(EARLY, PLAYER, 0.0);
            a.Some? && a.value.sequence == 1 && |a.value.segments| == 2 && a.value.segments[1].number == 2
    ensures var b := LivePlaylist(EARLY, PLAYER, 6.0);
            b.Some? && b.value.sequence == 1 && b.value.segments[0].number == 2
  {
    hide LivePlaylist;
    EarlyReload(EARLY, PLAYER, 0.0, 1);
    EarlyReload(EARLY, PLAYER, 6.0, 0);
  }

  lemma EarlyReload(t: Template, s: Settings, now: real, k: nat)
    requires t == EARLY && s == PLAYER
    requires (now == 0.0 && k == 1) || (now == 6.0 && k == 0)
    ensures var a := LivePlaylist(t, s, now);
            a.Some? && a.value.sequence == 1 && |a.value.segments| == 2 && a.value.segments[k].number == 2
  {
    hide LivePlaylist, FirstNumber, SegmentSeconds, Settled, Earliest, TrimIndex, LiveSegments, Time;
    EarlyWindow(t, s, now);
    EarlySettled(t, s, now);
    SequenceIsShifted(t, s, now);
    ListedAt(t, s, now, k);
  }

  lemma EarlyWindow(t: Template, s: Settings, now: real)
    requires t == EARLY && s == PLAYER
    requires now == 0.0 || now == 6.0
    ensures LivePlaylist(t, s, now).Some? && |LivePlaylist(t, s, now).value.segments| == 2
    ensures FirstNumber(t, s, now) == if now == 0.0 then 1 else 2
  {
    hide LivePlaylist, LiveSegments, SegmentCount, Elapsed, PlaylistDepth;
    EarlyCounts(t, now);
    PlaylistLength(t, s, now);
    DepthFloor(s.isTs, Some(-30.0), s.configuredDepth, Extinfs(LiveSegments(t, now)));
  }

  lemma EarlySettled(t: Template, s: Settings, now: real)
    requires t == EARLY && FirstNumber(t, s, now) == if now == 0.0 then 1 else 2
    ensures Settled(t, s, now) == (now != 0.0)
  {
    hide FirstNumber;
  }

  lemma DepthFloor(isTs: bool, startOffset: Option<real>, configured: nat, extinfs: seq<real>)
    ensures PlaylistDepth(isTs, startOffset, configured, extinfs) >= 15
  {
    hide Median;
  }

  lemma EarlyCounts(t: Template, now: real)
    requires t == EARLY
    requires now == 0.0 || now == 6.0
    ensures SegmentCount(t) == 2 && Elapsed(t, now) == if now == 0.0 then 0 else 3
  {
    assert SegmentSeconds(t) == 2.0;
  }

  // ----- Timelines with segments of different lengths -----

  /** In a live timeline the sequence is the first segment's time over the median duration of what is listed. It never
      decreases from a reload with median `m` to a later one with median `n`, wherever the two begin, if and only if the
      median does not grow. */
  lemma TimelineSequenceExactly(m: nat, n: nat)
    requires m > 0 && n > 0
    ensures (forall f: Segment, g: Segment | f.time.Some? && g.time.Some? && f.time.value <= g.time.value ::
               LiveMediaSequence(f, false, Some(m)) <= LiveMediaSequence(g, false, Some(n)))
            <==> n <= m
  {
    if n <= m {
      forall f: Segment, g: Segment | f.time.Some? && g.time.Some? && f.time.value <= g.time.value
        ensures LiveMediaSequence(f, false, Some(m)) <= LiveMediaSequence(g, false, Some(n))
      {
        SmallerSteps(f.time.value, g.time.value, m, n);
      }
    } else {
      var t := 2 * (m * n);
      var f := Segment(1, 0.0, Some(t), None, None);
      assert t / m == 2 * n by {
        ModUnique(t, m, 2 * n, 0);
      }
      assert t / n == 2 * m by {
        ModUnique(t, n, 2 * m, 0);
      }
      assert LiveMediaSequence(f, false, Some(m)) > LiveMediaSequence(f, false, Some(n));
    }
  }

  lemma SmallerSteps(t: nat, u: nat, m: nat, n: nat)
    requires t <= u && 0 < n <= m
    ensures t / m <= u / n
  {
    var a, b := t / m, u / n;
    assert u < n * (b + 1) && m * a <= t;
    if a > b {
      MulOrder(n, b + 1, a);
      MulOrder(a, n, m);
    }
  }

  lemma MulOrder(k: nat, x: nat, y: nat)
    requires x <= y
    ensures k * x <= k * y
  {
  }

  /** Segment `number` of a timeline at a timescale of 1. */
  function OneOf(number: nat, time: nat, duration: nat): Segment {
    Segment(number, duration as real, Some(time), Some(duration), None)
  }

  /** Two reloads of a stream whose segments get longer: the sequence goes back from 10 to 6. */
  lemma TimelineGoesBack()
    ensures var a, b := [OneOf(1, 20, 2), OneOf(2, 22, 2)], [OneOf(3, 24, 4), OneOf(4, 28, 4)];
            && LiveMediaSequence(a[0], false, NominalDuration(a)) == 10
            && LiveMediaSequence(b[0], false, NominalDuration(b)) == 6
  {
    hide Median;
    var a, b := [OneOf(1, 20, 2), OneOf(2, 22, 2)], [OneOf(3, 24, 4), OneOf(4, 28, 4)];
    EqualDurations(a, 2);
    EqualDurations(b, 4);
    assert NominalDuration(a).value in Durations(a) && NominalDuration(b).value in Durations(b);
  }
}
