/** Segment lists spelled out by a `SegmentTimeline`, and those of a recorded presentation (src/mpd/timeline.rs:115-160
    and 211-238). */
module SegmentTimeline {
  import opened Bytes
  import opened LiveWindow

  /** An `<S>` element; without `@t` it starts where the one before it ends. */
  datatype SElement = SElement(start: Option<nat>, duration: nat, repeat: nat)

  /** What all segments of a period share. */
  datatype Period = Period(startUnix: real, offset: nat, timescale: nat)

  function EntryAt(p: Period, number: nat, time: nat, duration: nat): TimelineEntry
    requires p.timescale > 0
  {
    var start := p.startUnix + SatSub(time, p.offset) as real / p.timescale as real;
    TimelineEntry(number, time, duration, Some(start), Some(start + duration as real / p.timescale as real))
  }

  /** `n` segments of one length, one after the other. */
  function Run(p: Period, n: nat, number: nat, time: nat, duration: nat): seq<TimelineEntry>
    requires p.timescale > 0
  {
    if n == 0 then [] else [EntryAt(p, number, time, duration)] + Run(p, n - 1, number + 1, time + duration, duration)
  }

  function StartOf(e: SElement, current: nat): nat {
    if e.start.Some? then e.start.value else current
  }

  function EndOf(e: SElement, current: nat): nat {
    StartOf(e, current) + (e.repeat + 1) * e.duration
  }

  function Expand(p: Period, s: seq<SElement>, number: nat, current: nat): seq<TimelineEntry>
    requires p.timescale > 0
  {
    if s == [] then []
    else
      Run(p, s[0].repeat + 1, number, StartOf(s[0], current), s[0].duration)
      + Expand(p, s[1..], number + s[0].repeat + 1, EndOf(s[0], current))
  }

  lemma RunStep(p: Period, acc: seq<TimelineEntry>, n: nat, number: nat, time: nat, duration: nat,
                later: seq<TimelineEntry>)
    requires p.timescale > 0 && n > 0
    ensures acc + (Run(p, n, number, time, duration) + later)
            == (acc + [EntryAt(p, number, time, duration)])
              + (Run(p, n - 1, number + 1, time + duration, duration) + later)
  {
    hide EntryAt;
    var e, run := [EntryAt(p, number, time, duration)], Run(p, n - 1, number + 1, time + duration, duration);
    AppendAssoc(e, run, later);
    AppendAssoc(acc, e, run + later);
  }

  method PreprocessTimeline(p: Period, s: seq<SElement>, startNumber: nat) returns (entries: seq<TimelineEntry>)
    requires p.timescale > 0
    ensures entries == Expand(p, s, startNumber, 0)
  {
    hide EntryAt, Run;
    entries := [];
    var currentTime: nat, segmentNumber: nat := 0, startNumber;
    ghost var goal := Expand(p, s, startNumber, 0);
    assert s[0..] == s;
    assert entries + goal == goal;
    for i := 0 to |s|
      invariant entries + Expand(p, s[i..], segmentNumber, currentTime) == goal
    {
      assert s[i..][1..] == s[i + 1..];
      entries, segmentNumber, currentTime := RepeatElement(p, s[i], entries, segmentNumber, currentTime, s[i + 1..]);
    }
    assert s[|s|..] == [];
    assert entries + [] == entries;
  }

  /** The inner loop: one element, repeated. */
  method RepeatElement(p: Period, e: SElement, before: seq<TimelineEntry>, number: nat, current: nat,
                       ghost rest: seq<SElement>)
    returns (entries: seq<TimelineEntry>, nextNumber: nat, nextTime: nat)
    requires p.timescale > 0
    ensures nextNumber == number + e.repeat + 1 && nextTime == EndOf(e, current)
    ensures entries + Expand(p, rest, nextNumber, nextTime)
            == before + (Run(p, e.repeat + 1, number, StartOf(e, current), e.duration)
                         + Expand(p, rest, nextNumber, nextTime))
  {
    hide EntryAt, Run, Expand;
    var t := StartOf(e, current);
    entries, nextNumber := before, number;
    ghost var later := Expand(p, rest, number + e.repeat + 1, EndOf(e, current));
    ghost var goal := entries + (Run(p, e.repeat + 1, number, t, e.duration) + later);
    for k := 0 to e.repeat + 1
      invariant nextNumber == number + k && t == StartOf(e, current) + k * e.duration
      invariant entries + (Run(p, e.repeat + 1 - k, nextNumber, t, e.duration) + later) == goal
    {
      RunStep(p, entries, e.repeat + 1 - k, nextNumber, t, e.duration, later);
      assert (k + 1) * e.duration == k * e.duration + e.duration;
      entries := entries + [EntryAt(p, nextNumber, t, e.duration)];
      t := t + e.duration;
      nextNumber := nextNumber + 1;
    }
    RunEnds(p, nextNumber, t, e.duration);
    assert [] + later == later;
    nextTime := t;
  }

  lemma RunEnds(p: Period, number: nat, time: nat, duration: nat)
    requires p.timescale > 0
    ensures Run(p, 0, number, time, duration) == []
  {
  }

  // ----- What the list means -----

  function Total(s: seq<SElement>): nat {
    if s == [] then 0 else s[0].repeat + 1 + Total(s[1..])
  }

  lemma {:induction false} RunAt(p: Period, n: nat, number: nat, time: nat, duration: nat, k: nat)
    requires p.timescale > 0 && k < n
    ensures |Run(p, n, number, time, duration)| == n
    ensures Run(p, n, number, time, duration)[k] == EntryAt(p, number + k, time + k * duration, duration)
    decreases n
  {
    hide EntryAt;
    if k > 0 {
      RunAt(p, n - 1, number + 1, time + duration, duration, k - 1);
      assert (k - 1) * duration + duration == k * duration;
    } else if n > 1 {
      RunAt(p, n - 1, number + 1, time + duration, duration, 0);
    }
  }

  /** Every element contributes its repeats, numbers run without a break, and repeat `k` of element `i` starts `k`
      durations after that element's own start. */
  lemma {:induction false} TimelineAt(p: Period, s: seq<SElement>, number: nat, current: nat, i: nat, k: nat)
    requires p.timescale > 0 && i < |s| && k <= s[i].repeat
    ensures |Expand(p, s, number, current)| == Total(s) && Total(s[..i]) + k < Total(s)
    ensures Expand(p, s, number, current)[Total(s[..i]) + k]
            == EntryAt(p, number + Total(s[..i]) + k, ElementStart(s, current, i) + k * s[i].duration, s[i].duration)
    decreases |s|
  {
    hide EntryAt, Run;
    var head := Run(p, s[0].repeat + 1, number, StartOf(s[0], current), s[0].duration);
    var tail := Expand(p, s[1..], number + s[0].repeat + 1, EndOf(s[0], current));
    RunAt(p, s[0].repeat + 1, number, StartOf(s[0], current), s[0].duration, 0);
    TotalLength(p, s[1..], number + s[0].repeat + 1, EndOf(s[0], current));
    if i == 0 {
      RunAt(p, s[0].repeat + 1, number, StartOf(s[0], current), s[0].duration, k);
      assert s[..0] == [];
      assert (head + tail)[k] == head[k];
    } else {
      TimelineAt(p, s[1..], number + s[0].repeat + 1, EndOf(s[0], current), i - 1, k);
      assert s[..i][1..] == s[1..][..i - 1];
      assert Total(s[..i]) == s[0].repeat + 1 + Total(s[1..][..i - 1]);
      assert (head + tail)[Total(s[..i]) + k] == tail[Total(s[1..][..i - 1]) + k];
    }
  }

  lemma {:induction false} TotalLength(p: Period, s: seq<SElement>, number: nat, current: nat)
    requires p.timescale > 0
    ensures |Expand(p, s, number, current)| == Total(s)
    decreases |s|
  {
    hide Run;
    if s != [] {
      RunAt(p, s[0].repeat + 1, number, StartOf(s[0], current), s[0].duration, 0);
      TotalLength(p, s[1..], number + s[0].repeat + 1, EndOf(s[0], current));
    }
  }

  /** Where element `i` starts: at its own `@t`, or where the element before it ends. */
  function ElementStart(s: seq<SElement>, current: nat, i: nat): nat
    requires i < |s|
    decreases i
  {
    if i == 0 then StartOf(s[0], current) else ElementStart(s[1..], EndOf(s[0], current), i - 1)
  }

  lemma {:induction false} ElementsAbut(s: seq<SElement>, current: nat, i: nat)
    requires i + 1 < |s|
    ensures ElementStart(s, current, i + 1)
            == StartOf(s[i + 1], ElementStart(s, current, i) + (s[i].repeat + 1) * s[i].duration)
    decreases i
  {
    if i > 0 {
      ElementsAbut(s[1..], EndOf(s[0], current), i - 1);
    } else {
      assert s[1..][0] == s[1];
    }
  }

  /** From one segment to the next there is no gap and no overlap, except where an element names another start. */
  lemma SegmentsAbut(p: Period, s: seq<SElement>, number: nat, i: nat, k: nat)
    requires p.timescale > 0 && i < |s| && k <= s[i].repeat
    requires k == s[i].repeat ==> i + 1 < |s|
    ensures var es, at := Expand(p, s, number, 0), Total(s[..i]) + k;
            && at + 1 < |es| && es[at + 1].number == es[at].number + 1
            && (es[at + 1].time == es[at].time + es[at].duration
                <==> k < s[i].repeat || s[i + 1].start == None || s[i + 1].start == Some(es[at].time + es[at].duration))
  {
    hide Run, Expand;
    TimelineAt(p, s, number, 0, i, k);
    assert (k + 1) * s[i].duration == k * s[i].duration + s[i].duration;
    if k < s[i].repeat {
      TimelineAt(p, s, number, 0, i, k + 1);
    } else {
      TimelineAt(p, s, number, 0, i + 1, 0);
      TotalNext(s, i);
      ElementsAbut(s, 0, i);
    }
  }

  lemma {:induction false} TotalNext(s: seq<SElement>, i: nat)
    requires i < |s|
    ensures Total(s[..i + 1]) == Total(s[..i]) + s[i].repeat + 1
    decreases i
  {
    if i > 0 {
      TotalNext(s[1..], i - 1);
      assert s[..i + 1][1..] == s[1..][..i] && s[..i][1..] == s[1..][..i - 1];
    } else {
      assert s[..1][1..] == [] && s[..0] == [];
    }
  }

  lemma {:induction false} ElementOwnStart(s: seq<SElement>, current: nat, i: nat)
    requires i < |s|
    ensures s[i].start.Some? ==> ElementStart(s, current, i) == s[i].start.value
    ensures i == 0 && s[0].start == None ==> ElementStart(s, current, 0) == current
    decreases i
  {
    if i > 0 {
      ElementOwnStart(s[1..], EndOf(s[0], current), i - 1);
    }
  }

  /** What a playlist says of repeat `k` of element `i`: its length is the element's duration in seconds, and it starts
      as long after the period as its time lies behind the presentation offset. */
  lemma TimelineExtinf(p: Period, s: seq<SElement>, startNumber: nat, i: nat, k: nat)
    requires p.timescale > 0 && i < |s| && k <= s[i].repeat
    ensures var es, at, time := Expand(p, s, startNumber, 0), Total(s[..i]) + k, ElementStart(s, 0, i)
            + k * s[i].duration;
            && at < |es|
            && var segment := EntryToSegment(es[at], p.timescale);
               && segment.number == startNumber + at && segment.extinf * p.timescale as real == s[i].duration as real
               && segment.startUnix.Some?
               && (segment.startUnix.value - p.startUnix) * p.timescale as real
                  == (if time > p.offset then time - p.offset else 0) as real
  {
    hide Expand, Total, ElementStart;
    TimelineAt(p, s, startNumber, 0, i, k);
    var time := ElementStart(s, 0, i) + k * s[i].duration;
    EntrySeconds(p, startNumber + Total(s[..i]) + k, time, s[i].duration);
  }

  lemma EntrySeconds(p: Period, number: nat, time: nat, duration: nat)
    requires p.timescale > 0
    ensures var segment := EntryToSegment(EntryAt(p, number, time, duration), p.timescale);
            && segment.number == number && segment.extinf * p.timescale as real == duration as real
            && segment.startUnix.Some?
            && (segment.startUnix.value - p.startUnix) * p.timescale as real
               == (if time > p.offset then time - p.offset else 0) as real
  {
  }

  // ----- Recorded presentations -----

  function VodEntries(total: real, duration: nat, timescale: nat, startNumber: nat): seq<TimelineEntry> {
    if timescale == 0 || duration == 0 then []
    else
      seq(VodCount(total, duration, timescale),
          i requires 0 <= i => TimelineEntry(startNumber + i, 0, duration, None,
                                             Some(duration as real / timescale as real)))
  }

  function VodCount(total: real, duration: nat, timescale: nat): nat
    requires timescale > 0 && duration > 0
  {
    ToUnsigned(Ceil(total * timescale as real / duration as real) as real)
  }

  /** The segments cover the presentation, and without the last one they would not. */
  lemma VodCovers(total: real, duration: nat, timescale: nat, startNumber: nat)
    requires timescale > 0 && duration > 0 && total > 0.0
    ensures var n := |VodEntries(total, duration, timescale, startNumber)|;
            && n > 0
            && (n - 1) as real * duration as real < total * timescale as real <= n as real * duration as real
  {
    var n, ticks := VodCount(total, duration, timescale), total * timescale as real;
    assert ticks > 0.0;
    var q := ticks / duration as real;
    DivOrder(ticks, 0.0, duration as real);
    assert q > 0.0;
    assert n == Ceil(q) && (n - 1) as real < q <= n as real;
    DivOrder(ticks, n as real, duration as real);
    DivOrder(ticks, (n - 1) as real, duration as real);
  }

  /** Their length in the playlist is the duration in seconds, start time or not. */
  lemma VodExtinf(total: real, duration: nat, timescale: nat, startNumber: nat, i: nat)
    requires i < |VodEntries(total, duration, timescale, startNumber)|
    ensures var s := EntryToSegment(VodEntries(total, duration, timescale, startNumber)[i], timescale);
            s.number == startNumber + i && s.extinf * timescale as real == duration as real && s.time == None
  {
  }
}
