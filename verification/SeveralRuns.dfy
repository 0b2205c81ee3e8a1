/** Where the decrypter looks for the samples of a track fragment with several runs (src/drm/cenc.rs:438-515 and
    745-802). */
module SeveralRuns {
  import opened Bytes
  import opened Mp4Atom
  import opened SampleTables
  import opened DecrypterState
  import opened Fragment
  import opened MediaData

  /** The runs of a track fragment, in order. */
  function Runs(boxes: seq<Atom>): seq<TrunRead> {
    if boxes == [] then []
    else
      (if boxes[0].atomType == TRUN && ReadTrun(boxes[0].data).Some? then [ReadTrun(boxes[0].data).value] else [])
      + Runs(boxes[1..])
  }

  predicate RunsReadable(boxes: seq<Atom>) {
    forall b <- boxes :: b.atomType == TRUN ==> ReadTrun(b.data).Some?
  }

  /** The track gets offset and sizes of the last run, whatever the runs before it say. */
  lemma {:induction false} ScanLastRun(scan: TrafScan, boxes: seq<Atom>)
    requires RunsReadable(boxes)
    ensures var after, runs := ScanTraf(scan, boxes), Runs(boxes);
            && after.dataOffset == (if runs == [] then scan.dataOffset else runs[|runs| - 1].dataOffset)
            && after.st.trunSampleSizes == (if runs == [] then scan.st.trunSampleSizes else runs[|runs| - 1].sizes)
    decreases |boxes|
  {
    hide ReadTrun, ReadSenc, VectorSource;
    if boxes != [] {
      assert boxes[0] in boxes;
      ScanLastRun(ScanBox(scan, boxes[0]), boxes[1..]);
    }
  }

  // ----- Where the samples really are -----

  /** The size of a sample a run gives no size for. */
  function SizeIn(run: TrunRead, default: nat, i: nat): nat
    requires i < |run.sizes|
  {
    if run.sizes[i] > 0 then run.sizes[i] else default
  }

  function Before(run: TrunRead, default: nat, i: nat): nat
    requires i <= |run.sizes|
  {
    if i == 0 then 0 else Before(run, default, i - 1) + SizeIn(run, default, i - 1)
  }

  function Total(runs: seq<TrunRead>): nat {
    if runs == [] then 0 else |runs[0].sizes| + Total(runs[1..])
  }

  /** The offset of sample number `m`, counted through all runs: runs stand where their offsets say. */
  function OffsetOf(runs: seq<TrunRead>, default: nat, m: nat): int
    requires m < Total(runs)
  {
    var run := runs[0];
    if m < |run.sizes| then run.dataOffset + Before(run, default, m) else OffsetOf(runs[1..], default, m - |run.sizes|)
  }

  /** Every run has samples, and every sample has a size. */
  predicate Sized(runs: seq<TrunRead>, default: nat) {
    forall r <- runs :: |r.sizes| > 0 && forall i :: 0 <= i < |r.sizes| ==> SizeIn(r, default, i) > 0
  }

  lemma {:induction false} LastRunStarts(runs: seq<TrunRead>, default: nat)
    requires runs != [] && Sized(runs, default)
    ensures var m := Total(runs) - |runs[|runs| - 1].sizes|;
            && 0 <= m < Total(runs) && OffsetOf(runs, default, m) == runs[|runs| - 1].dataOffset
            && (|runs| > 1 ==> m > 0)
    decreases |runs|
  {
    if |runs| > 1 {
      var rest := runs[1..];
      assert rest[|rest| - 1] == runs[|runs| - 1] && forall r <- rest :: r in runs;
      LastRunStarts(rest, default);
    } else {
      assert runs[1..] == [] && Total(runs[1..]) == 0;
    }
  }

  lemma {:induction false} SoleRunSums(track: TrackInfo, run: TrunRead, i: nat)
    requires track.sampleSizes == run.sizes && i <= |run.sizes|
    ensures SizesBefore(track, i) == Before(run, track.defaultSampleSize, i)
  {
    if i > 0 {
      SoleRunSums(track, run, i - 1);
    }
  }

  /** A track as the decrypter learns it from a track fragment with these runs. */
  predicate FromRuns(track: TrackInfo, runs: seq<TrunRead>) {
    && runs != [] && track.dataOffset == runs[|runs| - 1].dataOffset && track.sampleSizes == runs[|runs| - 1].sizes
    && Sized(runs, track.defaultSampleSize)
  }

  /** Sample entries are counted through all runs, but sizes and place are taken from the last one: every sample is
      looked for in its place if and only if there is one run. */
  lemma RunsExactly(track: TrackInfo, runs: seq<TrunRead>, first: int, payload: int)
    requires FromRuns(track, runs) && StartOf(track, first) == track.dataOffset - payload
    ensures (forall m :: 0 <= m < Total(runs) ==>
               SampleAt(track, first, m).pos == OffsetOf(runs, track.defaultSampleSize, m) - payload)
            <==> |runs| == 1
    ensures SampleAt(track, first, 0).pos == runs[|runs| - 1].dataOffset - payload
  {
    hide StartOf, OffsetOf, SizeOf;
    var d, last := track.defaultSampleSize, runs[|runs| - 1];
    if |runs| == 1 {
      forall m | 0 <= m < Total(runs) ensures SampleAt(track, first, m).pos == OffsetOf(runs, d, m) - payload {
        OneRun(runs, d, m);
        SoleRunSums(track, last, m);
      }
    } else {
      LastRunStarts(runs, d);
      var m := Total(runs) - |last.sizes|;
      FirstSized(track, runs);
      SizesGrow(track, 1, m);
      assert SampleAt(track, first, m).pos > OffsetOf(runs, d, m) - payload;
    }
  }

  lemma OneRun(runs: seq<TrunRead>, default: nat, m: nat)
    requires |runs| == 1 && m < Total(runs)
    ensures m < |runs[0].sizes| && OffsetOf(runs, default, m) == runs[0].dataOffset + Before(runs[0], default, m)
  {
    assert Total(runs[1..]) == 0;
  }

  lemma FirstSized(track: TrackInfo, runs: seq<TrunRead>)
    requires FromRuns(track, runs)
    ensures SizesBefore(track, 1) > 0
  {
    var last := runs[|runs| - 1];
    assert last in runs;
    assert SizeIn(last, track.defaultSampleSize, 0) > 0;
    assert SizesBefore(track, 1) == SizesBefore(track, 0) + SizeOf(track, 0);
  }

  /** What a track fragment yields is such a track. */
  lemma TrackFromRuns(st: State, boxes: seq<Atom>)
    requires RunsReadable(boxes) && Runs(boxes) != []
    ensures var infos := AfterTraf(st, boxes).trackInfos;
            && infos != []
            && var track := infos[|infos| - 1];
               Sized(Runs(boxes), track.defaultSampleSize) ==> FromRuns(track, Runs(boxes))
  {
    hide ScanTraf, Runs, RunsReadable, Sized;
    ScanLastRun(TrafScan(st, 0, 0, [], 0), boxes);
  }

  /** Two runs of one sample each: the entry of the first is applied where the second sample stands, and the entry of
      the second behind it. */
  lemma TwoRuns(st: State, flags: uint32, a: TrunSample, b: TrunSample, o: int32, p: int32, first: int, payload: int)
    requires HasFlag(flags, 0x1) && HasFlag(flags, 0x200) && a.size > 0 && b.size > 0
    ensures var boxes := [Atom(TRUN, PackTrun(flags, o, 0, [a])), Atom(TRUN, PackTrun(flags, p, 0, [b]))];
            var infos := AfterTraf(st, boxes).trackInfos;
            && infos != []
            && var track := infos[|infos| - 1];
               && |Runs(boxes)| == 2 && FromRuns(track, Runs(boxes))
               && OffsetOf(Runs(boxes), track.defaultSampleSize, 0) == o
               && OffsetOf(Runs(boxes), track.defaultSampleSize, 1) == p
               && (StartOf(track, first) == p - payload ==>
                     && SampleAt(track, first, 0).pos == p - payload
                     && SampleAt(track, first, 1).pos == p + b.size - payload)
  {
    hide HasFlag, PackTrun, ReadTrun, AfterTraf, StartOf;
    var x, y := Atom(TRUN, PackTrun(flags, o, 0, [a])), Atom(TRUN, PackTrun(flags, p, 0, [b]));
    var boxes := [x, y];
    TrunRoundTrip(flags, o, 0, [a], []);
    TrunRoundTrip(flags, p, 0, [b], []);
    assert x.data + [] == x.data && y.data + [] == y.data;
    var r, s := TrunRead(1, o, SizesOf(flags, [a])), TrunRead(1, p, SizesOf(flags, [b]));
    BothRuns(boxes, r, s);
    TrackFromRuns(st, boxes);
  }

  lemma {:induction false} BothRuns(boxes: seq<Atom>, r: TrunRead, s: TrunRead)
    requires |boxes| == 2 && boxes[0].atomType == TRUN == boxes[1].atomType
    requires ReadTrun(boxes[0].data) == Some(r) && ReadTrun(boxes[1].data) == Some(s)
    ensures Runs(boxes) == [r, s] && RunsReadable(boxes)
  {
    assert boxes[1..][1..] == [] && Runs([]) == [];
    assert boxes[1..][0] == boxes[1];
    assert Runs(boxes[1..]) == [s] + [];
  }
}
