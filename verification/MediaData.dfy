/** Decrypting the samples of a media data box in place (src/drm/cenc.rs:686-802). */
module MediaData {
  import opened Bytes
  import opened Cipher
  import opened Samples
  import opened DecrypterState
  import opened Sorting

  // ----- Where the samples are -----

  /** Sample number `index` of a track occupies `size` bytes from `pos`. */
  datatype Placement = Placement(index: nat, pos: nat, size: nat)

  function SizeOf(track: TrackInfo, i: nat): nat {
    if i < |track.sampleSizes| && track.sampleSizes[i] > 0 then track.sampleSizes[i] else track.defaultSampleSize
  }

  /** One sample to decrypt. */
  datatype Job = Job(track: TrackInfo, at: Placement)

  predicate InRange(job: Job, n: nat) {
    && job.track.key.Some? && job.at.size > 0 && job.at.pos + job.at.size <= n
    && job.at.index < |job.track.sampleInfo|
  }

  /** The samples of a track from number `i` on: one of unknown size is passed over, one that does not fit ends the
      track. */
  function TrackJobs(track: TrackInfo, n: nat, i: nat, pos: nat): (r: seq<Job>)
    requires i <= |track.sampleInfo| && track.key.Some?
    ensures forall j <- r :: InRange(j, n) && j.track == track && j.at.pos >= pos
    decreases |track.sampleInfo| - i
  {
    if i == |track.sampleInfo| then []
    else
      var size := SizeOf(track, i);
      if size == 0 then TrackJobs(track, n, i + 1, pos)
      else if pos + size > n then []
      else [Job(track, Placement(i, pos, size))] + TrackJobs(track, n, i + 1, pos + size)
  }

  // ----- Tracks in order of their data -----

  predicate ByOffset(a: TrackInfo, b: TrackInfo) {
    a.dataOffset <= b.dataOffset
  }

  /** Stable sorting by data offset. */
  function SortTracks(tracks: seq<TrackInfo>): (r: seq<TrackInfo>) {
    Sort(ByOffset, tracks)
  }

  /** Sorting keeps exactly the given tracks. */
  lemma SortTracksSorts(tracks: seq<TrackInfo>)
    ensures Sorted(ByOffset, SortTracks(tracks))
    ensures forall t :: t in SortTracks(tracks) <==> t in tracks
    ensures |SortTracks(tracks)| == |tracks|
  {
    SortSorts(ByOffset, tracks);
    forall t ensures t in SortTracks(tracks) <==> t in tracks {
      assert t in multiset(SortTracks(tracks)) <==> t in multiset(tracks);
    }
  }

  /** Where a track's samples start, relative to the track that starts first. The difference wraps at 32 bits. */
  function StartOf(track: TrackInfo, first: int): nat {
    var d := AsI32(track.dataOffset - first);
    if d > 0 then d else 0
  }

  /** A track is decrypted if it has a key and sample information. */
  predicate Usable(t: TrackInfo) {
    t.key.Some? && t.sampleInfo != []
  }

  function JobsOfTrack(t: TrackInfo, first: int, n: nat): (r: seq<Job>)
    ensures forall j <- r :: InRange(j, n) && j.track == t
  {
    if Usable(t) then TrackJobs(t, n, 0, StartOf(t, first)) else []
  }

  function JobsOf(tracks: seq<TrackInfo>, first: int, n: nat): (r: seq<Job>)
    ensures forall j <- r :: InRange(j, n)
  {
    if tracks == [] then [] else JobsOfTrack(tracks[0], first, n) + JobsOf(tracks[1..], first, n)
  }

  /** Every sample the tracks describe in `n` bytes of media data, in the program's order. */
  function AllJobs(tracks: seq<TrackInfo>, n: nat): (r: seq<Job>)
    ensures forall j <- r :: InRange(j, n)
  {
    var sorted := SortTracks(tracks);
    if sorted == [] then [] else JobsOf(sorted, sorted[0].dataOffset, n)
  }

  /** What one sample decrypts to, always read from the original media data. */
  function JobResult(aes: Aes, scheme: EncScheme, job: Job, data: seq<byte>): Option<seq<byte>>
    requires InRange(job, |data|)
  {
    var t := job.track;
    DecryptedSample(aes, data[job.at.pos..job.at.pos + job.at.size], t.sampleInfo[job.at.index], t.key.value, scheme,
                    t.crypt, t.skip, t.constantIv)
  }

  function Overwrite(out: seq<byte>, pos: nat, bytes: seq<byte>): (r: seq<byte>)
    requires pos + |bytes| <= |out|
    ensures |r| == |out|
  {
    out[..pos] + bytes + out[pos + |bytes|..]
  }

  /** The jobs one after the other; `None` as soon as one aborts. */
  function RunJobs(aes: Aes, scheme: EncScheme, jobs: seq<Job>, data: seq<byte>, out: seq<byte>): (r: Option<seq<byte>>)
    requires |out| == |data| && forall j <- jobs :: InRange(j, |data|)
    ensures r.Some? ==> |r.value| == |data|
    decreases |jobs|
  {
    if jobs == [] then Some(out)
    else
      match JobResult(aes, scheme, jobs[0], data)
      case None => None
      case Some(bytes) =>
        RunJobs(aes, scheme, jobs[1..], data, Overwrite(out, jobs[0].at.pos, bytes[..Min(|bytes|, jobs[0].at.size)]))
  }

  lemma {:induction false} JobsAreTheTracks(tracks: seq<TrackInfo>, first: int, n: nat)
    ensures forall j <- JobsOf(tracks, first, n) :: j.track in tracks && j in JobsOfTrack(j.track, first, n)
    ensures forall t <- tracks, j <- JobsOfTrack(t, first, n) :: j in JobsOf(tracks, first, n)
  {
    if tracks != [] {
      JobsAreTheTracks(tracks[1..], first, n);
    }
  }

  // ----- Where every sample lies -----

  /** The sizes of the samples before number `i`. */
  function SizesBefore(track: TrackInfo, i: nat): nat {
    if i == 0 then 0 else SizesBefore(track, i - 1) + SizeOf(track, i - 1)
  }

  /** The smallest data offset. */
  function FirstOffset(tracks: seq<TrackInfo>): (first: int)
    requires tracks != []
    ensures (forall t <- tracks :: first <= t.dataOffset) && exists t <- tracks :: t.dataOffset == first
  {
    SortTracksSorts(tracks);
    var sorted := SortTracks(tracks);
    assert sorted[0] in tracks;
    assert forall t <- tracks :: t in sorted;
    sorted[0].dataOffset
  }

  /** Sample `i` of a track lies behind the track's start by the sizes of the samples before it. */
  function SampleAt(track: TrackInfo, first: int, i: nat): Placement {
    Placement(i, StartOf(track, first) + SizesBefore(track, i), SizeOf(track, i))
  }

  /** It is decrypted if its size is known and it ends inside the media data. */
  predicate Decryptable(track: TrackInfo, first: int, n: nat, i: nat) {
    && Usable(track) && i < |track.sampleInfo| && SizeOf(track, i) > 0
    && StartOf(track, first) + SizesBefore(track, i) + SizeOf(track, i) <= n
  }

  lemma {:induction false} SizesGrow(track: TrackInfo, i: nat, j: nat)
    requires i <= j
    ensures SizesBefore(track, i) <= SizesBefore(track, j)
    decreases j
  {
    if i < j {
      SizesGrow(track, i, j - 1);
    }
  }

  /** The walk over a track meets exactly the samples that are known and end inside the data, each at its sum. */
  lemma {:induction false} TrackJobsExactly(track: TrackInfo, n: nat, i: nat, pos: nat, job: Job)
    requires i <= |track.sampleInfo| && track.key.Some? && pos >= SizesBefore(track, i)
    ensures var p, start := job.at, pos - SizesBefore(track, i);
            job in TrackJobs(track, n, i, pos)
            <==> job.track == track && i <= p.index < |track.sampleInfo| && p.size == SizeOf(track, p.index) > 0
                 && p.pos == start + SizesBefore(track, p.index) && p.pos + p.size <= n
    decreases |track.sampleInfo| - i
  {
    hide SizeOf;
    if i < |track.sampleInfo| {
      var size := SizeOf(track, i);
      assert SizesBefore(track, i + 1) == SizesBefore(track, i) + size;
      if size == 0 {
        TrackJobsExactly(track, n, i + 1, pos, job);
      } else if pos + size <= n {
        TrackJobsExactly(track, n, i + 1, pos + size, job);
      } else if i < job.at.index {
        SizesGrow(track, i + 1, job.at.index);
      }
    }
  }

  /** The samples decrypted are exactly the decryptable ones of all tracks, each at its place. */
  lemma AllJobsExactly(tracks: seq<TrackInfo>, n: nat, job: Job)
    requires tracks != []
    ensures job in AllJobs(tracks, n)
            <==> var first := FirstOffset(tracks);
                 && job.track in tracks && Decryptable(job.track, first, n, job.at.index)
                 && job.at == SampleAt(job.track, first, job.at.index)
  {
    hide TrackJobs, SizesBefore, SizeOf, StartOf;
    var first, sorted := FirstOffset(tracks), SortTracks(tracks);
    SortTracksSorts(tracks);
    JobsAreTheTracks(sorted, first, n);
    if Usable(job.track) {
      NothingBefore(job.track);
      TrackJobsExactly(job.track, n, 0, StartOf(job.track, first), job);
    }
  }

  lemma NothingBefore(track: TrackInfo)
    ensures SizesBefore(track, 0) == 0
  {
  }

  /** The media data of a track ends here. */
  function TrackEnd(track: TrackInfo, first: int): nat {
    StartOf(track, first) + SizesBefore(track, |track.sampleInfo|)
  }

  /** Tracks whose ranges do not meet have no samples in common. */
  lemma RangesApart(tracks: seq<TrackInfo>, n: nat)
    requires tracks != []
    requires var first := FirstOffset(tracks);
             forall a <- tracks, b <- tracks ::
               a == b || TrackEnd(a, first) <= StartOf(b, first) || TrackEnd(b, first) <= StartOf(a, first)
    ensures Compatible(AllJobs(tracks, n))
  {
    hide SizesBefore, SizeOf, StartOf, AllJobs;
    var first := FirstOffset(tracks);
    forall a <- AllJobs(tracks, n), b <- AllJobs(tracks, n) ensures a == b || Apart(a.at, b.at) {
      AllJobsExactly(tracks, n, a);
      AllJobsExactly(tracks, n, b);
      InsideTrack(a.track, first, a.at.index);
      InsideTrack(b.track, first, b.at.index);
      if a.track == b.track {
        SamplesApart(a.track, first, a.at.index, b.at.index);
      }
    }
  }

  lemma InsideTrack(track: TrackInfo, first: int, i: nat)
    requires i < |track.sampleInfo|
    ensures var p := SampleAt(track, first, i);
            StartOf(track, first) <= p.pos && p.pos + p.size <= TrackEnd(track, first)
  {
    SizesGrow(track, i + 1, |track.sampleInfo|);
  }

  lemma SamplesApart(track: TrackInfo, first: int, i: nat, j: nat)
    ensures i == j || Apart(SampleAt(track, first, i), SampleAt(track, first, j))
  {
    if i < j {
      SizesGrow(track, i + 1, j);
    } else if j < i {
      SizesGrow(track, j + 1, i);
    }
  }

  /** Offsets in runs count from the start of the fragment. The places the program computes are those offsets less the
      offset of the first payload byte for all tracks, if and only if the first track starts with that byte and no
      difference wraps. */
  lemma PlacesAreOffsets(tracks: seq<TrackInfo>, payload: int)
    requires tracks != []
    ensures var first := FirstOffset(tracks);
            (forall t <- tracks :: StartOf(t, first) == t.dataOffset - payload)
            <==> first == payload && forall t <- tracks :: t.dataOffset - first < 0x8000_0000
  {
    var first := FirstOffset(tracks);
    var t0 :| t0 in tracks && t0.dataOffset == first;
    assert StartOf(t0, first) == 0;
    forall t <- tracks ensures t.dataOffset - first < 0x8000_0000 ==> StartOf(t, first) == t.dataOffset - first {
      if t.dataOffset - first < 0x8000_0000 {
        SmallDifference(t.dataOffset - first);
      }
    }
    forall t <- tracks ensures StartOf(t, first) < 0x8000_0000 {
    }
  }

  lemma SmallDifference(d: int)
    requires 0 <= d < 0x8000_0000
    ensures AsI32(d) == d
  {
  }

  // ----- In-place decryption -----

  predicate Apart(a: Placement, b: Placement) {
    a.pos + a.size <= b.pos || b.pos + b.size <= a.pos
  }

  /** Different samples occupy different bytes. */
  predicate Compatible(jobs: seq<Job>) {
    forall a <- jobs, b <- jobs :: a == b || Apart(a.at, b.at)
  }

  predicate Covers(j: Job, i: nat) {
    j.at.pos <= i < j.at.pos + j.at.size
  }

  /** A sample's decryption goes through: it is clear, or its subsample map fits it. */
  predicate Readable(j: Job) {
    j.at.index < |j.track.sampleInfo| ==>
      var info := j.track.sampleInfo[j.at.index];
      !info.isEncrypted || MapFits(info.subSamples, j.at.size)
  }

  lemma JobResultExact(aes: Aes, scheme: EncScheme, job: Job, data: seq<byte>)
    requires InRange(job, |data|)
    ensures JobResult(aes, scheme, job, data).Some? <==> Readable(job)
    ensures JobResult(aes, scheme, job, data).Some? ==> |JobResult(aes, scheme, job, data).value| == job.at.size
  {
    var t := job.track;
    SampleDecryption(aes, data[job.at.pos..job.at.pos + job.at.size], t.sampleInfo[job.at.index], t.key.value, scheme,
                     t.crypt, t.skip, t.constantIv);
  }

  /** The jobs go through exactly when every sample is readable. */
  lemma {:induction false} JobsGoThrough(aes: Aes, scheme: EncScheme, jobs: seq<Job>, data: seq<byte>, out: seq<byte>)
    requires |out| == |data| && forall j <- jobs :: InRange(j, |data|)
    ensures RunJobs(aes, scheme, jobs, data, out).Some? <==> forall j <- jobs :: Readable(j)
    decreases |jobs|
  {
    if jobs != [] {
      JobResultExact(aes, scheme, jobs[0], data);
      var result := JobResult(aes, scheme, jobs[0], data);
      if result.Some? {
        JobsGoThrough(aes, scheme, jobs[1..], data,
                      Overwrite(out, jobs[0].at.pos, result.value[..Min(|result.value|, jobs[0].at.size)]));
        assert jobs == [jobs[0]] + jobs[1..];
      }
    }
  }

  /** Every sample's bytes become its decryption, and no other byte changes. */
  ghost predicate Decrypts(aes: Aes, scheme: EncScheme, jobs: seq<Job>, data: seq<byte>, out: seq<byte>, r: seq<byte>)
    requires |out| == |data| && forall j <- jobs :: InRange(j, |data|)
  {
    && |r| == |data|
    && (forall j <- jobs ::
          InRange(j, |r|) && Some(r[j.at.pos..j.at.pos + j.at.size]) == JobResult(aes, scheme, j, data))
    && forall i :: 0 <= i < |r| && (forall j <- jobs :: !Covers(j, i)) ==> r[i] == out[i]
  }

  lemma {:induction false} JobsDecrypt(aes: Aes, scheme: EncScheme, jobs: seq<Job>, data: seq<byte>, out: seq<byte>)
    requires |out| == |data| && forall j <- jobs :: InRange(j, |data|)
    requires Compatible(jobs) && forall j <- jobs :: Readable(j)
    ensures var r := RunJobs(aes, scheme, jobs, data, out);
            r.Some? && Decrypts(aes, scheme, jobs, data, out, r.value)
    decreases |jobs|
  {
    if jobs != [] {
      var first, rest := jobs[0], jobs[1..];
      assert jobs == [first] + rest;
      JobResultExact(aes, scheme, first, data);
      var bytes := JobResult(aes, scheme, first, data).value;
      var out' := Overwrite(out, first.at.pos, bytes);
      assert bytes[..Min(|bytes|, first.at.size)] == bytes;
      JobsDecrypt(aes, scheme, rest, data, out');
      FirstJob(aes, scheme, first, rest, data, out, bytes, RunJobs(aes, scheme, rest, data, out').value);
    }
  }

  lemma FirstJob(aes: Aes, scheme: EncScheme, first: Job, rest: seq<Job>, data: seq<byte>, out: seq<byte>,
                 bytes: seq<byte>, r: seq<byte>)
    requires |out| == |data| && InRange(first, |data|) && forall j <- rest :: InRange(j, |data|)
    requires Compatible([first] + rest)
    requires JobResult(aes, scheme, first, data) == Some(bytes) && |bytes| == first.at.size
    requires Decrypts(aes, scheme, rest, data, Overwrite(out, first.at.pos, bytes), r)
    ensures Decrypts(aes, scheme, [first] + rest, data, out, r)
  {
    var jobs := [first] + rest;
    var out' := Overwrite(out, first.at.pos, bytes);
    var p := first.at.pos;
    if first !in rest {
      forall i | p <= i < p + |bytes| ensures r[i] == bytes[i - p] {
        forall j <- rest ensures !Covers(j, i) {
          assert j in jobs && first in jobs;
        }
        assert r[i] == out'[i];
      }
      assert r[p..p + |bytes|] == bytes;
    }
    forall i | 0 <= i < |r| && (forall j <- jobs :: !Covers(j, i)) ensures r[i] == out[i] {
      assert first in jobs && !Covers(first, i);
      forall j <- rest ensures !Covers(j, i) {
        assert j in jobs;
      }
      assert r[i] == out'[i];
    }
  }

  /** A result that decrypts the jobs is unique, so only the set of samples matters, not their order. */
  lemma DecryptsUnique(aes: Aes, scheme: EncScheme, a: seq<Job>, b: seq<Job>, data: seq<byte>, r: seq<byte>,
                       q: seq<byte>)
    requires (forall j <- a :: InRange(j, |data|)) && (forall j <- b :: InRange(j, |data|))
    requires forall j :: j in a <==> j in b
    requires Decrypts(aes, scheme, a, data, data, r) && Decrypts(aes, scheme, b, data, data, q)
    ensures r == q
  {
    hide JobResult;
    forall i | 0 <= i < |data| ensures r[i] == q[i] {
      if j :| j in a && Covers(j, i) {
        var p := j.at.pos;
        assert r[p..p + j.at.size] == q[p..p + j.at.size];
        assert r[i] == r[p..p + j.at.size][i - p] && q[i] == q[p..p + j.at.size][i - p];
      }
    }
  }

  lemma SameJobs(tracks: seq<TrackInfo>, others: seq<TrackInfo>, n: nat)
    requires forall t :: t in tracks <==> t in others
    ensures forall j :: j in AllJobs(tracks, n) <==> j in AllJobs(others, n)
  {
    var a, b := SortTracks(tracks), SortTracks(others);
    SortTracksSorts(tracks);
    SortTracksSorts(others);
    assert a != [] ==> a[0] in b;
    assert b != [] ==> b[0] in a;
    if a != [] {
      var first := a[0].dataOffset;
      assert first == b[0].dataOffset;
      JobsAreTheTracks(a, first, n);
      JobsAreTheTracks(b, first, n);
    }
  }

  /** Media data decryption: as long as different samples occupy different bytes and every subsample map fits,
      each sample's bytes become exactly its decryption, all other bytes and the length stay, and any other order
      of the same tracks gives the same result. */
  lemma InPlace(aes: Aes, scheme: EncScheme, tracks: seq<TrackInfo>, others: seq<TrackInfo>, data: seq<byte>)
    requires forall t :: t in tracks <==> t in others
    ensures (forall j <- AllJobs(tracks, |data|) :: Readable(j))
            <==> RunJobs(aes, scheme, AllJobs(tracks, |data|), data, data).Some?
    ensures Compatible(AllJobs(tracks, |data|)) && (forall j <- AllJobs(tracks, |data|) :: Readable(j)) ==>
              var r := RunJobs(aes, scheme, AllJobs(tracks, |data|), data, data);
              && r.Some? && Decrypts(aes, scheme, AllJobs(tracks, |data|), data, data, r.value)
              && RunJobs(aes, scheme, AllJobs(others, |data|), data, data) == r
  {
    var a, b := AllJobs(tracks, |data|), AllJobs(others, |data|);
    JobsGoThrough(aes, scheme, a, data, data);
    if Compatible(a) && forall j <- a :: Readable(j) {
      SameJobs(tracks, others, |data|);
      JobsDecrypt(aes, scheme, a, data, data);
      JobsDecrypt(aes, scheme, b, data, data);
      DecryptsUnique(aes, scheme, a, b, data, RunJobs(aes, scheme, a, data, data).value,
                     RunJobs(aes, scheme, b, data, data).value);
    }
  }

  /** Sample by sample: in the result, every decryptable sample of every track is decrypted where it lies. */
  lemma EachSample(aes: Aes, scheme: EncScheme, tracks: seq<TrackInfo>, data: seq<byte>, t: TrackInfo, i: nat)
    requires Compatible(AllJobs(tracks, |data|)) && forall j <- AllJobs(tracks, |data|) :: Readable(j)
    requires t in tracks && Decryptable(t, FirstOffset(tracks), |data|, i)
    ensures var r := RunJobs(aes, scheme, AllJobs(tracks, |data|), data, data);
            var p := StartOf(t, FirstOffset(tracks)) + SizesBefore(t, i);
            && r.Some? && |r.value| == |data|
            && Some(r.value[p..p + SizeOf(t, i)])
               == DecryptedSample(aes, data[p..p + SizeOf(t, i)], t.sampleInfo[i], t.key.value, scheme, t.crypt, t.skip,
                                  t.constantIv)
  {
    hide AllJobs, RunJobs, DecryptedSample, StartOf, SizesBefore, SizeOf;
    var job := Job(t, SampleAt(t, FirstOffset(tracks), i));
    AllJobsExactly(tracks, |data|, job);
    JobsDecrypt(aes, scheme, AllJobs(tracks, |data|), data, data);
  }

  /** One track never overwrites itself. */
  lemma {:induction false} OneTrackCompatible(track: TrackInfo, n: nat, i: nat, pos: nat)
    requires i <= |track.sampleInfo| && track.key.Some?
    ensures Compatible(TrackJobs(track, n, i, pos))
    decreases |track.sampleInfo| - i
  {
    if i < |track.sampleInfo| {
      var size := SizeOf(track, i);
      if size == 0 {
        OneTrackCompatible(track, n, i + 1, pos);
      } else if pos + size <= n {
        OneTrackCompatible(track, n, i + 1, pos + size);
      }
    }
  }

  // ----- The loops -----

  /** What is left to do inside track `k`, before sample `i` at `pos`. */
  function Remaining(sorted: seq<TrackInfo>, k: nat, i: nat, pos: nat, first: int, n: nat): (r: seq<Job>)
    requires k < |sorted| && i <= |sorted[k].sampleInfo| && sorted[k].key.Some?
    ensures forall j <- r :: InRange(j, n)
  {
    TrackJobs(sorted[k], n, i, pos) + JobsOf(sorted[k + 1..], first, n)
  }

  lemma RemainingStep(sorted: seq<TrackInfo>, k: nat, i: nat, pos: nat, first: int, n: nat)
    requires k < |sorted| && i < |sorted[k].sampleInfo| && sorted[k].key.Some?
    ensures var size := SizeOf(sorted[k], i);
            Remaining(sorted, k, i, pos, first, n)
            == if size == 0 then Remaining(sorted, k, i + 1, pos, first, n)
               else if pos + size > n then JobsOf(sorted[k + 1..], first, n)
               else [Job(sorted[k], Placement(i, pos, size))] + Remaining(sorted, k, i + 1, pos + size, first, n)
  {
  }

  lemma RemainingEnds(sorted: seq<TrackInfo>, k: nat, pos: nat, first: int, n: nat)
    requires k < |sorted|
    ensures sorted[k].key.Some? ==>
              Remaining(sorted, k, |sorted[k].sampleInfo|, pos, first, n) == JobsOf(sorted[k + 1..], first, n)
    ensures JobsOf(sorted[k..], first, n)
            == if Usable(sorted[k]) then Remaining(sorted, k, 0, StartOf(sorted[k], first), first, n)
               else JobsOf(sorted[k + 1..], first, n)
  {
    assert sorted[k..][1..] == sorted[k + 1..];
  }

  /** The samples of one track, decrypted over `decrypted`; `false` if one of them aborts. */
  method DecryptTrack(aes: Aes, scheme: EncScheme, sorted: seq<TrackInfo>, k: nat, first: int, data: seq<byte>,
                      decrypted: array<byte>)
    returns (ok: bool)
    requires k < |sorted| && Usable(sorted[k]) && decrypted.Length == |data|
    modifies decrypted
    ensures var before := RunJobs(aes, scheme, JobsOf(sorted[k..], first, |data|), data, old(decrypted[..]));
            if ok then before == RunJobs(aes, scheme, JobsOf(sorted[k + 1..], first, |data|), data, decrypted[..])
            else before == None
  {
    hide TrackJobs, JobsOf, Remaining, RunJobs, JobResult;
    var track := sorted[k];
    var pos := StartOf(track, first);
    var n := |data|;
    RemainingEnds(sorted, k, pos, first, n);
    ghost var goal := RunJobs(aes, scheme, JobsOf(sorted[k..], first, n), data, decrypted[..]);
    for i := 0 to |track.sampleInfo|
      invariant 0 <= pos
      invariant goal == RunJobs(aes, scheme, Remaining(sorted, k, i, pos, first, n), data, decrypted[..])
    {
      RemainingStep(sorted, k, i, pos, first, n);
      var size := SizeOf(track, i);
      if size == 0 {
        continue;
      }
      if pos + size > |data| {
        return true;
      }
      ghost var job, rest := Job(track, Placement(i, pos, size)), Remaining(sorted, k, i + 1, pos + size, first, n);
      RunOneJob(aes, scheme, job, rest, data, decrypted[..]);
      var dec := DecryptSample(aes, data[pos..pos + size], track.sampleInfo[i], track.key.value, scheme,
                               track.crypt, track.skip, track.constantIv);
      if dec == None {
        return false;
      }
      var bytes := dec.value[..Min(|dec.value|, size)];
      ghost var was := decrypted[..];
      CopyInto(decrypted, pos, bytes);
      assert decrypted[..] == Overwrite(was, pos, bytes);
      pos := pos + size;
    }
    RemainingEnds(sorted, k, pos, first, n);
    ok := true;
  }

  lemma RunOneJob(aes: Aes, scheme: EncScheme, job: Job, rest: seq<Job>, data: seq<byte>, out: seq<byte>)
    requires |out| == |data| && InRange(job, |data|) && forall j <- rest :: InRange(j, |data|)
    ensures forall j <- [job] + rest :: InRange(j, |data|)
    ensures var t := job.track;
            var result := DecryptedSample(aes, data[job.at.pos..job.at.pos + job.at.size], t.sampleInfo[job.at.index],
                                          t.key.value, scheme, t.crypt, t.skip, t.constantIv);
            RunJobs(aes, scheme, [job] + rest, data, out)
            == match result
               case None => None
               case Some(bytes) =>
                 RunJobs(aes, scheme, rest, data, Overwrite(out, job.at.pos, bytes[..Min(|bytes|, job.at.size)]))
  {
    hide DecryptedSample, Overwrite;
    assert ([job] + rest)[0] == job && ([job] + rest)[1..] == rest;
  }

  /** `copy_from_slice`. */
  method CopyInto(target: array<byte>, pos: nat, bytes: seq<byte>)
    requires pos + |bytes| <= target.Length
    modifies target
    ensures target[..] == Overwrite(old(target[..]), pos, bytes)
  {
    ghost var was := target[..];
    for i := 0 to |bytes|
      invariant target[..] == Overwrite(was, pos, bytes[..i])
    {
      target[pos + i] := bytes[i];
    }
    assert bytes[..|bytes|] == bytes;
  }

  /** All tracks in order of their data, over a copy of the media data. */
  method DecryptTracks(aes: Aes, scheme: EncScheme, trackInfos: seq<TrackInfo>, data: seq<byte>)
    returns (r: Option<seq<byte>>)
    ensures r == RunJobs(aes, scheme, AllJobs(trackInfos, |data|), data, data)
  {
    hide JobsOf, RunJobs;
    var decrypted := new byte[|data|](i requires 0 <= i < |data| => data[i]);
    assert decrypted[..] == data;
    var sorted := SortTracks(trackInfos);
    if sorted == [] {
      NoJobs(aes, scheme, data);
      return Some(data);
    }
    var first := sorted[0].dataOffset;
    assert sorted[0..] == sorted;
    for k := 0 to |sorted|
      invariant RunJobs(aes, scheme, JobsOf(sorted, first, |data|), data, data)
                == RunJobs(aes, scheme, JobsOf(sorted[k..], first, |data|), data, decrypted[..])
    {
      RemainingEnds(sorted, k, 0, first, |data|);
      if !Usable(sorted[k]) {
        continue;
      }
      var ok := DecryptTrack(aes, scheme, sorted, k, first, data, decrypted);
      if !ok {
        return None;
      }
    }
    assert sorted[|sorted|..] == [];
    NoJobs(aes, scheme, decrypted[..]);
    r := Some(decrypted[..]);
  }

  lemma NoJobs(aes: Aes, scheme: EncScheme, out: seq<byte>)
    ensures forall first: int, n: nat :: JobsOf([], first, n) == []
    ensures forall data: seq<byte> | |data| == |out| :: RunJobs(aes, scheme, [], data, out) == Some(out)
  {
  }

  // ----- Without tracks -----

  /** The fallback for media data no fragment with tracks came before: samples follow one another from the start, one of
      unknown size takes the rest. */
  function InSequence(aes: Aes, st: State, key: Key, data: seq<byte>, i: nat, pos: nat): Option<seq<byte>>
    requires i <= |st.currentSampleInfo|
    decreases |st.currentSampleInfo| - i
  {
    if i == |st.currentSampleInfo| || pos >= |data| then Some([])
    else
      var size := SequenceSize(st, i, |data| - pos);
      var sample := data[pos..pos + Min(size, |data| - pos)];
      match DecryptedSample(aes, sample, st.currentSampleInfo[i], key, st.scheme, st.crypt, st.skip, st.constantIv)
      case None => None
      case Some(dec) => Prepend(dec, InSequence(aes, st, key, data, i + 1, pos + size))
  }

  /** Where the fallback stands before sample `i`. */
  function SequencePos(st: State, n: nat, i: nat): nat {
    if i == 0 then 0
    else
      var pos := SequencePos(st, n, i - 1);
      if pos >= n then pos else pos + SequenceSize(st, i - 1, n - pos)
  }

  /** In `r`, the output from position `from` on, sample `k` is decrypted in its place, cut at the end of the data. */
  predicate InPlaceAt(aes: Aes, st: State, key: Key, data: seq<byte>, from: nat, r: seq<byte>, k: nat) {
    var n := |data|;
    var p, end := SequencePos(st, n, k), Min(n, SequencePos(st, n, k + 1));
    k < |st.currentSampleInfo| && p < n ==>
      && from <= p <= end && end - from <= |r|
      && Some(r[p - from..end - from])
         == DecryptedSample(aes, data[p..end], st.currentSampleInfo[k], key, st.scheme, st.crypt, st.skip,
                            st.constantIv)
  }

  /** The fallback's result is as long as the samples reach, and every sample that begins inside the data is decrypted
      there. */
  lemma {:induction false} InSequenceExactly(aes: Aes, st: State, key: Key, data: seq<byte>, i: nat)
    requires i <= |st.currentSampleInfo| && InSequence(aes, st, key, data, i, SequencePos(st, |data|, i)).Some?
    ensures var n, from := |data|, SequencePos(st, |data|, i);
            var r := InSequence(aes, st, key, data, i, from).value;
            && |r| == Min(n, SequencePos(st, n, |st.currentSampleInfo|)) - Min(n, from)
            && forall k :: i <= k < |st.currentSampleInfo| ==> InPlaceAt(aes, st, key, data, from, r, k)
    decreases |st.currentSampleInfo| - i
  {
    hide DecryptedSample, InSequence, InPlaceAt, SequencePos;
    var n, from, last := |data|, SequencePos(st, |data|, i), |st.currentSampleInfo|;
    SequenceStep(aes, st, key, data, i, from);
    PositionsGrow(st, n, i, last);
    if i < last && from < n {
      NextPosition(st, n, i);
      var next := SequencePos(st, n, i + 1);
      var sample := data[from..Min(n, next)];
      assert data[from..from + Min(SequenceSize(st, i, n - from), n - from)] == sample;
      var dec := DecryptedSample(aes, sample, st.currentSampleInfo[i], key, st.scheme, st.crypt, st.skip,
                                 st.constantIv);
      SampleLength(aes, st, key, sample, i);
      InSequenceExactly(aes, st, key, data, i + 1);
      PositionsGrow(st, n, i + 1, last);
      var rest := InSequence(aes, st, key, data, i + 1, next).value;
      HereInPlace(aes, st, key, data, i, dec.value, rest);
      forall k | i < k < last ensures InPlaceAt(aes, st, key, data, from, dec.value + rest, k) {
        LaterInPlace(aes, st, key, data, i, dec.value, rest, k);
      }
    } else {
      forall k | i <= k < last ensures InPlaceAt(aes, st, key, data, from, [], k) {
        NothingMore(aes, st, key, data, from, i, k);
      }
      if from >= n {
        PositionsGrow(st, n, i, last);
      }
    }
  }

  lemma NextPosition(st: State, n: nat, i: nat)
    requires SequencePos(st, n, i) < n
    ensures SequencePos(st, n, i + 1) == SequencePos(st, n, i) + SequenceSize(st, i, n - SequencePos(st, n, i))
  {
  }

  lemma HereInPlace(aes: Aes, st: State, key: Key, data: seq<byte>, i: nat, bytes: seq<byte>, rest: seq<byte>)
    requires i < |st.currentSampleInfo| && SequencePos(st, |data|, i) < |data|
    requires var p, end := SequencePos(st, |data|, i), Min(|data|, SequencePos(st, |data|, i + 1));
             && p <= end && |bytes| == end - p
             && Some(bytes)
                == DecryptedSample(aes, data[p..end], st.currentSampleInfo[i], key, st.scheme, st.crypt, st.skip,
                                   st.constantIv)
    ensures InPlaceAt(aes, st, key, data, SequencePos(st, |data|, i), bytes + rest, i)
  {
    hide DecryptedSample, SequencePos;
    assert (bytes + rest)[..|bytes|] == bytes;
  }

  lemma LaterInPlace(aes: Aes, st: State, key: Key, data: seq<byte>, i: nat, bytes: seq<byte>, rest: seq<byte>, k: nat)
    requires i < k && SequencePos(st, |data|, i) < |data|
    requires |bytes| == Min(|data|, SequencePos(st, |data|, i + 1)) - SequencePos(st, |data|, i)
    requires InPlaceAt(aes, st, key, data, SequencePos(st, |data|, i + 1), rest, k)
    ensures InPlaceAt(aes, st, key, data, SequencePos(st, |data|, i), bytes + rest, k)
  {
    hide DecryptedSample, SequencePos;
    var n := |data|;
    var from, next := SequencePos(st, n, i), SequencePos(st, n, i + 1);
    var p, end := SequencePos(st, n, k), Min(n, SequencePos(st, n, k + 1));
    PositionsGrow(st, n, i, i + 1);
    if k < |st.currentSampleInfo| && p < n {
      assert |bytes| == next - from;
      assert (bytes + rest)[p - from..end - from] == rest[p - next..end - next];
    }
  }

  lemma NothingMore(aes: Aes, st: State, key: Key, data: seq<byte>, from: nat, i: nat, k: nat)
    requires i <= k && from == SequencePos(st, |data|, i) && (i >= |st.currentSampleInfo| || from >= |data|)
    ensures InPlaceAt(aes, st, key, data, from, [], k)
  {
    PositionsGrow(st, |data|, i, k);
  }

  lemma SampleLength(aes: Aes, st: State, key: Key, sample: seq<byte>, i: nat)
    requires i < |st.currentSampleInfo|
    ensures var dec := DecryptedSample(aes, sample, st.currentSampleInfo[i], key, st.scheme, st.crypt, st.skip,
                                       st.constantIv);
            dec.Some? ==> |dec.value| == |sample|
  {
    SampleDecryption(aes, sample, st.currentSampleInfo[i], key, st.scheme, st.crypt, st.skip, st.constantIv);
  }

  lemma {:induction false} PositionsGrow(st: State, n: nat, i: nat, j: nat)
    requires i <= j
    ensures SequencePos(st, n, i) <= SequencePos(st, n, j)
    decreases j
  {
    if i < j {
      PositionsGrow(st, n, i, j - 1);
    }
  }

  function SequenceSize(st: State, i: nat, left: nat): nat {
    if i < |st.trunSampleSizes| && st.trunSampleSizes[i] > 0 then st.trunSampleSizes[i]
    else if st.defaultSampleSize > 0 then st.defaultSampleSize
    else left
  }

  /** Samples of known size lie where they would lie in a track that begins with the data, and the first of unknown size
      takes all that is left. */
  lemma {:induction false} SequenceIsTrack(st: State, t: TrackInfo, n: nat, i: nat)
    requires t.sampleSizes == st.trunSampleSizes && t.defaultSampleSize == st.defaultSampleSize
    requires forall k :: 0 <= k < i ==> SizeOf(t, k) > 0 && SizesBefore(t, k) < n
    ensures SequencePos(st, n, i) == SizesBefore(t, i)
    ensures SizesBefore(t, i) < n ==>
              SequencePos(st, n, i + 1) == if SizeOf(t, i) > 0 then SizesBefore(t, i + 1) else n
    decreases i
  {
    if i > 0 {
      SequenceIsTrack(st, t, n, i - 1);
    }
  }

  /** What `decrypt_mdat` makes of a payload. */
  function DecryptedMdat(aes: Aes, st: State, data: seq<byte>): Option<seq<byte>> {
    if st.trackInfos != [] then RunJobs(aes, st.scheme, AllJobs(st.trackInfos, |data|), data, data)
    else
      match FallbackKey(st.keyMap)
      case None => Some(data)
      case Some(key) => if st.currentSampleInfo == [] then Some(data) else InSequence(aes, st, key, data, 0, 0)
  }

  /** Media data stays as it is where there is nothing to decrypt it with: there are tracks but none is usable, or there
      are none and no samples are known or not exactly one key is given. */
  lemma LeftAlone(aes: Aes, st: State, data: seq<byte>)
    requires if st.trackInfos != [] then forall t <- st.trackInfos :: !Usable(t)
             else st.currentSampleInfo == [] || |st.keyMap| != 1
    ensures DecryptedMdat(aes, st, data) == Some(data)
  {
    hide RunJobs, JobsOf, SortTracks;
    var tracks := st.trackInfos;
    if tracks != [] {
      SortTracksSorts(tracks);
      NothingToDo(SortTracks(tracks), SortTracks(tracks)[0].dataOffset, |data|);
      NoJobs(aes, st.scheme, data);
    }
  }

  lemma {:induction false} NothingToDo(tracks: seq<TrackInfo>, first: int, n: nat)
    requires forall t <- tracks :: !Usable(t)
    ensures JobsOf(tracks, first, n) == []
  {
    if tracks != [] {
      assert tracks[0] in tracks;
      NothingToDo(tracks[1..], first, n);
    }
  }

  method DecryptInSequence(aes: Aes, ghost st: State, key: Key, sampleInfo: seq<SampleInfo>, sampleSizes: seq<uint32>,
                           defaultSize: uint32, scheme: EncScheme, crypt: nat, skip: nat, constantIv: Option<seq<byte>>,
                           data: seq<byte>)
    returns (r: Option<seq<byte>>)
    requires sampleInfo == st.currentSampleInfo && sampleSizes == st.trunSampleSizes
    requires defaultSize == st.defaultSampleSize && scheme == st.scheme
    requires crypt == st.crypt && skip == st.skip && constantIv == st.constantIv
    ensures r == InSequence(aes, st, key, data, 0, 0)
  {
    hide InSequence, DecryptedSample;
    var decrypted: seq<byte> := [];
    var pos := 0;
    SequenceStep(aes, st, key, data, 0, 0);
    PrependNothing(InSequence(aes, st, key, data, 0, 0));
    for i := 0 to |sampleInfo|
      invariant 0 <= pos
      invariant InSequence(aes, st, key, data, 0, 0) == Prepend(decrypted, InSequence(aes, st, key, data, i, pos))
    {
      SequenceStep(aes, st, key, data, i, pos);
      if pos >= |data| {
        assert decrypted + [] == decrypted;
        return Some(decrypted);
      }
      var size := if i < |sampleSizes| then sampleSizes[i] else 0;
      if size == 0 {
        size := if defaultSize > 0 then defaultSize else |data| - pos;
      }
      var sample := data[pos..pos + Min(size, |data| - pos)];
      var dec := DecryptSample(aes, sample, sampleInfo[i], key, scheme, crypt, skip, constantIv);
      if dec == None {
        return None;
      }
      PrependTwice(decrypted, dec.value, InSequence(aes, st, key, data, i + 1, pos + size));
      decrypted := decrypted + dec.value;
      pos := pos + size;
    }
    SequenceStep(aes, st, key, data, |sampleInfo|, pos);
    assert decrypted + [] == decrypted;
    r := Some(decrypted);
  }

  lemma SequenceStep(aes: Aes, st: State, key: Key, data: seq<byte>, i: nat, pos: nat)
    requires i <= |st.currentSampleInfo|
    ensures i == |st.currentSampleInfo| || pos >= |data| ==> InSequence(aes, st, key, data, i, pos) == Some([])
    ensures i < |st.currentSampleInfo| && pos < |data| ==>
              var size := SequenceSize(st, i, |data| - pos);
              InSequence(aes, st, key, data, i, pos)
              == match DecryptedSample(aes, data[pos..pos + Min(size, |data| - pos)], st.currentSampleInfo[i], key,
                                       st.scheme, st.crypt, st.skip, st.constantIv)
                 case None => None
                 case Some(dec) => Prepend(dec, InSequence(aes, st, key, data, i + 1, pos + size))
  {
    hide DecryptedSample, SequenceSize, Prepend;
  }

  lemma PrependNothing(o: Option<seq<byte>>)
    ensures Prepend([], o) == o
  {
    if o.Some? {
      assert [] + o.value == o.value;
    }
  }

  lemma PrependTwice(a: seq<byte>, b: seq<byte>, rest: Option<seq<byte>>)
    ensures Prepend(a, Prepend(b, rest)) == Prepend(a + b, rest)
  {
    if rest.Some? {
      AppendAssoc(a, b, rest.value);
    }
  }
}
