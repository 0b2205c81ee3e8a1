/** From a packaged fragment to its plain samples, and where the cleaned fragment says they are
    (src/drm/cenc.rs:408-802). */
module Delivery {
  import opened Bytes
  import opened Mp4Atom
  import opened Cipher
  import opened Samples
  import opened Packager
  import opened Counter
  import opened SampleTables
  import opened DecrypterState
  import opened InitSegment
  import opened Fragment
  import opened MediaData

  // ----- Where the runs of a fragment are -----

  /** With one run in each track fragment, the places computed for the tracks are the run offsets less the offset of the
      first payload byte, if and only if the smallest offset is that of the first payload byte and no difference wraps.
      */
  lemma RunPlaces(st: State, moof: Atom, payload: int)
    requires SoleRuns(Parse(moof.data)).Some? && SoleRuns(Parse(moof.data)).value != []
    ensures var tracks, runs := AfterMoof(st, moof).trackInfos, SoleRuns(Parse(moof.data)).value;
            && |tracks| == |runs|
            && ((forall k :: 0 <= k < |runs| ==>
                   StartOf(tracks[k], FirstOffset(tracks)) == runs[k].dataOffset - payload)
                <==> (exists k :: 0 <= k < |runs| && runs[k].dataOffset == payload)
                     && forall k :: 0 <= k < |runs| ==> 0 <= runs[k].dataOffset - payload < 0x8000_0000)
  {
    hide Parse, SoleRuns, StartOf, AfterMoofChildren, TotalOverhead;
    var children := Parse(moof.data);
    TracksAreRuns(st.(trackInfos := [], totalOverhead := TotalOverhead(children)), children);
    var tracks, runs := AfterMoof(st, moof).trackInfos, SoleRuns(children).value;
    SameOffsets(tracks, runs, payload);
  }

  lemma SameOffsets(tracks: seq<TrackInfo>, runs: seq<TrunRead>, payload: int)
    requires tracks != [] && |tracks| == |runs|
    requires forall k :: 0 <= k < |runs| ==> tracks[0 + k].dataOffset == runs[k].dataOffset
    ensures (forall k :: 0 <= k < |runs| ==> StartOf(tracks[k], FirstOffset(tracks)) == runs[k].dataOffset - payload)
            <==> (exists k :: 0 <= k < |runs| && runs[k].dataOffset == payload)
                 && forall k :: 0 <= k < |runs| ==> 0 <= runs[k].dataOffset - payload < 0x8000_0000
  {
    hide StartOf, FirstOffset;
    assert forall k :: 0 <= k < |runs| ==> tracks[k].dataOffset == runs[k].dataOffset;
    PlacesByNumber(tracks, payload);
  }

  lemma PlacesByNumber(tracks: seq<TrackInfo>, payload: int)
    requires tracks != []
    ensures var first := FirstOffset(tracks);
            (forall k :: 0 <= k < |tracks| ==> StartOf(tracks[k], first) == tracks[k].dataOffset - payload)
            <==> (exists k :: 0 <= k < |tracks| && tracks[k].dataOffset == payload)
                 && forall k :: 0 <= k < |tracks| ==> 0 <= tracks[k].dataOffset - payload < 0x8000_0000
  {
    hide StartOf;
    var first := FirstOffset(tracks);
    PlacesAreOffsets(tracks, payload);
    var t :| t in tracks && t.dataOffset == first;
    var m :| 0 <= m < |tracks| && tracks[m] == t;
    assert forall k :: 0 <= k < |tracks| ==> tracks[k] in tracks && first <= tracks[k].dataOffset;
    if forall k :: 0 <= k < |tracks| ==> StartOf(tracks[k], first) == tracks[k].dataOffset - payload {
      assert forall x <- tracks :: StartOf(x, first) == x.dataOffset - payload;
      assert tracks[m].dataOffset == payload;
    }
  }

  // ----- A fragment without vectors -----

  /** There are track fragments, and none has a `senc`. */
  predicate NoVectors(moof: Atom) {
    && TrafCount(Parse(moof.data)) > 0
    && forall c <- Parse(moof.data) :: c.atomType == TRAF ==> forall b <- Parse(c.data) :: b.atomType != SENC
  }

  lemma {:induction false} ScanClear(scan: TrafScan, boxes: seq<Atom>)
    requires scan.sampleInfo == [] && forall b <- boxes :: b.atomType != SENC
    ensures ScanTraf(scan, boxes).sampleInfo == []
    decreases |boxes|
  {
    hide ReadTrun, AfterTfhd;
    if boxes != [] {
      assert boxes[0] in boxes;
      ScanClear(ScanBox(scan, boxes[0]), boxes[1..]);
    }
  }

  lemma {:induction false} TracksClear(st: State, children: seq<Atom>)
    requires forall c <- children :: c.atomType == TRAF ==> forall b <- Parse(c.data) :: b.atomType != SENC
    requires forall t <- st.trackInfos :: !Usable(t)
    ensures forall t <- AfterMoofChildren(st, children).trackInfos :: !Usable(t)
    decreases |children|
  {
    hide Parse, ScanTraf, KeyForTrack;
    if children != [] {
      var c, rest := children[0], children[1..];
      assert c in children && forall r <- rest :: r in children;
      if c.atomType == TRAF {
        var scan := TrafScan(st, 0, 0, [], 0);
        ScanClear(scan, Parse(c.data));
        ScanKeeps(scan, Parse(c.data));
        TracksClear(AfterTraf(st, Parse(c.data)), rest);
      } else {
        TracksClear(st, rest);
      }
    }
  }

  /** The media data behind a fragment that names no vectors is not touched, whatever was learned before it. */
  lemma ClearFragment(aes: Aes, st: State, moof: Atom, data: seq<byte>)
    requires NoVectors(moof)
    ensures DecryptedMdat(aes, AfterMoof(st, moof), data) == Some(data)
  {
    hide Parse, AfterMoofChildren, TotalOverhead, DecryptedMdat, TrafCount;
    var children := Parse(moof.data);
    var start := st.(trackInfos := [], totalOverhead := TotalOverhead(children));
    OneTrackPerTraf(start, children);
    TracksClear(start, children);
    LeftAlone(aes, AfterMoof(st, moof), data);
  }

  // ----- A packaged fragment -----

  /** The box of a type, if exactly one box has it. */
  function Sole(t: Fourcc, boxes: seq<Atom>): (r: Option<Atom>)
    ensures r.Some? ==> r.value in boxes && r.value.atomType == t
  {
    if boxes == [] then None
    else if boxes[0].atomType != t then Sole(t, boxes[1..])
    else if Lacks(t, boxes[1..]) then Some(boxes[0])
    else None
  }

  /** The boxes of a type, in order. */
  function OfType(t: Fourcc, boxes: seq<Atom>): seq<Atom> {
    if boxes == [] then [] else (if boxes[0].atomType == t then [boxes[0]] else []) + OfType(t, boxes[1..])
  }

  predicate Lacks(t: Fourcc, boxes: seq<Atom>) {
    forall b <- boxes :: b.atomType != t
  }

  /** How the samples of a track are encrypted: scheme, where the `senc` vectors come from, key, pattern, and the
      constant vector if there is one. */
  datatype Setup = Setup(
    scheme: EncScheme, source: IvSource, key: Key, crypt: nat, skip: nat, constantIv: Option<seq<byte>>)

  /** What a packager puts into one track fragment: its boxes, the fields of its header, of its run and of its `senc`,
      and the samples. */
  datatype Track = Track(
    setup: Setup, boxes: seq<Atom>, tfhd: Tfhd, trunFlags: uint32, dataOffset: int32, firstFlags: uint32,
    run: seq<TrunSample>, sencFlags: uint32, infos: seq<SampleInfo>, plain: seq<seq<byte>>)

  /** A whole fragment: its boxes, and its track fragments in order. */
  datatype Package = Package(boxes: seq<Atom>, tracks: seq<Track>)

  /** What run or header say about the size of sample `i`. */
  function SizeWritten(t: Track, i: nat): uint32
    requires i < |t.run|
  {
    if HasFlag(t.trunFlags, 0x200) then t.run[i].size else t.tfhd.size
  }

  /** Header, run and `senc` describe the samples. */
  predicate Tables(t: Track) {
    && 0 < |t.plain| < 0x1_0000_0000 && |t.run| == |t.infos| == |t.plain|
    && HasFlag(t.trunFlags, 0x1) && (HasFlag(t.trunFlags, 0x200) || HasFlag(t.tfhd.flags, 0x10))
    && (forall i :: 0 <= i < |t.plain| ==> SizeWritten(t, i) == |t.plain[i]| > 0)
    && (forall info <- t.infos :: WellFormedEntry(info, HasFlag(t.sencFlags, 0x2), t.setup.source))
    && Sole(TFHD, t.boxes) == Some(Atom(TFHD, PackTfhd(t.tfhd)))
    && Sole(TRUN, t.boxes) == Some(Atom(TRUN, PackTrun(t.trunFlags, t.dataOffset, t.firstFlags, t.run)))
    && Sole(SENC, t.boxes) == Some(Atom(SENC, PackSenc(t.sencFlags, t.infos, t.setup.source)))
  }

  /** Sample `i` is of a kind that comes out: see `Packager.RoundTripExactly`. */
  predicate Fit(t: Track, i: nat)
    requires i < |t.plain| == |t.infos|
  {
    var s, info, n := t.setup, t.infos[i], |t.plain[i]|;
    && MapFits(info.subSamples, n) && Restorable(info, s.scheme, n, s.crypt, s.skip)
    && (CounterMode(s.scheme) ==> NoOverflow(CounterBlock(info.iv, 0), info.subSamples, 0))
  }

  /** The tables of a track describe its samples, and these can be restored. */
  predicate Written(t: Track) {
    Tables(t) && forall i :: 0 <= i < |t.plain| ==> Fit(t, i)
  }

  /** The settings of the track, as learned from the initialization segment. */
  function SettingsFor(st: State, t: Track): TrackSettings {
    var id := t.tfhd.trackId;
    if id in st.trackSettings then st.trackSettings[id]
    else TrackSettings(st.crypt, st.skip, st.constantIv, st.defaultIvSize)
  }

  /** The decrypter knows how the track is encrypted. */
  predicate Knows(st: State, t: Track) {
    && st.scheme == t.setup.scheme && VectorSource(st) == t.setup.source
    && KeyForTrack(st, t.tfhd.trackId) == Some(t.setup.key)
    && var s := SettingsFor(st, t);
       s.crypt == t.setup.crypt && s.skip == t.setup.skip && s.constantIv == t.setup.constantIv
  }

  /** A decrypter with one key that has seen no initialization segment knows the tracks of `cenc` with 8-byte vectors
      under that key, and no others. */
  lemma KnownUnannounced(kid: seq<byte>, key: Key, t: Track)
    ensures var st := Fresh(map[kid := key]);
            Knows(st, t) <==> t.setup == Setup(Cenc, PerSample(8), key, st.crypt, st.skip, None)
    ensures Fresh(map[kid := key]).crypt == 1 && Fresh(map[kid := key]).skip == 9
  {
  }

  predicate PackagedTrack(st: State, t: Track) {
    Written(t) && Knows(st, t)
  }

  function TrafOf(t: Track): Atom {
    Atom(TRAF, PackAll(t.boxes))
  }

  function TrafsOf(tracks: seq<Track>): seq<Atom> {
    if tracks == [] then [] else [TrafOf(tracks[0])] + TrafsOf(tracks[1..])
  }

  /** All tracks are written, and the fragment fits a 32-bit size. */
  predicate WrittenPackage(p: Package) {
    && p.tracks != [] && OfType(TRAF, p.boxes) == TrafsOf(p.tracks) && |PackAll(p.boxes)| + 8 < 0x1_0000_0000
    && forall t <- p.tracks :: Written(t)
  }

  predicate Packaged(st: State, p: Package) {
    WrittenPackage(p) && forall t <- p.tracks :: PackagedTrack(st, t)
  }

  function MoofOf(p: Package): Atom {
    Atom(MOOF, PackAll(p.boxes))
  }

  /** Sample `i` as the packager encrypts it. */
  function Secret(aes: Aes, t: Track, i: nat): (r: seq<byte>)
    requires Inverts(aes) && Written(t) && i < |t.plain|
    ensures |r| == |t.plain[i]|
    ensures var s := t.setup;
            DecryptedSample(aes, r, t.infos[i], s.key, s.scheme, s.crypt, s.skip, s.constantIv) == Some(t.plain[i])
  {
    var s := t.setup;
    assert Fit(t, i);
    SampleRoundTrip(aes, t.plain[i], t.infos[i], s.key, s.scheme, s.crypt, s.skip, s.constantIv);
    EncryptedSample(aes, t.plain[i], t.infos[i], s.key, s.scheme, s.crypt, s.skip, s.constantIv).value
  }

  function Secrets(aes: Aes, t: Track): (r: seq<seq<byte>>)
    requires Inverts(aes) && Written(t)
    ensures |r| == |t.plain| && forall i :: 0 <= i < |r| ==> |r[i]| == |t.plain[i]|
  {
    seq(|t.plain|, i requires 0 <= i < |t.plain| => Secret(aes, t, i))
  }

  // ----- Reading it -----

  /** What reading fragments does not change. */
  predicate SameSetup(a: State, b: State) {
    && a.keyMap == b.keyMap && a.extractedKids == b.extractedKids && a.trackSettings == b.trackSettings
    && a.scheme == b.scheme && a.crypt == b.crypt && a.skip == b.skip && a.constantIv == b.constantIv
    && a.defaultIvSize == b.defaultIvSize
  }

  lemma {:induction false} ScanSetup(scan: TrafScan, boxes: seq<Atom>)
    ensures SameSetup(ScanTraf(scan, boxes).st, scan.st) && ScanTraf(scan, boxes).st.trackInfos == scan.st.trackInfos
    decreases |boxes|
  {
    hide ReadTrun, ReadSenc, VectorSource, HasFlag;
    if boxes != [] {
      ScanSetup(ScanBox(scan, boxes[0]), boxes[1..]);
    }
  }

  lemma {:induction false} ScanNumber(scan: TrafScan, boxes: seq<Atom>, t: Tfhd)
    ensures Lacks(TFHD, boxes) ==>
              ScanTraf(scan, boxes).trackId == scan.trackId && ScanTraf(scan, boxes).defaultSize == scan.defaultSize
    ensures Sole(TFHD, boxes) == Some(Atom(TFHD, PackTfhd(t))) ==>
              && ScanTraf(scan, boxes).trackId == t.trackId
              && (HasFlag(t.flags, 0x10) ==> ScanTraf(scan, boxes).defaultSize == t.size)
    decreases |boxes|
  {
    hide ReadTrun, ReadSenc, VectorSource, AfterTfhd, PackTfhd, HasFlag;
    if boxes != [] {
      ScanNumber(ScanBox(scan, boxes[0]), boxes[1..], t);
      assert Lacks(TFHD, boxes) ==> boxes[0] in boxes && Lacks(TFHD, boxes[1..]);
      if boxes[0] == Atom(TFHD, PackTfhd(t)) {
        TfhdRoundTrip(scan.st, t, []);
        assert PackTfhd(t) + [] == PackTfhd(t);
      }
    }
  }

  lemma SameSource(a: State, b: State)
    requires SameSetup(a, b)
    ensures VectorSource(a) == VectorSource(b) && forall id: uint32 :: KeyForTrack(a, id) == KeyForTrack(b, id)
  {
  }

  lemma {:induction false} ScanInfos(scan: TrafScan, boxes: seq<Atom>)
    ensures Lacks(SENC, boxes) ==> ScanTraf(scan, boxes).sampleInfo == scan.sampleInfo
    ensures Sole(SENC, boxes).Some? ==>
              ScanTraf(scan, boxes).sampleInfo == ReadSenc(Sole(SENC, boxes).value.data, VectorSource(scan.st))
    decreases |boxes|
  {
    hide ReadTrun, ReadSenc, VectorSource, HasFlag, KeyForTrack;
    if boxes != [] {
      var next := ScanBox(scan, boxes[0]);
      SameSource(next.st, scan.st);
      ScanInfos(next, boxes[1..]);
      assert Lacks(SENC, boxes) ==> boxes[0] in boxes && Lacks(SENC, boxes[1..]);
    }
  }

  lemma {:induction false} SoleIsSoleRun(boxes: seq<Atom>)
    requires Sole(TRUN, boxes).Some?
    ensures SoleRun(boxes) == ReadTrun(Sole(TRUN, boxes).value.data)
  {
    hide ReadTrun;
    if boxes[0].atomType != TRUN {
      SoleIsSoleRun(boxes[1..]);
    }
  }

  /** The track the decrypter learns from a track fragment. */
  function TrackFor(st: State, t: Track, default: uint32): TrackInfo {
    var s := SettingsFor(st, t);
    TrackInfo(t.dataOffset, SizesOf(t.trunFlags, t.run), t.infos, KeyForTrack(st, t.tfhd.trackId), default,
              s.crypt, s.skip, s.constantIv)
  }

  predicate Learned(st: State, t: Track, info: TrackInfo) {
    && info == TrackFor(st, t, info.defaultSampleSize)
    && (HasFlag(t.tfhd.flags, 0x10) ==> info.defaultSampleSize == t.tfhd.size)
  }

  lemma TablesRead(t: Track)
    requires Tables(t)
    ensures SoleRun(t.boxes).Some? && SoleRun(t.boxes).value.dataOffset == t.dataOffset
    ensures SoleRun(t.boxes).value.sizes == SizesOf(t.trunFlags, t.run)
    ensures ReadSenc(Sole(SENC, t.boxes).value.data, t.setup.source) == t.infos
  {
    hide PackTrun, PackSenc, ReadTrun, ReadSenc, HasFlag, WellFormedEntry, SizesOf, VectorSource;
    SoleIsSoleRun(t.boxes);
    var run, senc := Sole(TRUN, t.boxes).value.data, Sole(SENC, t.boxes).value.data;
    TrunRoundTrip(t.trunFlags, t.dataOffset, t.firstFlags, t.run, []);
    SencRoundTrip(t.sencFlags, t.infos, t.setup.source, []);
    assert run + [] == run && senc + [] == senc;
  }

  lemma TrafRead(st: State, s0: State, t: Track)
    requires PackagedTrack(st, t) && SameSetup(s0, st)
    ensures var after := AfterTraf(s0, t.boxes);
            && SameSetup(after, st) && |after.trackInfos| == |s0.trackInfos| + 1
            && after.trackInfos[..|s0.trackInfos|] == s0.trackInfos && Learned(st, t, after.trackInfos[|s0.trackInfos|])
  {
    hide ReadTrun, ReadSenc, HasFlag, KeyForTrack, WellFormedEntry, MapFits, Sole, ScanTraf, SizesOf, VectorSource,
      Tables, Fit;
    var scan := TrafScan(s0, 0, 0, [], 0);
    TablesRead(t);
    TablesThere(t);
    ScanSetup(scan, t.boxes);
    ScanNumber(scan, t.boxes, t.tfhd);
    ScanInfos(scan, t.boxes);
    ScanSoleRun(scan, t.boxes);
    SameSource(s0, st);
    SameSource(ScanTraf(scan, t.boxes).st, st);
  }

  lemma TablesThere(t: Track)
    requires Tables(t)
    ensures Sole(SENC, t.boxes).Some? && Sole(TRUN, t.boxes).Some? && |t.infos| == |t.plain| > 0
    ensures Sole(TFHD, t.boxes) == Some(Atom(TFHD, PackTfhd(t.tfhd)))
  {
  }

  /** Every track fragment gives its track, in order. */
  lemma {:induction false} TrafsRead(st: State, s0: State, boxes: seq<Atom>, tracks: seq<Track>)
    requires SameSetup(s0, st) && OfType(TRAF, boxes) == TrafsOf(tracks) && |PackAll(boxes)| < 0x1_0000_0000
    requires forall t <- tracks :: PackagedTrack(st, t)
    ensures var after, n := AfterMoofChildren(s0, boxes), |s0.trackInfos|;
            && SameSetup(after, st) && |after.trackInfos| == n + |tracks| && after.trackInfos[..n] == s0.trackInfos
            && forall k :: 0 <= k < |tracks| ==> Learned(st, tracks[k], after.trackInfos[n + k])
    decreases |boxes|
  {
    hide PackagedTrack, Parse, Pack, AfterTraf, Learned, SameSetup;
    if boxes == [] {
      assert tracks == [];
    } else if boxes[0].atomType == TRAF {
      FirstTraf(boxes, tracks);
      var t := tracks[0];
      PackedFit(t.boxes);
      TrafRead(st, s0, t);
      var next := AfterTraf(s0, t.boxes);
      TrafsRead(st, next, boxes[1..], tracks[1..]);
      LearnedAll(st, tracks, s0.trackInfos, next.trackInfos, AfterMoofChildren(s0, boxes).trackInfos);
    } else {
      assert OfType(TRAF, boxes) == OfType(TRAF, boxes[1..]);
      TrafsRead(st, s0, boxes[1..], tracks);
    }
  }

  lemma {:induction false} FirstTraf(boxes: seq<Atom>, tracks: seq<Track>)
    requires boxes != [] && boxes[0].atomType == TRAF && OfType(TRAF, boxes) == TrafsOf(tracks)
    ensures tracks != [] && boxes[0] == TrafOf(tracks[0]) && OfType(TRAF, boxes[1..]) == TrafsOf(tracks[1..])
  {
    assert OfType(TRAF, boxes) == [boxes[0]] + OfType(TRAF, boxes[1..]) && tracks != [];
    assert TrafsOf(tracks) == [TrafOf(tracks[0])] + TrafsOf(tracks[1..]);
    assert OfType(TRAF, boxes)[1..] == OfType(TRAF, boxes[1..]) && TrafsOf(tracks)[1..] == TrafsOf(tracks[1..]);
  }

  lemma LearnedAll(st: State, tracks: seq<Track>, before: seq<TrackInfo>, next: seq<TrackInfo>, after: seq<TrackInfo>)
    requires tracks != [] && |next| == |before| + 1 && next[..|before|] == before
             && Learned(st, tracks[0], next[|before|])
    requires |after| == |before| + |tracks| && after[..|next|] == next
    requires forall k :: 0 <= k < |tracks[1..]| ==> Learned(st, tracks[1..][k], after[|next| + k])
    ensures after[..|before|] == before
    ensures forall k :: 0 <= k < |tracks| ==> Learned(st, tracks[k], after[|before| + k])
  {
    hide Learned;
    assert next[..|before|] == after[..|before|] && next[|before|] == after[|before|];
    forall k | 0 < k < |tracks| ensures Learned(st, tracks[k], after[|before| + k]) {
      assert tracks[1..][k - 1] == tracks[k] && after[|next| + (k - 1)] == after[|before| + k];
    }
  }

  /** The fragment is read, and gives one track for each of its track fragments. */
  lemma MoofRead(st: State, p: Package)
    requires Packaged(st, p)
    ensures Parse(MoofOf(p).data) == p.boxes
    ensures var after := AfterMoof(st, MoofOf(p));
            && after.scheme == st.scheme && |after.trackInfos| == |p.tracks|
            && forall k :: 0 <= k < |p.tracks| ==> Learned(st, p.tracks[k], after.trackInfos[k])
  {
    hide PackagedTrack, Parse, AfterMoofChildren, TotalOverhead, Learned, OfType, TrafsOf, PackAll;
    PackedFit(p.boxes);
    var s0 := st.(trackInfos := [], totalOverhead := TotalOverhead(p.boxes));
    TrafsRead(st, s0, p.boxes, p.tracks);
    assert forall k :: 0 <= k < |p.tracks| ==>
             AfterMoof(st, MoofOf(p)).trackInfos[0 + k] == AfterMoof(st, MoofOf(p)).trackInfos[k];
  }

  // ----- The samples come out -----

  /** Where the bytes of track `k` begin, and how many there are. */
  function PlaceOf(p: Package, payload: int, k: nat): int
    requires k < |p.tracks|
  {
    p.tracks[k].dataOffset - payload
  }

  function LengthOf(p: Package, k: nat): nat
    requires k < |p.tracks|
  {
    |Joined(p.tracks[k].plain)|
  }

  /** The media data, whose first byte has the offset `payload`, holds the encrypted samples of every track where its
      run says. The first track starts with that byte, and no two tracks share bytes. */
  predicate LaidOut(aes: Aes, p: Package, payload: int, data: seq<byte>)
    requires Inverts(aes) && WrittenPackage(p)
  {
    && (exists k :: 0 <= k < |p.tracks| && p.tracks[k].dataOffset == payload)
    && (forall k :: 0 <= k < |p.tracks| ==> 0 <= PlaceOf(p, payload, k) < 0x8000_0000)
    && (forall k :: 0 <= k < |p.tracks| ==> Holds(data, PlaceOf(p, payload, k), Joined(Secrets(aes, p.tracks[k]))))
    && forall k, l :: 0 <= k < |p.tracks| && 0 <= l < |p.tracks| && k != l ==> Separated(p, payload, k, l)
  }

  predicate Separated(p: Package, payload: int, k: nat, l: nat)
    requires k < |p.tracks| && l < |p.tracks|
  {
    || PlaceOf(p, payload, k) + LengthOf(p, k) <= PlaceOf(p, payload, l)
    || PlaceOf(p, payload, l) + LengthOf(p, l) <= PlaceOf(p, payload, k)
  }

  lemma {:induction false} SizesAreLengths(st: State, t: Track, info: TrackInfo, pieces: seq<seq<byte>>, i: nat)
    requires PackagedTrack(st, t) && Learned(st, t, info) && i <= |t.plain|
    requires |pieces| == |t.plain| && forall k :: 0 <= k < |pieces| ==> |pieces[k]| == |t.plain[k]|
    ensures SizesBefore(info, i) == |Joined(pieces[..i])|
    ensures i < |t.plain| ==> SizeOf(info, i) == |t.plain[i]|
  {
    hide WellFormedEntry, KeyForTrack, Fit, PackTrun, PackSenc, HasFlag, Sole;
    if i > 0 {
      SizesAreLengths(st, t, info, pieces, i - 1);
      assert pieces[..i] == pieces[..i - 1] + [pieces[i - 1]];
      JoinedMore(pieces[..i - 1], pieces[i - 1]);
    } else {
      assert pieces[..0] == [];
    }
  }

  lemma TrackFacts(st: State, t: Track, info: TrackInfo)
    requires PackagedTrack(st, t) && Learned(st, t, info)
    ensures Usable(info) && |info.sampleInfo| == |t.plain| && info.dataOffset == t.dataOffset
    ensures SizesBefore(info, |info.sampleInfo|) == |Joined(t.plain)|
  {
    hide WellFormedEntry, Fit, PackTrun, PackSenc, HasFlag, Sole;
    SizesAreLengths(st, t, info, t.plain, |t.plain|);
    assert t.plain[..|t.plain|] == t.plain;
  }

  lemma JobReadable(st: State, t: Track, info: TrackInfo, i: nat)
    requires PackagedTrack(st, t) && Learned(st, t, info) && i < |t.plain|
    ensures i < |info.sampleInfo| && MapFits(info.sampleInfo[i].subSamples, SizeOf(info, i)) && SizeOf(info, i) > 0
  {
    hide WellFormedEntry, PackTrun, PackSenc, HasFlag, Sole, MapFits, Restorable, NoOverflow, SizeOf;
    SizesAreLengths(st, t, info, t.plain, i);
    assert Fit(t, i);
  }

  /** The tracks learned from a fragment, whose media data is laid out, and where their bytes lie. */
  predicate Located(st: State, p: Package, payload: int, infos: seq<TrackInfo>)
    requires Packaged(st, p)
  {
    && |infos| == |p.tracks| && (forall k :: 0 <= k < |infos| ==> Learned(st, p.tracks[k], infos[k]))
    && forall k :: 0 <= k < |infos| ==>
         && StartOf(infos[k], FirstOffset(infos)) == PlaceOf(p, payload, k)
         && TrackEnd(infos[k], FirstOffset(infos)) == PlaceOf(p, payload, k) + LengthOf(p, k)
  }

  lemma TracksLocated(aes: Aes, st: State, p: Package, payload: int, data: seq<byte>)
    requires Inverts(aes) && Packaged(st, p) && LaidOut(aes, p, payload, data)
    ensures Located(st, p, payload, AfterMoof(st, MoofOf(p)).trackInfos)
  {
    hide AfterMoof, PackagedTrack, Learned, Parse, StartOf, FirstOffset, SizesBefore;
    MoofRead(st, p);
    var infos := AfterMoof(st, MoofOf(p)).trackInfos;
    forall k | 0 <= k < |infos|
      ensures infos[k].dataOffset == p.tracks[k].dataOffset
              && SizesBefore(infos[k], |infos[k].sampleInfo|) == LengthOf(p, k)
    {
      TrackFacts(st, p.tracks[k], infos[k]);
    }
    PlacesByNumber(infos, payload);
  }

  /** No two samples share bytes, and every one can be read. */
  lemma TracksApart(aes: Aes, st: State, p: Package, payload: int, data: seq<byte>, infos: seq<TrackInfo>)
    requires Inverts(aes) && Packaged(st, p) && LaidOut(aes, p, payload, data) && Located(st, p, payload, infos)
    ensures Compatible(AllJobs(infos, |data|)) && forall j <- AllJobs(infos, |data|) :: Readable(j)
  {
    hide PackagedTrack, Learned, StartOf, FirstOffset, TrackEnd, PlaceOf, LengthOf, Compatible, AllJobs, MapFits,
      SizesBefore, Secrets, SizeOf;
    var first := FirstOffset(infos);
    forall a <- infos, b <- infos
      ensures a == b || TrackEnd(a, first) <= StartOf(b, first) || TrackEnd(b, first) <= StartOf(a, first)
    {
      var k :| 0 <= k < |infos| && infos[k] == a;
      var l :| 0 <= l < |infos| && infos[l] == b;
      assert k != l ==> Separated(p, payload, k, l);
    }
    RangesApart(infos, |data|);
    forall j <- AllJobs(infos, |data|) ensures Readable(j) {
      AllJobsExactly(infos, |data|, j);
      var k :| 0 <= k < |infos| && infos[k] == j.track;
      TrackFacts(st, p.tracks[k], infos[k]);
      JobReadable(st, p.tracks[k], infos[k], j.at.index);
    }
  }

  lemma LocatedAt(st: State, p: Package, payload: int, infos: seq<TrackInfo>, k: nat)
    requires Packaged(st, p) && Located(st, p, payload, infos) && k < |p.tracks|
    ensures |infos| == |p.tracks| && infos[k] in infos && Learned(st, p.tracks[k], infos[k])
    ensures StartOf(infos[k], FirstOffset(infos)) == PlaceOf(p, payload, k) && PackagedTrack(st, p.tracks[k])
  {
    hide PackagedTrack, Learned, StartOf, FirstOffset, TrackEnd, PlaceOf, LengthOf;
  }

  /** One sample of one track. */
  lemma SampleDelivered(aes: Aes, st: State, p: Package, payload: int, data: seq<byte>, infos: seq<TrackInfo>, k: nat,
                        i: nat)
    requires Inverts(aes) && Packaged(st, p) && LaidOut(aes, p, payload, data) && Located(st, p, payload, infos)
    requires Compatible(AllJobs(infos, |data|)) && forall j <- AllJobs(infos, |data|) :: Readable(j)
    requires k < |p.tracks| && i < |p.tracks[k].plain|
    ensures var r := RunJobs(aes, st.scheme, AllJobs(infos, |data|), data, data);
            var at := PlaceOf(p, payload, k) + |Joined(p.tracks[k].plain[..i])|;
            && r.Some? && |r.value| == |data| && at >= 0 && Holds(r.value, at, p.tracks[k].plain[i])
  {
    hide Packaged, LaidOut, Located, PackagedTrack, Learned, StartOf, FirstOffset, Compatible, AllJobs, PlaceOf,
      Readable, RunJobs, DecryptedSample, Holds, Secrets;
    TrackLaid(aes, st, p, payload, data, k);
    LocatedAt(st, p, payload, infos, k);
    var t, info, r := p.tracks[k], infos[k], RunJobs(aes, st.scheme, AllJobs(infos, |data|), data, data);
    PieceDelivered(aes, st, t, infos, info, PlaceOf(p, payload, k), data, i);
  }

  lemma PieceDelivered(aes: Aes, st: State, t: Track, infos: seq<TrackInfo>, info: TrackInfo, pos: nat, data: seq<byte>,
                       i: nat)
    requires Inverts(aes) && PackagedTrack(st, t) && Written(t) && Learned(st, t, info) && info in infos
             && i < |t.plain|
    requires StartOf(info, FirstOffset(infos)) == pos && Holds(data, pos, Joined(Secrets(aes, t)))
    requires Compatible(AllJobs(infos, |data|)) && forall j <- AllJobs(infos, |data|) :: Readable(j)
    ensures var r := RunJobs(aes, st.scheme, AllJobs(infos, |data|), data, data);
            r.Some? && |r.value| == |data| && Holds(r.value, pos + |Joined(t.plain[..i])|, t.plain[i])
  {
    hide PackagedTrack, Written, Learned, StartOf, FirstOffset, Compatible, AllJobs, SizesBefore, SizeOf, RunJobs,
      DecryptedSample, Readable, MapFits, Secrets, Inverts;
    var secrets := Secrets(aes, t);
    TrackFacts(st, t, info);
    JobReadable(st, t, info, i);
    SizesAreLengths(st, t, info, secrets, i);
    SizesAreLengths(st, t, info, t.plain, i);
    var at, size := pos + SizesBefore(info, i), SizeOf(info, i);
    SecretAt(data, pos, secrets, i);
    assert Decryptable(info, FirstOffset(infos), |data|, i);
    EachSample(aes, st.scheme, infos, data, info, i);
    LearnedSettings(st, t, info);
    SecretReads(aes, t, i);
    assert data[at..at + size] == secrets[i];
  }

  lemma SecretReads(aes: Aes, t: Track, i: nat)
    requires Inverts(aes) && Written(t) && i < |t.plain|
    ensures var s := t.setup;
            i < |t.infos|
            && DecryptedSample(aes, Secrets(aes, t)[i], t.infos[i], s.key, s.scheme, s.crypt, s.skip, s.constantIv)
               == Some(t.plain[i])
  {
    hide Fit, DecryptedSample, Inverts, WellFormedEntry, PackTrun, PackSenc, PackTfhd, HasFlag, Sole;
    assert Secrets(aes, t)[i] == Secret(aes, t, i);
  }

  lemma LearnedSettings(st: State, t: Track, info: TrackInfo)
    requires PackagedTrack(st, t) && Learned(st, t, info)
    ensures var s := t.setup;
            && st.scheme == s.scheme && info.sampleInfo == t.infos && info.key == Some(s.key)
            && info.crypt == s.crypt && info.skip == s.skip && info.constantIv == s.constantIv
  {
    hide Written, KeyForTrack, VectorSource;
  }

  /** A piece of what lies at `pos`. */
  lemma SecretAt(data: seq<byte>, pos: nat, pieces: seq<seq<byte>>, i: nat)
    requires Holds(data, pos, Joined(pieces)) && i < |pieces|
    ensures var at := pos + |Joined(pieces[..i])|;
            at + |pieces[i]| <= |data| && data[at..at + |pieces[i]|] == pieces[i]
  {
    var whole := Joined(pieces);
    JoinedSlice(pieces, i);
    HoldsMeans(data, pos, whole);
    var a, n := |Joined(pieces[..i])|, |pieces[i]|;
    SliceOfSlice(data, pos, pos + |whole|, a, a + n);
  }

  /** Pieces that all stand in their places are there joined. */
  lemma PiecesHeld(r: seq<byte>, pos: nat, pieces: seq<seq<byte>>)
    requires pos + |Joined(pieces)| <= |r|
    requires forall i :: 0 <= i < |pieces| ==> Holds(r, pos + |Joined(pieces[..i])|, pieces[i])
    ensures Holds(r, pos, Joined(pieces))
  {
    var window := r[pos..pos + |Joined(pieces)|];
    forall i | 0 <= i < |pieces| ensures StandsAt(pieces, window, i) {
      JoinedSlice(pieces, i);
      var a, n := |Joined(pieces[..i])|, |pieces[i]|;
      HoldsMeans(r, pos + a, pieces[i]);
      SliceOfSlice(r, pos, pos + |Joined(pieces)|, a, a + n);
    }
    JoinedFromPieces(pieces, window);
  }

  predicate InTrack(p: Package, payload: int, i: nat) {
    exists k :: 0 <= k < |p.tracks| && PlaceOf(p, payload, k) <= i < PlaceOf(p, payload, k) + LengthOf(p, k)
  }

  /** End to end: behind a packaged fragment, media data that holds the encrypted samples of every track at the places
      the runs name is decrypted to the plain samples at the same places, and nothing else changes. */
  lemma PlainSamplesComeOut(aes: Aes, st: State, p: Package, payload: int, data: seq<byte>)
    requires Inverts(aes) && Packaged(st, p) && LaidOut(aes, p, payload, data)
    ensures var r := DecryptedMdat(aes, AfterMoof(st, MoofOf(p)), data);
            && r.Some? && |r.value| == |data|
            && (forall k :: 0 <= k < |p.tracks| ==>
                  PlaceOf(p, payload, k) >= 0 && Holds(r.value, PlaceOf(p, payload, k), Joined(p.tracks[k].plain)))
            && (forall i :: 0 <= i < |data| && !InTrack(p, payload, i) ==> r.value[i] == data[i])
  {
    hide PackagedTrack, Learned, StartOf, FirstOffset, TrackEnd, LengthOf, Compatible, AllJobs, SizesBefore, Located,
      RunJobs, Separated, Readable, AfterMoof, Parse, LaidOut, PlaceOf, InTrack;
    var infos := AfterMoof(st, MoofOf(p)).trackInfos;
    MoofRead(st, p);
    TracksLocated(aes, st, p, payload, data);
    TracksApart(aes, st, p, payload, data, infos);
    var r := RunJobs(aes, st.scheme, AllJobs(infos, |data|), data, data);
    JobsDecrypt(aes, st.scheme, AllJobs(infos, |data|), data, data);
    forall k | 0 <= k < |p.tracks|
      ensures PlaceOf(p, payload, k) >= 0 && Holds(r.value, PlaceOf(p, payload, k), Joined(p.tracks[k].plain))
    {
      TrackDelivered(aes, st, p, payload, data, infos, k);
    }
    forall i | 0 <= i < |data| && !InTrack(p, payload, i) ensures r.value[i] == data[i] {
      NotCovered(st, p, payload, infos, |data|, i);
    }
  }

  lemma TrackLaid(aes: Aes, st: State, p: Package, payload: int, data: seq<byte>, k: nat)
    requires Inverts(aes) && Packaged(st, p) && LaidOut(aes, p, payload, data) && k < |p.tracks|
    ensures PackagedTrack(st, p.tracks[k]) && Written(p.tracks[k]) && PlaceOf(p, payload, k) >= 0
    ensures Holds(data, PlaceOf(p, payload, k), Joined(Secrets(aes, p.tracks[k])))
  {
    hide PackagedTrack, Secrets, PlaceOf;
  }

  lemma TrackDelivered(aes: Aes, st: State, p: Package, payload: int, data: seq<byte>, infos: seq<TrackInfo>, k: nat)
    requires Inverts(aes) && Packaged(st, p) && LaidOut(aes, p, payload, data) && Located(st, p, payload, infos)
    requires Compatible(AllJobs(infos, |data|)) && forall j <- AllJobs(infos, |data|) :: Readable(j)
    requires k < |p.tracks|
    ensures var r := RunJobs(aes, st.scheme, AllJobs(infos, |data|), data, data);
            r.Some? && PlaceOf(p, payload, k) >= 0 && Holds(r.value, PlaceOf(p, payload, k), Joined(p.tracks[k].plain))
  {
    hide Packaged, LaidOut, Located, PackagedTrack, Written, Compatible, AllJobs, RunJobs, Readable, Secrets, PlaceOf,
      Holds;
    TrackLaid(aes, st, p, payload, data, k);
    var t, r, pos := p.tracks[k], RunJobs(aes, st.scheme, AllJobs(infos, |data|), data, data), PlaceOf(p, payload, k);
    JobsDecrypt(aes, st.scheme, AllJobs(infos, |data|), data, data);
    forall i | 0 <= i < |t.plain| ensures Holds(r.value, pos + |Joined(t.plain[..i])|, t.plain[i]) {
      SampleDelivered(aes, st, p, payload, data, infos, k, i);
    }
    SameLengths(Secrets(aes, t), t.plain);
    HoldsMeans(data, pos, Joined(Secrets(aes, t)));
    PiecesHeld(r.value, pos, t.plain);
  }

  lemma {:induction false} SameLengths(a: seq<seq<byte>>, b: seq<seq<byte>>)
    requires |a| == |b| && forall i :: 0 <= i < |a| ==> |a[i]| == |b[i]|
    ensures |Joined(a)| == |Joined(b)|
  {
    if a != [] {
      SameLengths(a[1..], b[1..]);
    }
  }

  lemma NotCovered(st: State, p: Package, payload: int, infos: seq<TrackInfo>, n: nat, i: nat)
    requires Packaged(st, p) && Located(st, p, payload, infos) && !InTrack(p, payload, i)
    ensures forall j <- AllJobs(infos, n) :: !Covers(j, i)
  {
    hide PackagedTrack, Learned, StartOf, FirstOffset, TrackEnd, LengthOf, AllJobs, SizesBefore, PlaceOf;
    forall j <- AllJobs(infos, n) ensures !Covers(j, i) {
      AllJobsExactly(infos, n, j);
      var k :| 0 <= k < |infos| && infos[k] == j.track;
      InsideTrack(j.track, FirstOffset(infos), j.at.index);
    }
  }

  // ----- The cleaned fragment names them -----

  lemma {:induction false} SoleKept(t: Fourcc, boxes: seq<Atom>) returns (r: nat)
    requires Sole(t, boxes).Some? && !Stripped(t)
    ensures r < |TrafKept(boxes)| && TrafKept(boxes)[r] == Sole(t, boxes).value
  {
    if boxes[0].atomType == t {
      r := 0;
    } else {
      r := SoleKept(t, boxes[1..]);
      if !Stripped(boxes[0].atomType) {
        r := r + 1;
      }
    }
  }

  lemma {:induction false} TrafFound(boxes: seq<Atom>, tracks: seq<Track>, k: nat) returns (t: nat)
    requires OfType(TRAF, boxes) == TrafsOf(tracks) && k < |tracks|
    ensures t < |boxes| && boxes[t] == TrafOf(tracks[k])
    decreases |boxes|
  {
    assert TrafsOf(tracks) != [];
    if boxes[0].atomType == TRAF {
      FirstTraf(boxes, tracks);
      if k == 0 {
        t := 0;
      } else {
        t := TrafFound(boxes[1..], tracks[1..], k - 1);
        t := t + 1;
      }
    } else {
      assert OfType(TRAF, boxes) == OfType(TRAF, boxes[1..]);
      t := TrafFound(boxes[1..], tracks, k);
      t := t + 1;
    }
  }

  /** Every track fragment among the boxes is that of a track. */
  lemma {:induction false} TrafIsTrack(boxes: seq<Atom>, tracks: seq<Track>, traf: Atom)
    requires OfType(TRAF, boxes) == TrafsOf(tracks) && traf in boxes && traf.atomType == TRAF
    ensures exists t <- tracks :: traf == TrafOf(t)
    decreases |boxes|
  {
    if boxes[0].atomType == TRAF {
      FirstTraf(boxes, tracks);
      if boxes[0] == traf {
        assert tracks[0] in tracks;
      } else {
        TrafIsTrack(boxes[1..], tracks[1..], traf);
      }
    } else {
      assert OfType(TRAF, boxes) == OfType(TRAF, boxes[1..]);
      TrafIsTrack(boxes[1..], tracks, traf);
    }
  }

  lemma {:induction false} NothingAdded(children: seq<Atom>, trackId: uint32)
    requires forall c <- children :: c.atomType == TRAF ==> HasTfhd(Parse(c.data))
    ensures Added(children, trackId) == 0
    decreases |children|
  {
    if children != [] {
      NothingAdded(children[1..], trackId);
    }
  }

  /** All boxes have 32-bit headers, and every track fragment has its `tfhd`. */
  lemma PlainFragment(st: State, p: Package, trackId: uint32)
    requires Packaged(st, p)
    ensures var moof := MoofOf(p);
            && Parse(moof.data) == p.boxes && TightFragment(moof) && Added(p.boxes, trackId) == 0
            && TotalOverhead(p.boxes) <= |Pack(moof)| && |moof.data| < 0x1_0000_0000
            && forall t <- p.tracks :: TrafOf(t) in p.boxes ==> Parse(TrafOf(t).data) == t.boxes
    ensures ReadableMoof(MoofOf(p))
  {
    hide PackagedTrack, Parse, PackAll, Pack, OfType, TrafsOf, TotalOverhead, Listable;
    var moof := MoofOf(p);
    PackedFit(p.boxes);
    FitPrintable(p.boxes);
    forall c <- p.boxes | c.atomType == TRAF ensures Tight(c.data) && HasTfhd(Parse(c.data)) && Lists(c.data) {
      TrafIsTrack(p.boxes, p.tracks, c);
      var t :| t in p.tracks && c == TrafOf(t);
      InsideMoof(p.boxes, c);
      PackedFit(t.boxes);
      FitPrintable(t.boxes);
      NumberedHasTfhd(st, t);
    }
    forall t <- p.tracks | TrafOf(t) in p.boxes ensures Parse(TrafOf(t).data) == t.boxes {
      InsideMoof(p.boxes, TrafOf(t));
      PackedFit(t.boxes);
    }
    NothingAdded(p.boxes, trackId);
    FragmentShrinks(moof, trackId);
  }

  lemma NumberedHasTfhd(st: State, t: Track)
    requires PackagedTrack(st, t)
    ensures HasTfhd(t.boxes)
  {
    hide Fit, KeyForTrack, Sole;
    assert Sole(TFHD, t.boxes).value in t.boxes;
  }

  lemma FitPrintable(boxes: seq<Atom>)
    requires |PackAll(boxes)| < 0x1_0000_0000
    ensures Lists(PackAll(boxes))
  {
    hide PackAll;
    PackedFit(boxes);
    PrintedLists(boxes, 0);
  }

  lemma InsideMoof(boxes: seq<Atom>, c: Atom)
    requires c in boxes && |PackAll(boxes)| < 0x1_0000_0000
    ensures |c.data| < 0x1_0000_0000
  {
    var i :| 0 <= i < |boxes| && boxes[i] == c;
    PartSize(boxes, i);
  }

  lemma TrunHead(st: State, t: Track)
    requires PackagedTrack(st, t)
    ensures var data := PackTrun(t.trunFlags, t.dataOffset, t.firstFlags, t.run);
            && |t.run| < 0x1_0000_0000 && |data| >= 12 && U32(data[..4]) == t.trunFlags
            && HasFlag(t.trunFlags, 0x1)
            && Sole(TRUN, t.boxes) == Some(Atom(TRUN, data))
            && ReadTrun(data).Some? && ReadTrun(data).value.dataOffset == t.dataOffset
  {
    hide HasFlag, PackTrunHeader, PackTrunSamples, WellFormedEntry, Fit, PackSenc, KeyForTrack, Sole, ReadTrun;
    var header := PackTrunHeader(t.trunFlags, |t.run|, t.dataOffset, t.firstFlags);
    var data := PackTrun(t.trunFlags, t.dataOffset, t.firstFlags, t.run);
    HoldsInside([], header, PackTrunSamples(t.trunFlags, t.run));
    assert [] + header + PackTrunSamples(t.trunFlags, t.run) == data;
    TrunHeaderRoundTrip(data, t.trunFlags, |t.run|, t.dataOffset, t.firstFlags);
    TrunRoundTrip(t.trunFlags, t.dataOffset, t.firstFlags, t.run, []);
    assert data + [] == data;
  }

  /** And the cleaned fragment names their places: the run of every track has the same offset from the first payload
      byte as before, wherever behind the fragment the media data begins. */
  lemma CleanedRunNamesThem(st: State, p: Package, k: nat, trackId: uint32, payload: int) returns (t: nat, r: nat)
    requires Packaged(st, p) && k < |p.tracks|
    requires |Pack(MoofOf(p))| <= payload <= p.tracks[k].dataOffset
    ensures var cleaned := CleanMoof(MoofOf(p), trackId);
            && t < |Parse(cleaned.data)| && r < |Parse(Parse(cleaned.data)[t].data)|
            && var run := Parse(Parse(cleaned.data)[t].data)[r];
               && run.atomType == TRUN && |run.data| >= 8
               && ReadTrun(run.data).value.dataOffset - (payload - (|Pack(MoofOf(p))| - |Pack(cleaned)|))
                  == PlaceOf(p, payload, k)
  {
    hide PackagedTrack, Parse, ReadTrun, PackAll, Pack, TrafKept, OfType, TrafsOf, TotalOverhead, CleanMoof,
      TightFragment, HasFlag, Sole, CleanedRun;
    var moof, track := MoofOf(p), p.tracks[k];
    PlainFragment(st, p, trackId);
    t := TrafFound(p.boxes, p.tracks, k);
    TrunHead(st, track);
    var r0 := SoleKept(TRUN, track.boxes);
    assert MovableRun(moof, t, r0);
    PlainConservation(moof, trackId, t, r0);
    CleanedIsRun(st, p, trackId, t, r0);
    r := CleanedRun(moof, trackId, t, r0);
  }

  lemma CleanedIsRun(st: State, p: Package, trackId: uint32, t: nat, r: nat)
    requires Packaged(st, p) && MovableRun(MoofOf(p), t, r)
    ensures var cleaned := CleanMoof(MoofOf(p), trackId);
            && t < |Parse(cleaned.data)| && CleanedRun(MoofOf(p), trackId, t, r) < |Parse(Parse(cleaned.data)[t].data)|
            && Parse(Parse(cleaned.data)[t].data)[CleanedRun(MoofOf(p), trackId, t, r)].atomType == TRUN
  {
    hide MovableRun, CleanMoof, Parse, ReadTrun, CleanedRun, PackagedTrack, TightFragment, PackAll, OfType, TrafsOf;
    PlainFragment(st, p, trackId);
    FragmentShrinks(MoofOf(p), trackId);
    OffsetConservation(MoofOf(p), trackId, t, r);
  }
}
