/** Reading and writing the per-sample tables of a fragment: `senc` and `trun` (src/drm/cenc.rs:540-667). */
module SampleTables {
  import opened Bytes
  import opened Samples

  // ----- senc -----

  /** Where each sample's initialization vector comes from. */
  datatype IvSource = PerSample(size: nat) | Constant(iv: seq<byte>)

  function PackSub(s: SubSample): (r: seq<byte>)
    ensures |r| == 6
  {
    ToBE(s.clear, 2) + ToBE(s.enc, 4)
  }

  function PackSubs(subs: seq<SubSample>): seq<byte> {
    if subs == [] then [] else PackSub(subs[0]) + PackSubs(subs[1..])
  }

  function PackSencEntry(info: SampleInfo, hasSubs: bool, source: IvSource): seq<byte> {
    (if source.PerSample? then info.iv else [])
    + if hasSubs then ToBE(|info.subSamples|, 2) + PackSubs(info.subSamples) else []
  }

  function PackSencEntries(infos: seq<SampleInfo>, hasSubs: bool, source: IvSource): seq<byte> {
    if infos == [] then []
    else PackSencEntry(infos[0], hasSubs, source) + PackSencEntries(infos[1..], hasSubs, source)
  }

  /** The payload of a `senc` box. */
  function PackSenc(versionFlags: uint32, infos: seq<SampleInfo>, source: IvSource): seq<byte> {
    ToBE(versionFlags, 4) + ToBE(|infos|, 4) + PackSencEntries(infos, HasFlag(versionFlags, 0x2), source)
  }

  /** Up to `n` subsamples at `pos`, and the position behind them. */
  function ReadSubs(data: seq<byte>, pos: nat, n: nat): (r: (seq<SubSample>, nat))
    requires pos <= |data|
    ensures pos <= r.1 <= |data|
    decreases n
  {
    if n == 0 || pos + 6 > |data| then ([], pos)
    else
      var (rest, end) := ReadSubs(data, pos + 6, n - 1);
      ([SubSample(U16(data[pos..pos + 2]), U32(data[pos + 2..pos + 6]))] + rest, end)
  }

  /** The entry at `pos` and the position behind it; `None` if its vector is cut off. */
  function ReadSencEntry(data: seq<byte>, pos: nat, hasSubs: bool, source: IvSource): (r: Option<(SampleInfo, nat)>)
    requires pos <= |data|
    ensures r.Some? ==> pos <= r.value.1 <= |data|
  {
    if source.PerSample? && pos + source.size > |data| then None
    else
      var iv := if source.PerSample? then data[pos..pos + source.size] else source.iv;
      var at := if source.PerSample? then pos + source.size else pos;
      if hasSubs && at + 2 <= |data| then
        var (subs, end) := ReadSubs(data, at + 2, U16(data[at..at + 2]));
        Some((SampleInfo(true, iv, subs), end))
      else
        Some((SampleInfo(true, iv, []), at))
  }

  function ReadSencEntries(data: seq<byte>, pos: nat, n: nat, hasSubs: bool, source: IvSource): seq<SampleInfo>
    requires pos <= |data|
    decreases n
  {
    if n == 0 then []
    else
      match ReadSencEntry(data, pos, hasSubs, source)
      case None => []
      case Some((info, next)) => [info] + ReadSencEntries(data, next, n - 1, hasSubs, source)
  }

  /** The per-sample entries of a `senc` payload. */
  function ReadSenc(data: seq<byte>, source: IvSource): seq<SampleInfo> {
    if |data| < 8 then []
    else ReadSencEntries(data, 8, U32(data[4..8]), HasFlag(U32(data[..4]), 0x2), source)
  }

  lemma EntriesStep(data: seq<byte>, pos: nat, n: nat, hasSubs: bool, source: IvSource)
    requires pos <= |data|
    ensures n == 0 ==> ReadSencEntries(data, pos, n, hasSubs, source) == []
    ensures n > 0 ==>
              ReadSencEntries(data, pos, n, hasSubs, source)
              == match ReadSencEntry(data, pos, hasSubs, source)
                 case None => []
                 case Some((info, next)) => [info] + ReadSencEntries(data, next, n - 1, hasSubs, source)
  {
  }

  /** The inner loop: subsamples that no longer fit are passed over. */
  method ParseSubs(data: seq<byte>, start: nat, ssCount: nat) returns (subSamples: seq<SubSample>, pos: nat)
    requires start <= |data|
    ensures subSamples == ReadSubs(data, start, ssCount).0 && pos == ReadSubs(data, start, ssCount).1
  {
    subSamples, pos := [], start;
    for j := 0 to ssCount
      invariant start <= pos <= |data|
      invariant ReadSubs(data, start, ssCount).0 == subSamples + ReadSubs(data, pos, ssCount - j).0
      invariant ReadSubs(data, start, ssCount).1 == ReadSubs(data, pos, ssCount - j).1
    {
      if pos + 6 <= |data| {
        var sub := SubSample(U16(data[pos..pos + 2]), U32(data[pos + 2..pos + 6]));
        AppendAssoc(subSamples, [sub], ReadSubs(data, pos + 6, ssCount - j - 1).0);
        subSamples := subSamples + [sub];
        pos := pos + 6;
      }
    }
  }

  /** One round of the outer loop. */
  method ParseSencEntry(data: seq<byte>, start: nat, hasSubs: bool, source: IvSource)
    returns (r: Option<(SampleInfo, nat)>)
    requires start <= |data|
    ensures r == ReadSencEntry(data, start, hasSubs, source)
  {
    var pos := start;
    var iv;
    match source {
      case Constant(civ) => iv := civ;
      case PerSample(size) =>
        if pos + size > |data| {
          return None;
        }
        iv := data[pos..pos + size];
        pos := pos + size;
    }
    var subSamples: seq<SubSample> := [];
    if hasSubs && pos + 2 <= |data| {
      var ssCount := U16(data[pos..pos + 2]);
      subSamples, pos := ParseSubs(data, pos + 2, ssCount);
    }
    r := Some((SampleInfo(true, iv, subSamples), pos));
  }

  method ParseSenc(data: seq<byte>, source: IvSource) returns (samples: seq<SampleInfo>)
    ensures samples == ReadSenc(data, source)
  {
    if |data| < 8 {
      return [];
    }
    var flags := U32(data[..4]);
    var pos := 4;
    var sc := U32(data[pos..pos + 4]);
    pos := pos + 4;
    samples := [];
    hide ReadSencEntries;
    for i := 0 to sc
      invariant 8 <= pos <= |data|
      invariant samples + ReadSencEntries(data, pos, sc - i, HasFlag(flags, 0x2), source)
                == ReadSenc(data, source)
    {
      EntriesStep(data, pos, sc - i, HasFlag(flags, 0x2), source);
      var entry := ParseSencEntry(data, pos, HasFlag(flags, 0x2), source);
      if entry == None {
        return;
      }
      var (info, next) := entry.value;
      AppendAssoc(samples, [info], ReadSencEntries(data, next, sc - (i + 1), HasFlag(flags, 0x2), source));
      samples := samples + [info];
      pos := next;
    }
    EntriesStep(data, pos, 0, HasFlag(flags, 0x2), source);
  }

  /** What a packager may write under one box: vectors of the announced size, tables short enough for their counts. */
  predicate WellFormedEntry(info: SampleInfo, hasSubs: bool, source: IvSource) {
    && info.isEncrypted
    && (if source.PerSample? then |info.iv| == source.size else info.iv == source.iv)
    && (if hasSubs then |info.subSamples| < 0x1_0000 else info.subSamples == [])
  }

  lemma {:induction false} SubsRoundTrip(data: seq<byte>, pos: nat, subs: seq<SubSample>)
    requires Holds(data, pos, PackSubs(subs))
    ensures ReadSubs(data, pos, |subs|) == (subs, pos + |PackSubs(subs)|)
    decreases |subs|
  {
    if subs != [] {
      var first, rest := subs[0], PackSubs(subs[1..]);
      HoldsSplit(data, pos, PackSub(first), rest);
      HoldsSplit(data, pos, ToBE(first.clear, 2), ToBE(first.enc, 4));
      SubsRoundTrip(data, pos + 6, subs[1..]);
      Pow256Values();
      FromBEToBEFits(first.clear, 2);
      FromBEToBEFits(first.enc, 4);
      assert [first] + subs[1..] == subs;
    }
  }

  /** The subsample table of one entry. */
  lemma SubTableRoundTrip(data: seq<byte>, at: nat, subs: seq<SubSample>)
    requires |subs| < 0x1_0000
    requires Holds(data, at, ToBE(|subs|, 2) + PackSubs(subs))
    ensures at + 2 <= |data| && U16(data[at..at + 2]) == |subs|
    ensures ReadSubs(data, at + 2, |subs|) == (subs, at + 2 + |PackSubs(subs)|)
  {
    HoldsSplit(data, at, ToBE(|subs|, 2), PackSubs(subs));
    SubsRoundTrip(data, at + 2, subs);
    Pow256Values();
    FromBEToBEFits(|subs|, 2);
  }

  lemma SencEntryRoundTrip(data: seq<byte>, pos: nat, info: SampleInfo, hasSubs: bool, source: IvSource)
    requires WellFormedEntry(info, hasSubs, source)
    requires Holds(data, pos, PackSencEntry(info, hasSubs, source))
    ensures ReadSencEntry(data, pos, hasSubs, source)
            == Some((info, pos + |PackSencEntry(info, hasSubs, source)|))
  {
    hide PackSubs, ReadSubs, ToBE, FromBE;
    var iv := if source.PerSample? then info.iv else [];
    if hasSubs {
      HoldsSplit(data, pos, iv, ToBE(|info.subSamples|, 2) + PackSubs(info.subSamples));
      SubTableRoundTrip(data, pos + |iv|, info.subSamples);
    } else {
      HoldsSplit(data, pos, iv, []);
    }
  }

  lemma {:induction false} SencEntriesRoundTrip(data: seq<byte>, pos: nat, infos: seq<SampleInfo>, hasSubs: bool,
                                                source: IvSource)
    requires forall info <- infos :: WellFormedEntry(info, hasSubs, source)
    requires Holds(data, pos, PackSencEntries(infos, hasSubs, source))
    ensures ReadSencEntries(data, pos, |infos|, hasSubs, source) == infos
    decreases |infos|
  {
    hide Holds, PackSencEntry, ReadSencEntry, WellFormedEntry, ReadSencEntries;
    HoldsMeans(data, pos, PackSencEntries(infos, hasSubs, source));
    EntriesStep(data, pos, |infos|, hasSubs, source);
    if infos != [] {
      var first, rest := infos[0], infos[1..];
      HoldsSplit(data, pos, PackSencEntry(first, hasSubs, source), PackSencEntries(rest, hasSubs, source));
      SencEntryRoundTrip(data, pos, first, hasSubs, source);
      SencEntriesRoundTrip(data, pos + |PackSencEntry(first, hasSubs, source)|, rest, hasSubs, source);
      assert [first] + rest == infos;
    }
  }

  /** Reading a written `senc` gives its entries back, for every count, flag, vector source and subsample list,
      whatever bytes follow the table. */
  lemma SencRoundTrip(versionFlags: uint32, infos: seq<SampleInfo>, source: IvSource, back: seq<byte>)
    requires |infos| < 0x1_0000_0000
    requires forall info <- infos :: WellFormedEntry(info, HasFlag(versionFlags, 0x2), source)
    ensures ReadSenc(PackSenc(versionFlags, infos, source) + back, source) == infos
  {
    var hasSubs := HasFlag(versionFlags, 0x2);
    var a, b, c := ToBE(versionFlags, 4), ToBE(|infos|, 4), PackSencEntries(infos, hasSubs, source);
    var data := PackSenc(versionFlags, infos, source) + back;
    HoldsInside([], a + b + c, back);
    assert [] + (a + b + c) + back == data;
    HoldsSplit(data, 0, a + b, c);
    HoldsSplit(data, 0, a, b);
    Pow256Values();
    FromBEToBEFits(versionFlags, 4);
    FromBEToBEFits(|infos|, 4);
    SencEntriesRoundTrip(data, 8, infos, hasSubs, source);
  }

  // ----- Truncated senc -----

  /** The cursor after `i` entries read from `pos`. */
  function SencCursor(data: seq<byte>, pos: nat, i: nat, hasSubs: bool, source: IvSource): (end: nat)
    requires pos <= |data|
    ensures pos <= end <= |data|
    decreases i
  {
    if i == 0 then pos
    else
      match ReadSencEntry(data, pos, hasSubs, source)
      case None => pos
      case Some((_, next)) => SencCursor(data, next, i - 1, hasSubs, source)
  }

  lemma {:induction false} CutSubs(data: seq<byte>, k: nat, pos: nat, n: nat)
    requires pos <= k <= |data| && ReadSubs(data, pos, n).1 <= k
    ensures ReadSubs(data[..k], pos, n) == ReadSubs(data, pos, n)
    decreases n
  {
    if n > 0 && pos + 6 <= |data| {
      SliceOfSlice(data, 0, k, pos, pos + 2);
      SliceOfSlice(data, 0, k, pos + 2, pos + 6);
      CutSubs(data, k, pos + 6, n - 1);
    }
  }

  lemma CutEntry(data: seq<byte>, k: nat, pos: nat, hasSubs: bool, source: IvSource)
    requires pos <= k <= |data|
    requires var r := ReadSencEntry(data, pos, hasSubs, source); r.Some? && r.value.1 <= k
    ensures ReadSencEntry(data[..k], pos, hasSubs, source) == ReadSencEntry(data, pos, hasSubs, source)
  {
    var at := if source.PerSample? then pos + source.size else pos;
    if source.PerSample? {
      SliceOfSlice(data, 0, k, pos, at);
    }
    if hasSubs && at + 2 <= |data| {
      SliceOfSlice(data, 0, k, at, at + 2);
      CutSubs(data, k, at + 2, U16(data[at..at + 2]));
    }
  }

  lemma {:induction false} CutEntries(data: seq<byte>, k: nat, pos: nat, n: nat, i: nat, hasSubs: bool,
                                      source: IvSource)
    requires pos <= k <= |data| && i <= |ReadSencEntries(data, pos, n, hasSubs, source)|
    requires SencCursor(data, pos, i, hasSubs, source) <= k
    ensures i <= |ReadSencEntries(data[..k], pos, n, hasSubs, source)|
    ensures ReadSencEntries(data[..k], pos, n, hasSubs, source)[..i]
            == ReadSencEntries(data, pos, n, hasSubs, source)[..i]
    decreases i
  {
    hide ReadSencEntry, ReadSencEntries;
    EntriesStep(data, pos, n, hasSubs, source);
    EntriesStep(data[..k], pos, n, hasSubs, source);
    if i > 0 {
      var (info, next) := ReadSencEntry(data, pos, hasSubs, source).value;
      CutEntry(data, k, pos, hasSubs, source);
      CutEntries(data, k, next, n - 1, i - 1, hasSubs, source);
      var whole', cut' := ReadSencEntries(data, next, n - 1, hasSubs, source),
          ReadSencEntries(data[..k], next, n - 1, hasSubs, source);
      assert ([info] + whole')[..i] == [info] + whole'[..i - 1] && ([info] + cut')[..i] == [info] + cut'[..i - 1];
    }
  }

  /** Cutting a `senc` short leaves every entry that ends before the cut as it was. */
  lemma TruncatedSenc(data: seq<byte>, k: nat, i: nat, source: IvSource)
    requires 8 <= k <= |data| && i <= |ReadSenc(data, source)|
    requires SencCursor(data, 8, i, HasFlag(U32(data[..4]), 0x2), source) <= k
    ensures i <= |ReadSenc(data[..k], source)|
    ensures ReadSenc(data[..k], source)[..i] == ReadSenc(data, source)[..i]
  {
    SliceOfSlice(data, 0, k, 0, 4);
    SliceOfSlice(data, 0, k, 4, 8);
    CutEntries(data, k, 8, U32(data[4..8]), i, HasFlag(U32(data[..4]), 0x2), source);
  }

  // ----- trun -----

  const DATA_OFFSET := 0x1
  const FIRST_FLAGS := 0x4
  const DURATION := 0x100
  const SIZE := 0x200
  const SAMPLE_FLAGS := 0x400
  const TIME_OFFSET := 0x800

  type int32 = x: int | -0x8000_0000 <= x < 0x8000_0000

  datatype TrunSample = TrunSample(duration: uint32, size: uint32, flags: uint32, timeOffset: uint32)

  datatype TrunRead = TrunRead(sampleCount: uint32, dataOffset: int32, sizes: seq<uint32>)

  /** A field that is present only under its flag. */
  function Field(flags: nat, mask: nat, value: nat): seq<byte>
    requires mask > 0
  {
    if HasFlag(flags, mask) then ToBE(value, 4) else []
  }

  function FieldSize(flags: nat, mask: nat): nat
    requires mask > 0
  {
    if HasFlag(flags, mask) then 4 else 0
  }

  /** The fields of one sample, in the order and under the flags of ISO/IEC 14496-12, section 8.8.8. */
  function PackTrunSample(flags: nat, s: TrunSample): seq<byte> {
    Field(flags, 0x100, s.duration) + Field(flags, 0x200, s.size)
    + (Field(flags, 0x400, s.flags) + Field(flags, 0x800, s.timeOffset))
  }

  function PackTrunSamples(flags: nat, samples: seq<TrunSample>): seq<byte> {
    if samples == [] then [] else PackTrunSample(flags, samples[0]) + PackTrunSamples(flags, samples[1..])
  }

  /** Where the size field of a sample starting at `at` is, and where the next sample starts. */
  function SizeAt(flags: nat, at: nat): nat {
    at + FieldSize(flags, DURATION)
  }

  function NextAt(flags: nat, at: nat): nat {
    SizeAt(flags, at) + FieldSize(flags, SIZE) + FieldSize(flags, SAMPLE_FLAGS) + FieldSize(flags, TIME_OFFSET)
  }

  function ReadSize(data: seq<byte>, flags: nat, at: nat): uint32 {
    if HasFlag(flags, SIZE) && SizeAt(flags, at) + 4 <= |data| then U32(data[SizeAt(flags, at)..SizeAt(flags, at) + 4])
    else 0
  }

  function ReadSizes(data: seq<byte>, flags: nat, at: nat, n: nat): (r: seq<uint32>)
    ensures |r| == n
    decreases n
  {
    if n == 0 then [] else [ReadSize(data, flags, at)] + ReadSizes(data, flags, NextAt(flags, at), n - 1)
  }

  /** What a `trun` payload says; `None` for one too short to hold its counts. */
  function ReadTrun(data: seq<byte>): Option<TrunRead> {
    if |data| < 8 then None
    else
      var flags, count := U32(data[..4]), U32(data[4..8]);
      var offset := if HasFlag(flags, DATA_OFFSET) && 12 <= |data| then AsI32(U32(data[8..12])) else 0;
      var start := 8 + FieldSize(flags, DATA_OFFSET) + FieldSize(flags, FIRST_FLAGS);
      Some(TrunRead(count, offset, ReadSizes(data, flags, start, count)))
  }

  method ParseTrun(data: seq<byte>) returns (r: Option<TrunRead>)
    ensures r == ReadTrun(data)
  {
    if |data| < 8 {
      return None;
    }
    var flags := U32(data[..4]);
    var sampleCount := U32(data[4..8]);
    var parseOffset := 8;
    var dataOffset := 0;
    if HasFlag(flags, DATA_OFFSET) {
      if parseOffset + 4 <= |data| {
        dataOffset := AsI32(U32(data[parseOffset..parseOffset + 4]));
      }
      parseOffset := parseOffset + 4;
    }
    if HasFlag(flags, FIRST_FLAGS) {
      parseOffset := parseOffset + 4;
    }
    var sizes := ParseSizes(data, flags, parseOffset, sampleCount);
    r := Some(TrunRead(sampleCount, dataOffset, sizes));
  }

  lemma SizesStep(data: seq<byte>, flags: nat, at: nat, n: nat)
    ensures ReadSizes(data, flags, at, n)
            == if n == 0 then [] else [ReadSize(data, flags, at)] + ReadSizes(data, flags, NextAt(flags, at), n - 1)
  {
  }

  method ParseSizes(data: seq<byte>, flags: nat, start: nat, sampleCount: nat) returns (sizes: seq<uint32>)
    ensures sizes == ReadSizes(data, flags, start, sampleCount)
  {
    hide HasFlag, ReadSizes;
    SizesStep(data, flags, start, sampleCount);
    sizes := [];
    var parseOffset := start;
    for i := 0 to sampleCount
      invariant 0 <= parseOffset
      invariant sizes + ReadSizes(data, flags, parseOffset, sampleCount - i)
                == ReadSizes(data, flags, start, sampleCount)
    {
      ghost var at := parseOffset;
      SizesStep(data, flags, at, sampleCount - i);
      if HasFlag(flags, DURATION) {
        parseOffset := parseOffset + 4;
      }
      var size := 0;
      if HasFlag(flags, SIZE) {
        if parseOffset + 4 <= |data| {
          size := U32(data[parseOffset..parseOffset + 4]);
        }
        parseOffset := parseOffset + 4;
      }
      AppendAssoc(sizes, [size], ReadSizes(data, flags, NextAt(flags, at), sampleCount - i - 1));
      sizes := sizes + [size];
      if HasFlag(flags, SAMPLE_FLAGS) {
        parseOffset := parseOffset + 4;
      }
      if HasFlag(flags, TIME_OFFSET) {
        parseOffset := parseOffset + 4;
      }
    }
    SizesStep(data, flags, parseOffset, 0);
  }

  /** The sizes a run of samples announces: nothing but zeros without the size flag. */
  function SizesOf(flags: nat, samples: seq<TrunSample>): (r: seq<uint32>)
    ensures |r| == |samples|
  {
    seq(|samples|, i requires 0 <= i < |samples| => if HasFlag(flags, 0x200) then samples[i].size else 0)
  }

  lemma SizeRoundTrip(data: seq<byte>, flags: nat, at: nat, s: TrunSample)
    requires Holds(data, at, PackTrunSample(flags, s))
    ensures ReadSize(data, flags, at) == if HasFlag(flags, 0x200) then s.size else 0
    ensures at + |PackTrunSample(flags, s)| == NextAt(flags, at)
  {
    hide HasFlag;
    var a, b := Field(flags, 0x100, s.duration), Field(flags, 0x200, s.size);
    HoldsSplit(data, at, a + b, Field(flags, 0x400, s.flags) + Field(flags, 0x800, s.timeOffset));
    HoldsSplit(data, at, a, b);
    Pow256Values();
    FromBEToBEFits(s.size, 4);
  }

  lemma {:induction false} SizesRoundTrip(data: seq<byte>, flags: nat, at: nat, samples: seq<TrunSample>)
    requires Holds(data, at, PackTrunSamples(flags, samples))
    ensures ReadSizes(data, flags, at, |samples|) == SizesOf(flags, samples)
    decreases |samples|
  {
    hide HasFlag, Holds, PackTrunSample, ReadSize, NextAt, ReadSizes;
    SizesStep(data, flags, at, |samples|);
    if samples != [] {
      var rest := samples[1..];
      HoldsSplit(data, at, PackTrunSample(flags, samples[0]), PackTrunSamples(flags, rest));
      SizeRoundTrip(data, flags, at, samples[0]);
      SizesRoundTrip(data, flags, NextAt(flags, at), rest);
      assert SizesOf(flags, samples) == [ReadSize(data, flags, at)] + SizesOf(flags, rest);
    }
  }

  /** The counts and the two optional fields in front of the samples. */
  function PackTrunHeader(flags: uint32, count: uint32, dataOffset: int32, firstFlags: uint32): (r: seq<byte>)
    ensures |r| == 8 + FieldSize(flags, 0x1) + FieldSize(flags, 0x4)
  {
    ToBE(flags, 4) + ToBE(count, 4)
    + (Field(flags, 0x1, dataOffset % 0x1_0000_0000) + Field(flags, 0x4, firstFlags))
  }

  lemma TrunHeaderRoundTrip(data: seq<byte>, flags: uint32, count: uint32, dataOffset: int32, firstFlags: uint32)
    requires Holds(data, 0, PackTrunHeader(flags, count, dataOffset, firstFlags))
    ensures |data| >= 8 && U32(data[..4]) == flags && U32(data[4..8]) == count
    ensures HasFlag(flags, 0x1) ==> |data| >= 12 && AsI32(U32(data[8..12])) == dataOffset
  {
    hide HasFlag, ToBE, FromBE;
    var a, b := ToBE(flags, 4), ToBE(count, 4);
    var c, d := Field(flags, 0x1, dataOffset % 0x1_0000_0000), Field(flags, 0x4, firstFlags);
    HoldsSplit(data, 0, a + b, c + d);
    HoldsSplit(data, 0, a, b);
    HoldsSplit(data, 8, c, d);
    Pow256Values();
    FromBEToBEFits(flags, 4);
    FromBEToBEFits(count, 4);
    FromBEToBEFits(dataOffset % 0x1_0000_0000, 4);
  }

  /** The payload of a `trun` box. */
  function PackTrun(flags: uint32, dataOffset: int32, firstFlags: uint32, samples: seq<TrunSample>): seq<byte>
    requires |samples| < 0x1_0000_0000
  {
    PackTrunHeader(flags, |samples|, dataOffset, firstFlags) + PackTrunSamples(flags, samples)
  }

  /** Reading a written `trun` gives count, offset and sizes back under every combination of flags. */
  lemma TrunRoundTrip(flags: uint32, dataOffset: int32, firstFlags: uint32, samples: seq<TrunSample>, back: seq<byte>)
    requires |samples| < 0x1_0000_0000
    ensures ReadTrun(PackTrun(flags, dataOffset, firstFlags, samples) + back)
            == Some(TrunRead(|samples|, if HasFlag(flags, 0x1) then dataOffset else 0, SizesOf(flags, samples)))
  {
    hide HasFlag, PackTrunHeader, PackTrunSamples, ToBE, FromBE, ReadSizes, AsI32;
    var header, e := PackTrunHeader(flags, |samples|, dataOffset, firstFlags), PackTrunSamples(flags, samples);
    var data := PackTrun(flags, dataOffset, firstFlags, samples) + back;
    HoldsInside([], header + e, back);
    assert [] + (header + e) + back == data;
    HoldsSplit(data, 0, header, e);
    TrunHeaderRoundTrip(data, flags, |samples|, dataOffset, firstFlags);
    SizesRoundTrip(data, flags, |header|, samples);
  }

  // ----- Repairing a trun's data offset -----

  /** A `trun` payload whose data offset, if it has one, is moved back by `overhead` bytes. The machine does this
      in 32 bits: the overhead is truncated and the difference wraps. */
  function ShiftTrun(data: seq<byte>, overhead: nat): (r: seq<byte>)
    ensures |r| == |data|
  {
    if |data| >= 12 && HasFlag(U32(data[..4]), DATA_OFFSET) then
      data[..8] + ToBE((U32(data[8..12]) - overhead) % 0x1_0000_0000, 4) + data[12..]
    else
      data
  }

  /** Masking to 24 bits keeps each flag below. */
  lemma MaskedFlag(flags: nat, mask: nat, half: nat)
    requires mask > 0 && mask * (2 * half) == 0x100_0000
    ensures HasFlag(flags % 0x100_0000, mask) == HasFlag(flags, mask)
  {
    var q, r := flags / 0x100_0000, flags % 0x100_0000;
    var k := half * q;
    assert mask * (2 * k) == 0x100_0000 * q by {
      assert mask * (2 * k) == mask * (2 * half) * q;
    }
    ModUnique(flags, mask, 2 * k + r / mask, r % mask) by {
      assert mask * (2 * k + r / mask) == mask * (2 * k) + mask * (r / mask);
    }
    ModShift(r / mask, 2, k);
  }

  /** Signed 32-bit subtraction is subtraction of the bit patterns. */
  lemma WrappedDifference(x: nat, y: nat)
    ensures AsI32(AsI32(x) - AsI32(y)) % 0x1_0000_0000 == (x - y) % 0x1_0000_0000
  {
    var m := 0x1_0000_0000;
    var a, b := AsI32(x), AsI32(y);
    var i, j := (x - a) / m, (y - b) / m;
    assert x == a + m * i && y == b + m * j;
    ModShift(a - b, m, i - j);
  }

  method ModifyTrun(data: seq<byte>, overhead: nat) returns (r: seq<byte>)
    ensures r == ShiftTrun(data, overhead)
  {
    hide HasFlag, AsI32;
    r := data;
    if |data| < 12 {
      return;
    }
    var flags := U32(data[..4]) % 0x100_0000;
    MaskedFlag(U32(data[..4]), DATA_OFFSET, 0x80_0000);
    if HasFlag(flags, DATA_OFFSET) {
      var current := AsI32(U32(data[8..12]));
      var newOffset := AsI32(current - AsI32(overhead));
      WrappedDifference(U32(data[8..12]), overhead);
      r := data[..8] + ToBE(newOffset % 0x1_0000_0000, 4) + data[12..];
    }
  }

  /** Only the offset changes, by exactly the overhead, as long as the difference fits 32 bits. */
  lemma ShiftedTrun(data: seq<byte>, overhead: nat)
    requires |data| >= 12
    ensures var before, after := ReadTrun(data).value, ReadTrun(ShiftTrun(data, overhead)).value;
            && after.sampleCount == before.sampleCount && after.sizes == before.sizes
            && (if HasFlag(U32(data[..4]), DATA_OFFSET) then
                  && (after.dataOffset - (before.dataOffset - overhead)) % 0x1_0000_0000 == 0
                  && (after.dataOffset == before.dataOffset - overhead
                      <==> before.dataOffset - overhead >= -0x8000_0000)
                else after.dataOffset == before.dataOffset == 0)
  {
    hide HasFlag, AsI32;
    var after := ShiftTrun(data, overhead);
    assert after[..4] == data[..4] && after[4..8] == data[4..8];
    var flags := U32(data[..4]);
    if HasFlag(flags, DATA_OFFSET) {
      var x := (U32(data[8..12]) - overhead) % 0x1_0000_0000;
      assert after[8..12] == ToBE(x, 4) && after[12..] == data[12..];
      assert FromBE(after[8..12]) == x by {
        Pow256Values();
        FromBEToBEFits(x, 4);
      }
      ShiftedOffset(U32(data[8..12]), overhead);
      SizesAfterHeader(data, after, flags, 12 + FieldSize(flags, FIRST_FLAGS), U32(data[4..8]));
    }
  }

  lemma ShiftedOffset(x: uint32, overhead: nat)
    ensures var before, after := AsI32(x), AsI32((x - overhead) % 0x1_0000_0000);
            && (after - (before - overhead)) % 0x1_0000_0000 == 0
            && (after == before - overhead <==> before - overhead >= -0x8000_0000)
  {
    var m := 0x1_0000_0000;
    var before, after := AsI32(x), AsI32((x - overhead) % m);
    var i, j := (x - before) / m, (x - overhead) / m;
    var k := ((x - overhead) % m - after) / m;
    assert x == before + m * i;
    assert x - overhead == m * j + (x - overhead) % m;
    assert (x - overhead) % m == after + m * k;
    ModShift(0, m, i - j - k);
  }

  /** The sizes are read from behind the offset field. */
  lemma {:induction false} SizesAfterHeader(data: seq<byte>, after: seq<byte>, flags: nat, at: nat, n: nat)
    requires |data| == |after| && |data| >= 12 && data[12..] == after[12..] && at >= 12
    ensures ReadSizes(data, flags, at, n) == ReadSizes(after, flags, at, n)
    decreases n
  {
    hide HasFlag;
    if n > 0 {
      var p := SizeAt(flags, at);
      if p + 4 <= |data| {
        SuffixSlice(data, 12, p - 12, p - 8);
        SuffixSlice(after, 12, p - 12, p - 8);
      }
      SizesAfterHeader(data, after, flags, NextAt(flags, at), n - 1);
    }
  }

  lemma ShiftTwice(data: seq<byte>, overhead: nat)
    ensures ShiftTrun(ShiftTrun(data, overhead), 0) == ShiftTrun(data, overhead)
  {
    var after := ShiftTrun(data, overhead);
    if |data| >= 12 && HasFlag(U32(data[..4]), DATA_OFFSET) {
      assert after[..4] == data[..4];
      ToBEFromBE(after[8..12]);
      assert after == after[..8] + after[8..12] + after[12..];
    }
  }
}
