/** Decrypting one sample through its subsample map (src/drm/cenc.rs:888-1075). */
module Samples {
  import opened Bytes
  import opened Cipher
  import opened Pattern

  /** Clear bytes followed by protected bytes. */
  datatype SubSample = SubSample(clear: uint16, enc: uint32)

  datatype SampleInfo = SampleInfo(isEncrypted: bool, iv: seq<byte>, subSamples: seq<SubSample>)

  datatype EncScheme = Cenc | Cens | Cbc1 | Cbcs

  function BlocksFor(n: nat): nat {
    (n + 15) / 16
  }

  /** An initialization vector of any length, cut or zero-filled to one block. */
  function PadIv(iv: seq<byte>): Block {
    if |iv| >= 16 then iv[..16] else iv + seq(16 - |iv|, _ => 0)
  }

  // ----- The subsample map -----

  /** Bytes described by a list of subsamples. */
  function Span(subs: seq<SubSample>): nat {
    if subs == [] then 0 else subs[0].clear + subs[0].enc + Span(subs[1..])
  }

  /** Every clear range ends inside a sample of `n` bytes. */
  predicate MapFits(subs: seq<SubSample>, n: nat) {
    forall i :: 0 <= i < |subs| ==> Span(subs[..i]) + subs[i].clear <= n
  }

  /** Work on one protected range, given how many cipher blocks lie before it. */
  type Piecewise = (seq<byte>, nat) -> seq<byte>

  ghost predicate LengthPreserving(f: Piecewise) {
    forall piece: seq<byte>, offset: nat :: |f(piece, offset)| == |piece|
  }

  /** `f` over the protected ranges of what is left of a sample, `offset` blocks in. The rest of the sample
      after the last range is protected too when `tail` is set. `None`: a range starts behind the sample's end. */
  function Walk(sample: seq<byte>, subs: seq<SubSample>, offset: nat, f: Piecewise, tail: bool): Option<seq<byte>>
    decreases |subs|
  {
    if subs == [] then
      Some(if sample == [] || !tail then sample else f(sample, offset))
    else if subs[0].clear > |sample| then None
    else
      var body := sample[subs[0].clear..];
      var taken := Min(subs[0].enc, |body|);
      if taken < subs[0].enc && |subs| > 1 then None
      else
        match Walk(body[taken..], subs[1..], offset + BlocksFor(subs[0].enc), f, tail)
        case None => None
        case Some(rest) => Some(sample[..subs[0].clear] + f(body[..taken], offset) + rest)
  }

  /** Which bytes of a sample of `n` bytes are protected. */
  function Mask(subs: seq<SubSample>, n: nat, tail: bool): (m: seq<bool>)
    ensures |m| == n
    decreases |subs|
  {
    if subs == [] then seq(n, _ => tail)
    else
      var clear := Min(subs[0].clear, n);
      var enc := Min(subs[0].enc, n - clear);
      seq(clear, _ => false) + seq(enc, _ => true) + Mask(subs[1..], n - clear - enc, tail)
  }

  /** The bytes of `s` that `mask` marks. */
  function Gather<T>(s: seq<T>, mask: seq<bool>): seq<T>
    requires |s| == |mask|
  {
    if s == [] then [] else (if mask[0] then [s[0]] else []) + Gather(s[1..], mask[1..])
  }

  /** `s` with its marked bytes replaced, in order, by those of `marked`. */
  function Scatter(s: seq<byte>, mask: seq<bool>, marked: seq<byte>): (r: seq<byte>)
    requires |s| == |mask| && |marked| == |Gather(s, mask)|
    ensures |r| == |s|
  {
    if s == [] then []
    else if mask[0] then [marked[0]] + Scatter(s[1..], mask[1..], marked[1..])
    else [s[0]] + Scatter(s[1..], mask[1..], marked)
  }

  // ----- Laws of the walk, for any length-preserving work on the ranges -----

  lemma MapFitsStep(subs: seq<SubSample>, n: nat)
    requires subs != []
    ensures MapFits(subs, n)
            <==> subs[0].clear <= n
                 && (|subs| == 1 || (subs[0].clear + subs[0].enc <= n
                                     && MapFits(subs[1..], n - subs[0].clear - subs[0].enc)))
  {
    var first, rest := subs[0], subs[1..];
    forall i | 0 <= i < |rest| ensures Span(subs[..i + 1]) == first.clear + first.enc + Span(rest[..i]) {
      assert subs[..i + 1][1..] == rest[..i];
    }
    assert Span(subs[..0]) == 0;
    if |subs| > 1 {
      assert Span(rest[..0]) == 0;
      if MapFits(subs, n) {
        assert Span(subs[..1]) + subs[1].clear <= n;
        forall i | 0 <= i < |rest| ensures Span(rest[..i]) + rest[i].clear <= n - first.clear - first.enc {
          assert Span(subs[..i + 1]) + subs[i + 1].clear <= n;
        }
      }
      if first.clear + first.enc <= n && MapFits(rest, n - first.clear - first.enc) {
        forall i | 0 <= i < |subs| ensures Span(subs[..i]) + subs[i].clear <= n {
          if i > 0 {
            assert rest[i - 1] == subs[i];
            assert Span(rest[..i - 1]) + rest[i - 1].clear <= n - first.clear - first.enc;
          }
        }
      }
    }
  }

  /** May a walk start with `a` clear bytes and the protected range `x`, before `rest`? */
  predicate Starts(subs: seq<SubSample>, a: seq<byte>, x: seq<byte>, rest: seq<byte>) {
    && subs != [] && |a| == subs[0].clear
    && (|x| == subs[0].enc || (|x| < subs[0].enc && |subs| == 1 && rest == []))
  }

  lemma WalkStep(subs: seq<SubSample>, a: seq<byte>, x: seq<byte>, rest: seq<byte>, offset: nat, f: Piecewise,
                 tail: bool)
    requires Starts(subs, a, x, rest)
    ensures var sample := a + x + rest;
            Walk(sample, subs, offset, f, tail)
            == match Walk(rest, subs[1..], offset + BlocksFor(subs[0].enc), f, tail)
               case None => None
               case Some(r) => Some(a + f(x, offset) + r)
    ensures Mask(subs, |a + x + rest|, tail)
            == seq(|a|, _ => false) + seq(|x|, _ => true) + Mask(subs[1..], |rest|, tail)
    ensures MapFits(subs, |a + x + rest|) <==> MapFits(subs[1..], |rest|)
  {
    var sample := a + x + rest;
    assert sample[..|a|] == a && sample[|a|..] == x + rest;
    assert (x + rest)[..|x|] == x && (x + rest)[|x|..] == rest;
    MapFitsStep(subs, |sample|);
  }

  /** A sample that the first subsample fits can be cut that way. */
  lemma WalkCut(sample: seq<byte>, subs: seq<SubSample>) returns (a: seq<byte>, x: seq<byte>, rest: seq<byte>)
    requires subs != [] && subs[0].clear <= |sample|
    requires |subs| == 1 || subs[0].clear + subs[0].enc <= |sample|
    ensures sample == a + x + rest && Starts(subs, a, x, rest)
  {
    var body := sample[subs[0].clear..];
    var taken := Min(subs[0].enc, |body|);
    a, x, rest := sample[..subs[0].clear], body[..taken], body[taken..];
  }

  /** `r` may differ from `s` only where `mask` marks. */
  predicate KeepsClear(r: seq<byte>, s: seq<byte>, mask: seq<bool>) {
    |r| == |s| == |mask| && forall i :: 0 <= i < |s| && !mask[i] ==> r[i] == s[i]
  }

  lemma KeepsClearStep(a: seq<byte>, x: seq<byte>, rest: seq<byte>, x': seq<byte>, rest': seq<byte>, mask: seq<bool>)
    requires |x'| == |x| && KeepsClear(rest', rest, mask)
    ensures KeepsClear(a + x' + rest', a + x + rest, seq(|a|, _ => false) + seq(|x|, _ => true) + mask)
  {
    var whole := seq(|a|, _ => false) + seq(|x|, _ => true) + mask;
    forall i | 0 <= i < |whole| && !whole[i] ensures (a + x' + rest')[i] == (a + x + rest)[i] {
      if i >= |a| + |x| {
        var j := i - |a| - |x|;
        assert whole[i] == mask[j] && rest'[j] == rest[j];
      }
    }
  }

  /** The walk succeeds exactly when the map fits; then it keeps the length and every clear byte. */
  lemma {:induction false} WalkExact(sample: seq<byte>, subs: seq<SubSample>, offset: nat, f: Piecewise, tail: bool)
    requires LengthPreserving(f)
    ensures Walk(sample, subs, offset, f, tail).Some? <==> MapFits(subs, |sample|)
    ensures Walk(sample, subs, offset, f, tail).Some? ==>
              KeepsClear(Walk(sample, subs, offset, f, tail).value, sample, Mask(subs, |sample|, tail))
    decreases |subs|
  {
    if subs == [] {
      assert |f(sample, offset)| == |sample|;
    } else {
      MapFitsStep(subs, |sample|);
      if subs[0].clear <= |sample| && (|subs| == 1 || subs[0].clear + subs[0].enc <= |sample|) {
        hide Walk, Mask, MapFits, KeepsClear;
        var a, x, rest := WalkCut(sample, subs);
        var walked := Walk(rest, subs[1..], offset + BlocksFor(subs[0].enc), f, tail);
        WalkStep(subs, a, x, rest, offset, f, tail);
        WalkExact(rest, subs[1..], offset + BlocksFor(subs[0].enc), f, tail);
        assert |f(x, offset)| == |x|;
        if walked.Some? {
          KeepsClearStep(a, x, rest, f(x, offset), walked.value, Mask(subs[1..], |rest|, tail));
        }
      }
    }
  }

  /** If `g` undoes `f` on every range, walking with `g` undoes walking with `f`. */
  lemma {:induction false} WalkInverts(sample: seq<byte>, subs: seq<SubSample>, offset: nat, f: Piecewise, g: Piecewise,
                                       tail: bool)
    requires LengthPreserving(f)
    requires forall piece: seq<byte>, o: nat :: g(f(piece, o), o) == piece
    requires MapFits(subs, |sample|)
    ensures var walked := Walk(sample, subs, offset, f, tail);
            walked.Some? && Walk(walked.value, subs, offset, g, tail) == Some(sample)
    decreases |subs|
  {
    if subs == [] {
      assert |f(sample, offset)| == |sample|;
    } else {
      MapFitsStep(subs, |sample|);
      hide Walk, Mask, MapFits;
      var a, x, rest := WalkCut(sample, subs);
      var next := offset + BlocksFor(subs[0].enc);
      WalkStep(subs, a, x, rest, offset, f, tail);
      WalkInverts(rest, subs[1..], next, f, g, tail);
      WalkExact(rest, subs[1..], next, f, tail);
      assert |f(x, offset)| == |x|;
      WalkStep(subs, a, f(x, offset), Walk(rest, subs[1..], next, f, tail).value, offset, g, tail);
    }
  }

  // ----- The four schemes -----

  function CencPiece(aes: Aes, key: Key, iv: Block): Piecewise {
    (piece: seq<byte>, offset: nat) => CtrWithOffset(aes, key, iv, piece, offset)
  }

  function Cbc1Piece(aes: Aes, key: Key, iv: Block): Piecewise {
    (piece: seq<byte>, offset: nat) => CbcFullBlocks(aes, key, iv, piece)
  }

  function CbcsPiece(aes: Aes, key: Key, iv: Block, crypt: nat, skip: nat): Piecewise {
    (piece: seq<byte>, offset: nat) => CbcsDec(aes, key, iv, crypt, skip, piece)
  }

  function CbcsIv(info: SampleInfo, constantIv: Option<seq<byte>>): Block {
    PadIv(if constantIv.Some? then constantIv.value else info.iv)
  }

  /** What `decrypt_sample` yields; `None` stands for the slice that aborts the program. */
  function DecryptedSample(aes: Aes, sample: seq<byte>, info: SampleInfo, key: Key, scheme: EncScheme,
                           crypt: nat, skip: nat, constantIv: Option<seq<byte>>): Option<seq<byte>>
  {
    if !info.isEncrypted then Some(sample)
    else
      match scheme
      case Cbcs =>
        if info.subSamples == [] then Some(CbcsDec(aes, key, CbcsIv(info, constantIv), crypt, skip, sample))
        else Walk(sample, info.subSamples, 0, CbcsPiece(aes, key, CbcsIv(info, constantIv), crypt, skip), false)
      case Cbc1 =>
        if info.subSamples == [] then Some(CbcFullBlocks(aes, key, PadIv(info.iv), sample))
        else Walk(sample, info.subSamples, 0, Cbc1Piece(aes, key, PadIv(info.iv)), false)
      case _ =>
        Walk(sample, info.subSamples, 0, CencPiece(aes, key, PadIv(info.iv)), true)
  }

  // ----- The loops over the subsample map -----

  function Prepend(front: seq<byte>, rest: Option<seq<byte>>): Option<seq<byte>> {
    match rest
    case None => None
    case Some(r) => Some(front + r)
  }

  /** What is still to come when a loop stands at byte `pos` before subsample `k`. */
  function Resume(sample: seq<byte>, subs: seq<SubSample>, k: nat, pos: nat, offset: nat, f: Piecewise,
                  tail: bool): Option<seq<byte>>
    requires k <= |subs|
  {
    if pos <= |sample| then Walk(sample[pos..], subs[k..], offset, f, tail)
    else if k == |subs| then Some([])
    else None
  }

  /** The clear and the protected slice of one subsample at `pos`; `None` if one starts behind the end. */
  function RangesAt(sample: seq<byte>, pos: nat, sub: SubSample): (r: Option<(seq<byte>, seq<byte>)>) {
    var encStart := pos + sub.clear;
    if encStart > |sample| then None
    else Some((sample[pos..encStart], sample[encStart..Min(encStart + sub.enc, |sample|)]))
  }

  lemma ResumeStep(sample: seq<byte>, subs: seq<SubSample>, k: nat, pos: nat, offset: nat, f: Piecewise, tail: bool)
    requires k < |subs|
    ensures Resume(sample, subs, k, pos, offset, f, tail)
            == match RangesAt(sample, pos, subs[k])
               case None => None
               case Some((clearBytes, encData)) =>
                 Prepend(clearBytes + f(encData, offset),
                         Resume(sample, subs, k + 1, pos + subs[k].clear + subs[k].enc, offset + BlocksFor(subs[k].enc),
                                f, tail))
  {
    hide Walk;
    assert subs[k..][0] == subs[k] && subs[k..][1..] == subs[k + 1..];
    var clear, enc := subs[k].clear, subs[k].enc;
    if pos + clear <= |sample| {
      var encEnd := Min(pos + clear + enc, |sample|);
      WalkFirst(sample[pos..], subs[k..], offset, f, tail);
      Suffix(sample, pos, clear);
      SuffixSlice(sample, pos, clear, encEnd - pos);
      Suffix(sample, pos, encEnd - pos);
      if pos + clear + enc > |sample| && k + 1 == |subs| {
        assert sample[encEnd..] == [] && subs[k + 1..] == [];
        WalkEnded(offset + BlocksFor(enc), f, tail);
      }
    } else if pos <= |sample| {
      WalkFirst(sample[pos..], subs[k..], offset, f, tail);
    }
  }

  /** The first range of a walk. */
  lemma WalkFirst(sample: seq<byte>, subs: seq<SubSample>, offset: nat, f: Piecewise, tail: bool)
    requires subs != []
    ensures var clear := subs[0].clear;
            var end := Min(clear + subs[0].enc, |sample|);
            Walk(sample, subs, offset, f, tail)
            == if clear > |sample| || (end < clear + subs[0].enc && |subs| > 1) then None
               else
                 Prepend(sample[..clear] + f(sample[clear..end], offset),
                         Walk(sample[end..], subs[1..], offset + BlocksFor(subs[0].enc), f, tail))
  {
    hide Mask, MapFits, BlocksFor;
    var clear := subs[0].clear;
    if clear <= |sample| {
      var body := sample[clear..];
      var taken := Min(subs[0].enc, |body|);
      Suffix(sample, clear, taken);
      assert Min(clear + subs[0].enc, |sample|) == clear + taken;
    }
  }

  lemma WalkEnded(offset: nat, f: Piecewise, tail: bool)
    ensures Walk([], [], offset, f, tail) == Some([])
  {
  }

  /** One round of a loop that has produced `before` and is to produce `whole`. */
  lemma LoopRound(before: seq<byte>, whole: Option<seq<byte>>, sample: seq<byte>, subs: seq<SubSample>, k: nat,
                  pos: nat, offset: nat, f: Piecewise, tail: bool)
    requires k < |subs|
    requires Prepend(before, Resume(sample, subs, k, pos, offset, f, tail)) == whole
    ensures match RangesAt(sample, pos, subs[k])
            case None => whole == None
            case Some((clearBytes, encData)) =>
              whole == Prepend(before + clearBytes + f(encData, offset),
                               Resume(sample, subs, k + 1, pos + subs[k].clear + subs[k].enc,
                                      offset + BlocksFor(subs[k].enc), f, tail))
  {
    hide Resume;
    ResumeStep(sample, subs, k, pos, offset, f, tail);
    match RangesAt(sample, pos, subs[k]) {
      case None =>
      case Some((clearBytes, encData)) =>
        var rest := Resume(sample, subs, k + 1, pos + subs[k].clear + subs[k].enc, offset + BlocksFor(subs[k].enc), f,
                           tail);
        if rest.Some? {
          AppendAssoc(before, clearBytes, f(encData, offset));
          AppendAssoc(before, clearBytes + f(encData, offset), rest.value);
        }
    }
  }

  lemma LoopEnd(before: seq<byte>, sample: seq<byte>, subs: seq<SubSample>, pos: nat, offset: nat, f: Piecewise,
                tail: bool)
    ensures Prepend(before, Resume(sample, subs, |subs|, pos, offset, f, tail))
            == Some(if pos >= |sample| then before
                    else if tail then before + f(sample[pos..], offset)
                    else before + sample[pos..])
  {
    assert before + [] == before;
  }

  lemma LoopStart(sample: seq<byte>, subs: seq<SubSample>, f: Piecewise, tail: bool)
    ensures Prepend([], Resume(sample, subs, 0, 0, 0, f, tail)) == Walk(sample, subs, 0, f, tail)
  {
    assert sample[0..] == sample && subs[0..] == subs;
    var walked := Walk(sample, subs, 0, f, tail);
    if walked.Some? {
      assert [] + walked.value == walked.value;
    }
  }

  /** The two slices each loop takes per subsample. */
  method TakeRanges(sample: seq<byte>, pos: nat, sub: SubSample) returns (r: Option<(seq<byte>, seq<byte>)>)
    ensures r == RangesAt(sample, pos, sub)
  {
    var end := Min(pos + sub.clear, |sample|);
    if pos > end {
      return None;
    }
    var clearBytes := sample[pos..end];
    var encStart := pos + sub.clear;
    var encEnd := Min(encStart + sub.enc, |sample|);
    if encStart > encEnd {
      return None;
    }
    r := Some((clearBytes, sample[encStart..encEnd]));
  }

  /** The loop of `DecryptSampleCenc`. */
  method WalkCenc(aes: Aes, sample: seq<byte>, subSamples: seq<SubSample>, key: Key, iv: Block)
    returns (r: Option<seq<byte>>)
    ensures r == Walk(sample, subSamples, 0, CencPiece(aes, key, iv), true)
  {
    hide Walk, Resume, Prepend, RangesAt, PadIv, BlocksFor, CtrWithOffset;
    ghost var f := CencPiece(aes, key, iv);
    ghost var whole := Walk(sample, subSamples, 0, f, true);
    var result: seq<byte> := [];
    var pos, offsetBlocks := 0, 0;
    LoopStart(sample, subSamples, f, true);
    for k := 0 to |subSamples|
      invariant 0 <= pos && 0 <= offsetBlocks
      invariant Prepend(result, Resume(sample, subSamples, k, pos, offsetBlocks, f, true)) == whole
    {
      LoopRound(result, whole, sample, subSamples, k, pos, offsetBlocks, f, true);
      var SubSample(clear, enc) := subSamples[k];
      var ranges := TakeRanges(sample, pos, subSamples[k]);
      if ranges == None {
        return None;
      }
      var (clearBytes, encData) := ranges.value;
      var decrypted := CtrWithOffset(aes, key, iv, encData, offsetBlocks);
      assert decrypted == f(encData, offsetBlocks);
      result := result + clearBytes + decrypted;
      offsetBlocks := offsetBlocks + BlocksFor(enc);
      pos := pos + clear + enc;
    }
    LoopEnd(result, sample, subSamples, pos, offsetBlocks, f, true);
    if pos < |sample| {
      result := result + CtrWithOffset(aes, key, iv, sample[pos..], offsetBlocks);
    }
    r := Some(result);
  }

  method DecryptSampleCenc(aes: Aes, sample: seq<byte>, info: SampleInfo, key: Key) returns (r: Option<seq<byte>>)
    ensures r == Walk(sample, info.subSamples, 0, CencPiece(aes, key, PadIv(info.iv)), true)
  {
    var iv := PadIv(info.iv);
    if info.subSamples == [] {
      return Some(CtrWithOffset(aes, key, iv, sample, 0));
    }
    r := WalkCenc(aes, sample, info.subSamples, key, iv);
  }

  /** The loop of `DecryptSampleCbc1`. */
  method WalkCbc1(aes: Aes, sample: seq<byte>, subSamples: seq<SubSample>, key: Key, iv: Block)
    returns (r: Option<seq<byte>>)
    ensures r == Walk(sample, subSamples, 0, Cbc1Piece(aes, key, iv), false)
  {
    hide Walk, Resume, Prepend, RangesAt, PadIv, BlocksFor, CbcFullBlocks;
    ghost var f := Cbc1Piece(aes, key, iv);
    ghost var whole := Walk(sample, subSamples, 0, f, false);
    var result: seq<byte> := [];
    var pos := 0;
    ghost var offset := 0;
    LoopStart(sample, subSamples, f, false);
    for k := 0 to |subSamples|
      invariant 0 <= pos && 0 <= offset
      invariant Prepend(result, Resume(sample, subSamples, k, pos, offset, f, false)) == whole
    {
      LoopRound(result, whole, sample, subSamples, k, pos, offset, f, false);
      var SubSample(clear, enc) := subSamples[k];
      var ranges := TakeRanges(sample, pos, subSamples[k]);
      if ranges == None {
        return None;
      }
      var (clearBytes, encData) := ranges.value;
      var decrypted := CbcFullBlocks(aes, key, iv, encData);
      result := result + clearBytes + decrypted;
      offset := offset + BlocksFor(enc);
      pos := pos + clear + enc;
    }
    LoopEnd(result, sample, subSamples, pos, offset, f, false);
    if pos < |sample| {
      result := result + sample[pos..];
    }
    r := Some(result);
  }

  method DecryptSampleCbc1(aes: Aes, sample: seq<byte>, info: SampleInfo, key: Key) returns (r: Option<seq<byte>>)
    ensures r == if info.subSamples == [] then Some(CbcFullBlocks(aes, key, PadIv(info.iv), sample))
                 else Walk(sample, info.subSamples, 0, Cbc1Piece(aes, key, PadIv(info.iv)), false)
  {
    var iv := PadIv(info.iv);
    if info.subSamples == [] {
      return Some(CbcFullBlocks(aes, key, iv, sample));
    }
    r := WalkCbc1(aes, sample, info.subSamples, key, iv);
  }

  /** The loop of `DecryptSampleCbcs`. */
  method WalkCbcs(aes: Aes, sample: seq<byte>, subSamples: seq<SubSample>, key: Key, iv: Block, crypt: nat, skip: nat)
    returns (r: Option<seq<byte>>)
    ensures r == Walk(sample, subSamples, 0, CbcsPiece(aes, key, iv, crypt, skip), false)
  {
    hide Walk, Resume, Prepend, RangesAt, PadIv, BlocksFor, CbcsDec;
    ghost var f := CbcsPiece(aes, key, iv, crypt, skip);
    ghost var whole := Walk(sample, subSamples, 0, f, false);
    var result: seq<byte> := [];
    var pos := 0;
    ghost var offset := 0;
    LoopStart(sample, subSamples, f, false);
    for k := 0 to |subSamples|
      invariant 0 <= pos && 0 <= offset
      invariant Prepend(result, Resume(sample, subSamples, k, pos, offset, f, false)) == whole
    {
      LoopRound(result, whole, sample, subSamples, k, pos, offset, f, false);
      var SubSample(clear, enc) := subSamples[k];
      var ranges := TakeRanges(sample, pos, subSamples[k]);
      if ranges == None {
        return None;
      }
      var (clearBytes, encData) := ranges.value;
      var decrypted := DecryptCbcsPattern(aes, encData, key, iv, crypt, skip);
      result := result + clearBytes + decrypted;
      offset := offset + BlocksFor(enc);
      pos := pos + clear + enc;
    }
    LoopEnd(result, sample, subSamples, pos, offset, f, false);
    if pos < |sample| {
      result := result + sample[pos..];
    }
    r := Some(result);
  }

  method DecryptSampleCbcs(aes: Aes, sample: seq<byte>, info: SampleInfo, key: Key, crypt: nat, skip: nat,
                           constantIv: Option<seq<byte>>)
    returns (r: Option<seq<byte>>)
    ensures r == if info.subSamples == [] then Some(CbcsDec(aes, key, CbcsIv(info, constantIv), crypt, skip, sample))
                 else Walk(sample, info.subSamples, 0, CbcsPiece(aes, key, CbcsIv(info, constantIv), crypt, skip),
                           false)
  {
    var iv: Block;
    if constantIv.Some? {
      iv := PadIv(constantIv.value);
    } else {
      iv := PadIv(info.iv);
    }
    if info.subSamples == [] {
      var all := DecryptCbcsPattern(aes, sample, key, iv, crypt, skip);
      return Some(all);
    }
    r := WalkCbcs(aes, sample, info.subSamples, key, iv, crypt, skip);
  }

  method DecryptSample(aes: Aes, sample: seq<byte>, info: SampleInfo, key: Key, scheme: EncScheme,
                       crypt: nat, skip: nat, constantIv: Option<seq<byte>>)
    returns (r: Option<seq<byte>>)
    ensures r == DecryptedSample(aes, sample, info, key, scheme, crypt, skip, constantIv)
  {
    if !info.isEncrypted {
      return Some(sample);
    }
    match scheme {
      case Cbcs => r := DecryptSampleCbcs(aes, sample, info, key, crypt, skip, constantIv);
      case Cbc1 => r := DecryptSampleCbc1(aes, sample, info, key);
      case _ => r := DecryptSampleCenc(aes, sample, info, key);
    }
  }

  // ----- What sample decryption guarantees -----

  predicate CounterMode(scheme: EncScheme) {
    scheme == Cenc || scheme == Cens
  }

  /** Which bytes a scheme may change: with a map the protected ranges, and in counter mode what follows them. */
  function ProtectedMask(info: SampleInfo, scheme: EncScheme, n: nat): (m: seq<bool>)
    ensures |m| == n
  {
    if !info.isEncrypted then seq(n, _ => false)
    else Mask(info.subSamples, n, CounterMode(scheme) || info.subSamples == [])
  }

  /** Under every scheme: decryption goes through exactly when the map fits the sample, and then the length
      and every clear byte are kept. */
  lemma SampleDecryption(aes: Aes, sample: seq<byte>, info: SampleInfo, key: Key, scheme: EncScheme,
                         crypt: nat, skip: nat, constantIv: Option<seq<byte>>)
    ensures var r := DecryptedSample(aes, sample, info, key, scheme, crypt, skip, constantIv);
            && (r.Some? <==> !info.isEncrypted || MapFits(info.subSamples, |sample|))
            && (r.Some? ==> KeepsClear(r.value, sample, ProtectedMask(info, scheme, |sample|)))
  {
    hide Walk, Mask, MapFits, KeepsClear, PadIv, CbcsIv, CbcsDec, CbcFullBlocks;
    if !info.isEncrypted {
      AllClear(sample);
    } else {
      if info.subSamples == [] {
        NoMap(|sample|);
        WholeMasked(sample, CbcsDec(aes, key, CbcsIv(info, constantIv), crypt, skip, sample));
        WholeMasked(sample, CbcFullBlocks(aes, key, PadIv(info.iv), sample));
      }
      WalkExact(sample, info.subSamples, 0, CbcsPiece(aes, key, CbcsIv(info, constantIv), crypt, skip), false);
      WalkExact(sample, info.subSamples, 0, Cbc1Piece(aes, key, PadIv(info.iv)), false);
      WalkExact(sample, info.subSamples, 0, CencPiece(aes, key, PadIv(info.iv)), true);
    }
  }

  lemma AllClear(s: seq<byte>)
    ensures KeepsClear(s, s, seq(|s|, _ => false))
  {
  }

  /** Without a map everything may change. */
  lemma WholeMasked(s: seq<byte>, r: seq<byte>)
    requires |r| == |s|
    ensures KeepsClear(r, s, Mask([], |s|, true))
  {
  }

  lemma NoMap(n: nat)
    ensures MapFits([], n)
  {
  }

  /** In counter mode decrypting twice gives the sample back, whatever the block alignment of the map. */
  lemma CounterModeTwice(aes: Aes, sample: seq<byte>, info: SampleInfo, key: Key, scheme: EncScheme,
                         crypt: nat, skip: nat, constantIv: Option<seq<byte>>)
    requires CounterMode(scheme)
    requires info.isEncrypted ==> MapFits(info.subSamples, |sample|)
    ensures var once := DecryptedSample(aes, sample, info, key, scheme, crypt, skip, constantIv);
            && once.Some?
            && DecryptedSample(aes, once.value, info, key, scheme, crypt, skip, constantIv) == Some(sample)
  {
    if info.isEncrypted {
      var f := CencPiece(aes, key, PadIv(info.iv));
      forall piece: seq<byte>, o: nat ensures f(f(piece, o), o) == piece {
        CtrTwice(aes, key, PadIv(info.iv), piece, o);
      }
      WalkInverts(sample, info.subSamples, 0, f, f, true);
    }
  }
}
