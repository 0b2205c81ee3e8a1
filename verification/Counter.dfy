/** Counter mode over the ranges of a sample is one continuous keystream (src/drm/cenc.rs:915-999). */
module Counter {
  import opened Bytes
  import opened Cipher
  import opened Samples

  /** The keystream index the program uses for each protected byte of what is left of a sample. */
  function Indices(subs: seq<SubSample>, n: nat, offset: nat): (r: seq<nat>)
    decreases |subs|
  {
    if subs == [] then Run(16 * offset, n)
    else
      var left := n - Min(subs[0].clear, n);
      var enc := Min(subs[0].enc, left);
      Run(16 * offset, enc) + Indices(subs[1..], left - enc, offset + BlocksFor(subs[0].enc))
  }

  /** Every range that more protected bytes follow is a whole number of blocks. */
  predicate Aligned(subs: seq<SubSample>, n: nat)
    decreases |subs|
  {
    if subs == [] then true
    else
      var left := n - Min(subs[0].clear, n);
      var enc := Min(subs[0].enc, left);
      && (subs[0].enc % 16 == 0 || Indices(subs[1..], left - enc, 0) == [])
      && Aligned(subs[1..], left - enc)
  }

  function TotalBlocks(subs: seq<SubSample>): nat {
    if subs == [] then 0 else BlocksFor(subs[0].enc) + TotalBlocks(subs[1..])
  }

  /** The low half of the counter does not overflow anywhere in the sample. */
  predicate NoOverflow(iv: Block, subs: seq<SubSample>, offset: nat) {
    U64(iv[8..]) + offset + TotalBlocks(subs) < 0x1_0000_0000_0000_0000
  }

  lemma {:induction false} IndicesShape(subs: seq<SubSample>, n: nat, offset: nat)
    ensures |Indices(subs, n, offset)| == |Indices(subs, n, 0)|
    ensures forall i :: 0 <= i < |Indices(subs, n, offset)| ==> Indices(subs, n, offset)[i] >= 16 * offset
    decreases |subs|
  {
    if subs != [] {
      var left := n - Min(subs[0].clear, n);
      var rest := left - Min(subs[0].enc, left);
      IndicesShape(subs[1..], rest, offset + BlocksFor(subs[0].enc));
      IndicesShape(subs[1..], rest, BlocksFor(subs[0].enc));
    }
  }

  lemma RunConcat(from: nat, a: nat, b: nat)
    ensures Run(from, a) + Run(from + a, b) == Run(from, a + b)
  {
  }

  /** Is a run followed by `more` again a run? */
  lemma RunExtends(from: nat, a: nat, more: seq<nat>)
    ensures Run(from, a) + more == Run(from, a + |more|) <==> more == Run(from + a, |more|)
  {
    RunConcat(from, a, |more|);
    if Run(from, a) + more == Run(from, a + |more|) {
      assert more == (Run(from, a) + more)[a..];
      assert Run(from + a, |more|) == Run(from, a + |more|)[a..];
    }
  }

  /** One subsample further. */
  lemma IndicesUnfold(subs: seq<SubSample>, n: nat, offset: nat)
    requires subs != []
    ensures var left := n - Min(subs[0].clear, n);
            var enc := Min(subs[0].enc, left);
            var more := Indices(subs[1..], left - enc, offset + BlocksFor(subs[0].enc));
            && Indices(subs, n, offset) == Run(16 * offset, enc) + more
            && (more != [] ==> enc == subs[0].enc)
            && (Aligned(subs, n) <==> (subs[0].enc % 16 == 0 || more == []) && Aligned(subs[1..], left - enc))
            && forall i :: 0 <= i < |more| ==> more[i] >= 16 * (offset + BlocksFor(subs[0].enc))
  {
    var left := n - Min(subs[0].clear, n);
    var enc := Min(subs[0].enc, left);
    IndicesShape(subs[1..], left - enc, offset + BlocksFor(subs[0].enc));
    if left == enc {
      NoIndices(subs[1..], offset + BlocksFor(subs[0].enc));
    }
  }

  /** The program's keystream indices are consecutive exactly when the map is block aligned. */
  lemma {:induction false} IndicesConsecutive(subs: seq<SubSample>, n: nat, offset: nat)
    ensures Indices(subs, n, offset) == Run(16 * offset, |Indices(subs, n, offset)|) <==> Aligned(subs, n)
    decreases |subs|
  {
    hide Indices, Aligned, Run, BlocksFor;
    if subs == [] {
      TailConsecutive(n, offset);
    } else {
      var left := n - Min(subs[0].clear, n);
      var enc := Min(subs[0].enc, left);
      var next := offset + BlocksFor(subs[0].enc);
      var more := Indices(subs[1..], left - enc, next);
      IndicesUnfold(subs, n, offset);
      IndicesConsecutive(subs[1..], left - enc, next);
      RunExtends(16 * offset, enc, more);
      NextIsRun(more, 16 * offset, enc, subs[0].enc, 16 * next) by {
        BlockRounding(subs[0].enc);
      }
    }
  }

  lemma TailConsecutive(n: nat, offset: nat)
    ensures Indices([], n, offset) == Run(16 * offset, |Indices([], n, offset)|) && Aligned([], n)
  {
  }

  /** Whether `more`, which starts at `after` or later, goes on right behind a range of `enc` bytes. */
  lemma NextIsRun(more: seq<nat>, from: nat, enc: nat, fullEnc: nat, after: nat)
    requires more != [] ==> enc == fullEnc && more[0] >= after
    requires after >= from + fullEnc
    requires after == from + fullEnc <==> fullEnc % 16 == 0
    ensures more == Run(from + enc, |more|)
            <==> (fullEnc % 16 == 0 || more == []) && more == Run(after, |more|)
  {
  }

  lemma BlockRounding(n: nat)
    ensures 16 * BlocksFor(n) >= n
    ensures 16 * BlocksFor(n) == n <==> n % 16 == 0
  {
  }

  lemma {:induction false} NoIndices(subs: seq<SubSample>, offset: nat)
    ensures Indices(subs, 0, offset) == []
    decreases |subs|
  {
    if subs != [] {
      NoIndices(subs[1..], offset + BlocksFor(subs[0].enc));
    }
  }

  lemma {:induction false} GatherConcat<T>(s: seq<T>, t: seq<T>, m: seq<bool>, k: seq<bool>)
    requires |s| == |m| && |t| == |k|
    ensures Gather(s + t, m + k) == Gather(s, m) + Gather(t, k)
  {
    if s == [] {
      assert s + t == t && m + k == k;
    } else {
      ConcatTail(s, t);
      ConcatTail(m, k);
      AppendAssoc(if m[0] then [s[0]] else [], Gather(s[1..], m[1..]), Gather(t, k));
      GatherConcat(s[1..], t, m[1..], k);
    }
  }

  /** One position of either function. */
  lemma ScatterUnfold(s: seq<byte>, m: seq<bool>, x: seq<byte>)
    requires |s| == |m| && s != [] && |x| == |Gather(s, m)|
    ensures |x| == (if m[0] then 1 else 0) + |Gather(s[1..], m[1..])|
    ensures Scatter(s, m, x)
            == if m[0] then [x[0]] + Scatter(s[1..], m[1..], x[1..]) else [s[0]] + Scatter(s[1..], m[1..], x)
  {
  }

  lemma {:induction false} ScatterConcat(s: seq<byte>, t: seq<byte>, m: seq<bool>, k: seq<bool>, x: seq<byte>,
                                         y: seq<byte>)
    requires |s| == |m| && |t| == |k| && |x| == |Gather(s, m)| && |y| == |Gather(t, k)|
    ensures |Gather(s + t, m + k)| == |x + y|
    ensures Scatter(s + t, m + k, x + y) == Scatter(s, m, x) + Scatter(t, k, y)
  {
    hide Gather, Scatter;
    GatherConcat(s, t, m, k);
    if s == [] {
      NothingMarked(m, x);
      assert s + t == t && m + k == k && x + y == y && [] + Scatter(t, k, y) == Scatter(t, k, y);
    } else {
      ScatterUnfold(s, m, x);
      ScatterUnfold(s + t, m + k, x + y);
      ConcatTail(s, t);
      ConcatTail(m, k);
      if m[0] {
        ConcatTail(x, y);
        ScatterConcat(s[1..], t, m[1..], k, x[1..], y);
        AppendAssoc([x[0]], Scatter(s[1..], m[1..], x[1..]), Scatter(t, k, y));
      } else {
        ScatterConcat(s[1..], t, m[1..], k, x, y);
        AppendAssoc([s[0]], Scatter(s[1..], m[1..], x), Scatter(t, k, y));
      }
    }
  }

  lemma NothingMarked(m: seq<bool>, x: seq<byte>)
    requires m == [] && |x| == |Gather<byte>([], m)|
    ensures x == [] && Scatter([], m, x) == []
  {
  }

  lemma {:induction false} AllOrNothing(s: seq<byte>, marked: bool, x: seq<byte>)
    requires |x| == if marked then |s| else 0
    ensures Gather(s, seq(|s|, _ => marked)) == if marked then s else []
    ensures Scatter(s, seq(|s|, _ => marked), x) == if marked then x else s
  {
    if s != [] {
      var mask := seq(|s|, _ => marked);
      assert mask[1..] == seq(|s[1..]|, _ => marked);
      AllOrNothing(s[1..], marked, if marked then x[1..] else x);
    }
  }

  lemma XorKeystreamConcat(aes: Aes, key: Key, iv: Block, s: seq<byte>, t: seq<byte>, i: seq<nat>, j: seq<nat>)
    requires |s| == |i| && |t| == |j|
    ensures XorAll(s + t, Keystream(aes, key, iv, i + j))
            == XorAll(s, Keystream(aes, key, iv, i)) + XorAll(t, Keystream(aes, key, iv, j))
  {
  }

  /** The joined protected bytes of a cut sample, and putting them back. */
  lemma CutMask(a: seq<byte>, x: seq<byte>, rest: seq<byte>, m: seq<bool>, x': seq<byte>, rest': seq<byte>)
    requires |rest| == |m| && |x'| == |x| && |rest'| == |Gather(rest, m)|
    ensures var mask := seq(|a|, _ => false) + seq(|x|, _ => true) + m;
            && Gather(a + x + rest, mask) == x + Gather(rest, m)
            && |x' + rest'| == |Gather(a + x + rest, mask)|
            && Scatter(a + x + rest, mask, x' + rest') == a + x' + Scatter(rest, m, rest')
  {
    var ma, mx := seq(|a|, _ => false), seq(|x|, _ => true);
    AllOrNothing(a, false, []);
    AllOrNothing(x, true, x');
    GatherConcat(a, x, ma, mx);
    GatherConcat(a + x, rest, ma + mx, m);
    ScatterConcat(a, x, ma, mx, [], x');
    ScatterConcat(a + x, rest, ma + mx, m, x', rest');
    assert [] + x' == x' && [] + x == x;
  }

  /** Range by range, counter mode is one exclusive or of the joined protected bytes with the bytes of a
      single 128-bit big-endian keystream at the program's indices. */
  lemma {:induction false} CounterWalk(aes: Aes, sample: seq<byte>, subs: seq<SubSample>, key: Key, iv: Block,
                                       offset: nat)
    requires KnownKey(key) && MapFits(subs, |sample|) && NoOverflow(iv, subs, offset)
    ensures var mask := Mask(subs, |sample|, true);
            var indices := Indices(subs, |sample|, offset);
            && |Gather(sample, mask)| == |indices|
            && Walk(sample, subs, offset, CencPiece(aes, key, iv), true)
               == Some(Scatter(sample, mask, XorAll(Gather(sample, mask), Keystream(aes, key, iv, indices))))
    decreases |subs|
  {
    var f := CencPiece(aes, key, iv);
    if subs == [] {
      CtrContinues(aes, key, iv, sample, offset);
      var indices := Indices(subs, |sample|, offset);
      AllOrNothing(sample, true, XorAll(sample, Keystream(aes, key, iv, indices)));
    } else {
      MapFitsStep(subs, |sample|);
      var a, x, rest := WalkCut(sample, subs);
      CounterStep(aes, a, x, rest, subs, key, iv, offset);
    }
  }

  lemma CounterStep(aes: Aes, a: seq<byte>, x: seq<byte>, rest: seq<byte>, subs: seq<SubSample>, key: Key, iv: Block,
                    offset: nat)
    requires Starts(subs, a, x, rest)
    requires KnownKey(key) && MapFits(subs, |a + x + rest|) && NoOverflow(iv, subs, offset)
    ensures var sample := a + x + rest;
            var mask := Mask(subs, |sample|, true);
            var indices := Indices(subs, |sample|, offset);
            && |Gather(sample, mask)| == |indices|
            && Walk(sample, subs, offset, CencPiece(aes, key, iv), true)
               == Some(Scatter(sample, mask, XorAll(Gather(sample, mask), Keystream(aes, key, iv, indices))))
    decreases |subs|, 0
  {
    hide Walk, Mask, Indices, Scatter, Gather, Keystream, XorAll, MapFits, CtrWithOffset, OffsetIv, Run;
    var next := offset + BlocksFor(subs[0].enc);
    WalkStep(subs, a, x, rest, offset, CencPiece(aes, key, iv), true);
    CounterWalk(aes, rest, subs[1..], key, iv, next);
    CtrContinues(aes, key, iv, x, offset);
    IndicesStep(subs, a, x, rest, offset);
    Assemble(aes, key, iv, a, x, rest, Mask(subs[1..], |rest|, true), Run(16 * offset, |x|),
             Indices(subs[1..], |rest|, next));
  }

  lemma Assemble(aes: Aes, key: Key, iv: Block, a: seq<byte>, x: seq<byte>, rest: seq<byte>, m: seq<bool>, i: seq<nat>,
                 j: seq<nat>)
    requires |rest| == |m| && |x| == |i| && |Gather(rest, m)| == |j|
    ensures var mask := seq(|a|, _ => false) + seq(|x|, _ => true) + m;
            && |Gather(a + x + rest, mask)| == |i + j|
            && Scatter(a + x + rest, mask, XorAll(Gather(a + x + rest, mask), Keystream(aes, key, iv, i + j)))
               == a + XorAll(x, Keystream(aes, key, iv, i))
                  + Scatter(rest, m, XorAll(Gather(rest, m), Keystream(aes, key, iv, j)))
  {
    hide Scatter, Gather, XorAll, Keystream;
    CutMask(a, x, rest, m, XorAll(x, Keystream(aes, key, iv, i)), XorAll(Gather(rest, m), Keystream(aes, key, iv, j)));
    XorKeystreamConcat(aes, key, iv, x, Gather(rest, m), i, j);
  }

  lemma IndicesStep(subs: seq<SubSample>, a: seq<byte>, x: seq<byte>, rest: seq<byte>, offset: nat)
    requires Starts(subs, a, x, rest)
    ensures Indices(subs, |a + x + rest|, offset)
            == Run(16 * offset, |x|) + Indices(subs[1..], |rest|, offset + BlocksFor(subs[0].enc))
  {
  }

  /** Continuity: over a block-aligned map without counter overflow, `cenc` decrypts the joined protected bytes with
      one continuous keystream and leaves the clear bytes in between. */
  lemma CounterContinuity(aes: Aes, sample: seq<byte>, info: SampleInfo, key: Key, scheme: EncScheme,
                          crypt: nat, skip: nat, constantIv: Option<seq<byte>>)
    requires info.isEncrypted && CounterMode(scheme) && KnownKey(key)
    requires MapFits(info.subSamples, |sample|)
    requires Aligned(info.subSamples, |sample|) && NoOverflow(PadIv(info.iv), info.subSamples, 0)
    ensures var mask := ProtectedMask(info, scheme, |sample|);
            var protected := Gather(sample, mask);
            DecryptedSample(aes, sample, info, key, scheme, crypt, skip, constantIv)
            == Some(Scatter(sample, mask, CtrApply(aes, key, PadIv(info.iv), protected)))
  {
    hide Walk, Mask, Scatter, Gather, XorAll, Keystream, Indices, Aligned, MapFits, NoOverflow;
    CounterWalk(aes, sample, info.subSamples, key, PadIv(info.iv), 0);
    IndicesConsecutive(info.subSamples, |sample|, 0);
  }
}
