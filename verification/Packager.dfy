/** How a packager encrypts a sample under the four schemes of common encryption (ISO/IEC 23001-7), and exactly when the
    program decrypts it again (src/drm/cenc.rs:888-1178). */
module Packager {
  import opened Bytes
  import opened Cipher
  import opened Pattern
  import opened Samples
  import opened Counter

  // ----- The encryptors -----

  /** Keys of AES-128 and AES-256. */
  predicate AesKey(key: Key) {
    |key| == 16 || |key| == 32
  }

  /** The number an initialization vector stands for: its bytes are the most significant ones of sixteen, the others
      zero. */
  function VectorNumber(iv: seq<byte>): nat {
    if |iv| >= 16 then FromBE(iv[..16]) else FromBE(iv) * Pow256(16 - |iv|)
  }

  /** Counter block number `n` of a sample (ISO/IEC 23001-7, section 9.3); number 0 is the vector for chaining. */
  function CounterBlock(iv: seq<byte>, n: nat): Block {
    ToBE(VectorNumber(iv) + n, 16)
  }

  /** For a vector of 8 bytes the block counter is the lower half; one of 16 bytes is the first block. */
  lemma CounterBlocks(iv: seq<byte>, n: nat)
    ensures |iv| == 8 ==> CounterBlock(iv, n) == ToBE(FromBE(iv) * 0x1_0000_0000_0000_0000 + n, 16)
    ensures |iv| == 16 ==> CounterBlock(iv, n) == ToBE(FromBE(iv) + n, 16) && CounterBlock(iv, 0) == iv
  {
    Pow256Values();
    if |iv| == 16 {
      assert iv[..16] == iv;
      ToBEFromBE(iv);
    }
  }

  /** The keystream over `n` bytes. */
  function PackedKeystream(aes: Aes, key: Key, iv: seq<byte>, n: nat): (s: seq<byte>)
    ensures |s| == n
  {
    seq(n, i requires 0 <= i < n => aes.enc(key, CounterBlock(iv, i / 16))[i % 16])
  }

  /** The vector of a `cbcs` sample: the track's constant one, if it has one. */
  function ChainVector(info: SampleInfo, constantIv: Option<seq<byte>>): seq<byte> {
    if constantIv.Some? then constantIv.value else info.iv
  }

  /** The pattern in force; 0:0 stands for none, that is, every block is encrypted. */
  function Effective(crypt: nat, skip: nat): (nat, nat) {
    if crypt == 0 && skip == 0 then (1, 0) else (crypt, skip)
  }

  /** Which bytes of a range of `n` bytes lie in encrypted blocks of the pattern. */
  function PatternMask(n: nat, crypt: nat, skip: nat): (m: seq<bool>)
    ensures |m| == n
  {
    var (c, s) := Effective(crypt, skip);
    seq(n, k requires 0 <= k < n => InPattern(k / 16, c, s))
  }

  /** The bytes `cens` encrypts: in every protected range those of the pattern, which starts anew. */
  function CensMask(subs: seq<SubSample>, n: nat, crypt: nat, skip: nat): (m: seq<bool>)
    ensures |m| == n
    decreases |subs|
  {
    if subs == [] then PatternMask(n, crypt, skip)
    else
      var clear := Min(subs[0].clear, n);
      var enc := Min(subs[0].enc, n - clear);
      seq(clear, _ => false) + PatternMask(enc, crypt, skip) + CensMask(subs[1..], n - clear - enc, crypt, skip)
  }

  function CounterMask(info: SampleInfo, scheme: EncScheme, n: nat, crypt: nat, skip: nat): (m: seq<bool>)
    ensures |m| == n
  {
    if scheme == Cens then CensMask(info.subSamples, n, crypt, skip) else Mask(info.subSamples, n, true)
  }

  /** One continuous counter-mode pass over the marked bytes. */
  function CtrMarked(aes: Aes, key: Key, iv: seq<byte>, sample: seq<byte>, mask: seq<bool>): (r: seq<byte>)
    requires |sample| == |mask|
    ensures |r| == |sample|
  {
    var marked := Gather(sample, mask);
    Scatter(sample, mask, XorAll(marked, PackedKeystream(aes, key, iv, |marked|)))
  }

  /** The last complete ciphertext block, on which the chain goes on. */
  function Carried(prev: Block, secret: seq<byte>): Block {
    var complete := |secret| / 16 * 16;
    if complete == 0 then prev else secret[complete - 16..complete]
  }

  /** `cbc1`: one chain through the complete blocks of all protected ranges. */
  function ChainWalk(aes: Aes, key: Key, prev: Block, sample: seq<byte>, subs: seq<SubSample>): Option<seq<byte>>
    decreases |subs|
  {
    if subs == [] then Some(sample)
    else if subs[0].clear > |sample| then None
    else
      var body := sample[subs[0].clear..];
      var taken := Min(subs[0].enc, |body|);
      if taken < subs[0].enc && |subs| > 1 then None
      else
        var secret := CbcEnc(aes, key, prev, body[..taken]);
        match ChainWalk(aes, key, Carried(prev, secret), body[taken..], subs[1..])
        case None => None
        case Some(rest) => Some(sample[..subs[0].clear] + secret + rest)
  }

  function Cbc1Encrypted(aes: Aes, key: Key, iv: Block, sample: seq<byte>, subs: seq<SubSample>): Option<seq<byte>> {
    if subs == [] then Some(CbcEnc(aes, key, iv, sample)) else ChainWalk(aes, key, iv, sample, subs)
  }

  /** `cbcs`: in every protected range the pattern and its chain start anew. */
  function CbcsRange(aes: Aes, key: Key, iv: Block, crypt: nat, skip: nat): Piecewise {
    (piece: seq<byte>, offset: nat) =>
      CbcsEnc(aes, key, iv, Effective(crypt, skip).0, Effective(crypt, skip).1, piece)
  }

  function CbcsEncrypted(aes: Aes, key: Key, iv: Block, crypt: nat, skip: nat, sample: seq<byte>, subs: seq<SubSample>)
    : Option<seq<byte>>
  {
    var f := CbcsRange(aes, key, iv, crypt, skip);
    if subs == [] then Some(f(sample, 0)) else Walk(sample, subs, 0, f, false)
  }

  /** A sample as it is packaged; `None` if the map does not fit it. A key of another length has no cipher. */
  function EncryptedSample(aes: Aes, sample: seq<byte>, info: SampleInfo, key: Key, scheme: EncScheme,
                           crypt: nat, skip: nat, constantIv: Option<seq<byte>>): Option<seq<byte>>
  {
    if !info.isEncrypted then Some(sample)
    else if !MapFits(info.subSamples, |sample|) then None
    else if !AesKey(key) then Some(sample)
    else
      match scheme
      case Cbcs => CbcsEncrypted(aes, key, CounterBlock(ChainVector(info, constantIv), 0), crypt, skip, sample,
                                 info.subSamples)
      case Cbc1 => Cbc1Encrypted(aes, key, CounterBlock(info.iv, 0), sample, info.subSamples)
      case _ => Some(CtrMarked(aes, key, info.iv, sample, CounterMask(info, scheme, |sample|, crypt, skip)))
  }

  predicate RoundTrips(aes: Aes, sample: seq<byte>, info: SampleInfo, key: Key, scheme: EncScheme,
                       crypt: nat, skip: nat, constantIv: Option<seq<byte>>)
  {
    var secret := EncryptedSample(aes, sample, info, key, scheme, crypt, skip, constantIv);
    && secret.Some? && |secret.value| == |sample|
    && DecryptedSample(aes, secret.value, info, key, scheme, crypt, skip, constantIv) == Some(sample)
  }

  // ----- The program's vectors are these -----

  lemma {:induction false} ZerosNumber(n: nat)
    ensures FromBE(seq(n, _ => 0)) == 0
  {
    if n > 0 {
      assert seq(n, _ => 0)[..n - 1] == seq(n - 1, _ => 0);
      ZerosNumber(n - 1);
    }
  }

  lemma PaddedNumber(iv: seq<byte>)
    ensures FromBE(PadIv(iv)) == VectorNumber(iv)
  {
    if |iv| < 16 {
      FromBEConcat(iv, seq(16 - |iv|, _ => 0));
      ZerosNumber(16 - |iv|);
    }
  }

  /** The first block and every counter block. */
  lemma Vectors(iv: seq<byte>)
    ensures CounterBlock(iv, 0) == PadIv(iv)
    ensures forall n: nat :: AddCounter(PadIv(iv), n) == CounterBlock(iv, n)
  {
    hide FromBE, ToBE;
    PaddedNumber(iv);
    ToBEFromBE(PadIv(iv));
  }

  lemma ChainVectors(info: SampleInfo, constantIv: Option<seq<byte>>)
    ensures CounterBlock(ChainVector(info, constantIv), 0) == CbcsIv(info, constantIv)
  {
    Vectors(ChainVector(info, constantIv));
  }

  lemma SameKeystream(aes: Aes, key: Key, iv: seq<byte>, n: nat)
    ensures PackedKeystream(aes, key, iv, n) == Keystream(aes, key, PadIv(iv), Run(0, n))
  {
    hide AddCounter, CounterBlock;
    Vectors(iv);
  }

  // ----- Counter mode: which keystream byte meets which byte -----

  function Count(mask: seq<bool>): nat {
    if mask == [] then 0 else (if mask[0] then 1 else 0) + Count(mask[1..])
  }

  lemma {:induction false} GatherCounts<T>(s: seq<T>, mask: seq<bool>)
    requires |s| == |mask|
    ensures |Gather(s, mask)| == Count(mask)
  {
    if s != [] {
      GatherCounts(s[1..], mask[1..]);
    }
  }

  /** For every byte of a sample the index of its keystream byte, if it is marked. */
  function Plan(mask: seq<bool>, indices: seq<nat>): (p: seq<Option<nat>>)
    requires |indices| == Count(mask)
    ensures |p| == |mask|
  {
    if mask == [] then []
    else if mask[0] then [Some(indices[0])] + Plan(mask[1..], indices[1..])
    else [None] + Plan(mask[1..], indices)
  }

  /** What is added to a byte. */
  function Addend(aes: Aes, key: Key, iv: Block, index: Option<nat>): byte {
    if index == None then 0 else KeystreamByte(aes, key, iv, index.value)
  }

  function Keyed(aes: Aes, key: Key, iv: Block, s: seq<byte>, plan: seq<Option<nat>>): (r: seq<byte>)
    requires |s| == |plan|
    ensures |r| == |s|
  {
    seq(|s|, k requires 0 <= k < |s| => Xor(s[k], Addend(aes, key, iv, plan[k])))
  }

  lemma {:induction false} MarkedIsKeyed(aes: Aes, key: Key, iv: Block, s: seq<byte>, mask: seq<bool>,
                                         indices: seq<nat>)
    requires |s| == |mask| && |indices| == Count(mask)
    ensures |Gather(s, mask)| == |indices|
    ensures Scatter(s, mask, XorAll(Gather(s, mask), Keystream(aes, key, iv, indices)))
            == Keyed(aes, key, iv, s, Plan(mask, indices))
  {
    hide KeystreamByte, Xor;
    GatherCounts(s, mask);
    if s != [] {
      var g := Gather(s[1..], mask[1..]);
      GatherCounts(s[1..], mask[1..]);
      if mask[0] {
        MarkedIsKeyed(aes, key, iv, s[1..], mask[1..], indices[1..]);
        var marked := XorAll(Gather(s, mask), Keystream(aes, key, iv, indices));
        assert Gather(s, mask) == [s[0]] + g;
        assert marked[1..] == XorAll(g, Keystream(aes, key, iv, indices[1..]));
        assert marked[0] == Xor(s[0], KeystreamByte(aes, key, iv, indices[0]));
      } else {
        MarkedIsKeyed(aes, key, iv, s[1..], mask[1..], indices);
        assert Gather(s, mask) == g;
        XorZero(s[0]);
      }
    }
  }

  lemma {:induction false} PlanMarks(mask: seq<bool>, indices: seq<nat>)
    requires |indices| == Count(mask)
    ensures forall k :: 0 <= k < |mask| ==>
              (Plan(mask, indices)[k].Some? <==> mask[k])
              && (Plan(mask, indices)[k].Some? ==> Plan(mask, indices)[k].value in indices)
  {
    if mask != [] {
      PlanMarks(mask[1..], if mask[0] then indices[1..] else indices);
    }
  }

  lemma {:induction false} PlanInjective(mask: seq<bool>, i: seq<nat>, j: seq<nat>)
    requires |i| == |j| == Count(mask) && Plan(mask, i) == Plan(mask, j)
    ensures i == j
  {
    if mask != [] {
      var p, q := Plan(mask, i), Plan(mask, j);
      assert p[0] == q[0] && p[1..] == q[1..];
      if mask[0] {
        PlanInjective(mask[1..], i[1..], j[1..]);
      } else {
        PlanInjective(mask[1..], i, j);
      }
    }
  }

  /** Two plans are the same exactly when they mark the same bytes for the same indices. */
  lemma SamePlans(mask: seq<bool>, i: seq<nat>, other: seq<bool>, j: seq<nat>)
    requires |i| == Count(mask) && |j| == Count(other)
    ensures Plan(mask, i) == Plan(other, j) <==> mask == other && i == j
  {
    PlanMarks(mask, i);
    PlanMarks(other, j);
    if Plan(mask, i) == Plan(other, j) {
      forall k | 0 <= k < |mask| ensures mask[k] == other[k] {
        assert Plan(mask, i)[k] == Plan(other, j)[k];
      }
      assert mask == other;
      PlanInjective(mask, i, j);
    }
  }

  // ----- Block functions that tell two keystream bytes apart -----

  /** The block function that exchanges two blocks. */
  function Exchange(a: Block, b: Block): (aes: Aes)
    ensures Inverts(aes)
  {
    var f := (key: Key, x: Block) => if x == a then b else if x == b then a else x;
    Aes(f, f)
  }

  function Uniform(v: byte): Block {
    seq(16, _ => v)
  }

  /** Two different bytes of two blocks can be told apart by some block function. */
  lemma Separate(c: Block, r: nat, d: Block, q: nat) returns (aes: Aes)
    requires r < 16 && q < 16 && (c != d || r != q)
    ensures Inverts(aes) && forall key: Key :: aes.enc(key, c)[r] != aes.enc(key, d)[q]
  {
    if c != d {
      var v: byte := if d[q] != 0 && c[0] != 0 then 0 else if d[q] != 1 && c[0] != 1 then 1 else 2;
      var x := Uniform(v);
      assert x[q] == v && x[r] == v && x[0] == v;
      aes := Exchange(c, x);
    } else {
      var x: Block := if c[r] == c[q] then c[r := if c[r] == 0 then 1 else 0] else c;
      aes := Exchange(c, x);
    }
  }

  lemma NotZero(c: Block, r: nat) returns (aes: Aes)
    requires r < 16
    ensures Inverts(aes) && forall key: Key :: aes.enc(key, c)[r] != 0
  {
    var x := Uniform(if c[r] == 1 then 2 else 1);
    assert x[r] != 0 && x != c;
    aes := Exchange(c, x);
  }

  lemma CountersApart(iv: Block, i: nat, j: nat)
    requires i < Pow256(16) && j < Pow256(16) && i != j
    ensures AddCounter(iv, i) != AddCounter(iv, j)
  {
    hide FromBE, ToBE, Pow256;
    var n := FromBE(iv);
    FromBEToBE(n + i, 16);
    FromBEToBE(n + j, 16);
    if i < j {
      ModApart(n + i, n + j, Pow256(16));
    } else {
      ModApart(n + j, n + i, Pow256(16));
    }
  }

  /** Every index counts a block whose number fits the counter. */
  predicate InCounter(plan: seq<Option<nat>>) {
    forall k :: 0 <= k < |plan| && plan[k].Some? ==> plan[k].value / 16 < Pow256(16)
  }

  lemma AddendsApart(key: Key, iv: Block, a: Option<nat>, b: Option<nat>) returns (aes: Aes)
    requires a != b
    requires (a.Some? ==> a.value / 16 < Pow256(16)) && (b.Some? ==> b.value / 16 < Pow256(16))
    ensures Inverts(aes) && Addend(aes, key, iv, a) != Addend(aes, key, iv, b)
  {
    hide AddCounter, Pow256;
    if a == None {
      aes := NotZero(AddCounter(iv, b.value / 16), b.value % 16);
    } else if b == None {
      aes := NotZero(AddCounter(iv, a.value / 16), a.value % 16);
    } else {
      if a.value / 16 != b.value / 16 {
        CountersApart(iv, a.value / 16, b.value / 16);
      }
      aes := Separate(AddCounter(iv, a.value / 16), a.value % 16, AddCounter(iv, b.value / 16), b.value % 16);
    }
  }

  /** Adding by one plan and then by another gives a sample back under every block function if and only if the plans are
      the same. */
  lemma PlansExactly(key: Key, iv: Block, s: seq<byte>, a: seq<Option<nat>>, b: seq<Option<nat>>)
    requires |s| == |a| == |b| && InCounter(a) && InCounter(b)
    ensures (forall aes | Inverts(aes) :: Keyed(aes, key, iv, Keyed(aes, key, iv, s, a), b) == s) <==> a == b
  {
    hide Addend, Xor, Inverts;
    if a == b {
      forall aes | Inverts(aes) ensures Keyed(aes, key, iv, Keyed(aes, key, iv, s, a), b) == s {
        KeyedTwice(aes, key, iv, s, a);
      }
    } else {
      var k :| 0 <= k < |s| && a[k] != b[k];
      var aes := AddendsApart(key, iv, a[k], b[k]);
      XorCancels(s[k], Addend(aes, key, iv, a[k]), Addend(aes, key, iv, b[k]));
      assert Keyed(aes, key, iv, Keyed(aes, key, iv, s, a), b)[k] != s[k];
    }
  }

  lemma KeyedTwice(aes: Aes, key: Key, iv: Block, s: seq<byte>, plan: seq<Option<nat>>)
    requires |s| == |plan|
    ensures Keyed(aes, key, iv, Keyed(aes, key, iv, s, plan), plan) == s
  {
    hide Addend, Xor;
    forall k | 0 <= k < |s|
      ensures Xor(Xor(s[k], Addend(aes, key, iv, plan[k])), Addend(aes, key, iv, plan[k])) == s[k]
    {
      XorTwice(s[k], Addend(aes, key, iv, plan[k]));
    }
  }

  // ----- Exactly when counter mode is undone -----

  /** No byte of a range lies in a skipped block. */
  predicate NoneSkipped(n: nat, crypt: nat, skip: nat) {
    skip == 0 || n <= 16 * crypt
  }

  lemma PatternMaskFull(n: nat, crypt: nat, skip: nat)
    ensures PatternMask(n, crypt, skip) == seq(n, _ => true) <==> NoneSkipped(n, crypt, skip)
  {
    var m := PatternMask(n, crypt, skip);
    var (c, s) := Effective(crypt, skip);
    if NoneSkipped(n, crypt, skip) {
      forall k | 0 <= k < n ensures InPattern(k / 16, c, s) {
        if s > 0 {
          SmallMod(k / 16, c + s);
        }
      }
    } else {
      SmallMod(c, c + s);
      assert !m[16 * c];
    }
  }

  lemma SmallMod(b: nat, d: nat)
    requires b < d
    ensures b % d == b
  {
  }

  /** No protected byte lies in a skipped block of its range. */
  predicate NothingSkipped(subs: seq<SubSample>, n: nat, crypt: nat, skip: nat)
    decreases |subs|
  {
    if subs == [] then NoneSkipped(n, crypt, skip)
    else
      var left := n - Min(subs[0].clear, n);
      var enc := Min(subs[0].enc, left);
      NoneSkipped(enc, crypt, skip) && NothingSkipped(subs[1..], left - enc, crypt, skip)
  }

  lemma SameParts<T>(a: seq<T>, x: seq<T>, rest: seq<T>, y: seq<T>, other: seq<T>)
    requires |x| == |y|
    ensures a + x + rest == a + y + other <==> x == y && rest == other
  {
    if a + x + rest == a + y + other {
      assert x == (a + x + rest)[|a|..|a| + |x|] && y == (a + y + other)[|a|..|a| + |y|];
      assert rest == (a + x + rest)[|a| + |x|..] && other == (a + y + other)[|a| + |y|..];
    }
  }

  /** One subsample of both masks. */
  lemma MasksStep(subs: seq<SubSample>, n: nat, crypt: nat, skip: nat)
    requires subs != []
    ensures var clear := Min(subs[0].clear, n);
            var enc := Min(subs[0].enc, n - clear);
            var left := n - clear - enc;
            && CensMask(subs, n, crypt, skip)
               == seq(clear, _ => false) + PatternMask(enc, crypt, skip) + CensMask(subs[1..], left, crypt, skip)
            && Mask(subs, n, true) == seq(clear, _ => false) + seq(enc, _ => true) + Mask(subs[1..], left, true)
            && (NothingSkipped(subs, n, crypt, skip)
                <==> NoneSkipped(enc, crypt, skip) && NothingSkipped(subs[1..], left, crypt, skip))
  {
    hide PatternMask, NoneSkipped;
  }

  lemma {:induction false} CensMaskFull(subs: seq<SubSample>, n: nat, crypt: nat, skip: nat)
    ensures CensMask(subs, n, crypt, skip) == Mask(subs, n, true) <==> NothingSkipped(subs, n, crypt, skip)
    decreases |subs|
  {
    hide PatternMask, NoneSkipped, InPattern;
    if subs == [] {
      PatternMaskFull(n, crypt, skip);
    } else {
      hide CensMask, Mask, NothingSkipped;
      var clear := Min(subs[0].clear, n);
      var enc := Min(subs[0].enc, n - clear);
      var left := n - clear - enc;
      MasksStep(subs, n, crypt, skip);
      CensMaskFull(subs[1..], left, crypt, skip);
      PatternMaskFull(enc, crypt, skip);
      SameParts(seq(clear, _ => false), PatternMask(enc, crypt, skip), CensMask(subs[1..], left, crypt, skip),
                seq(enc, _ => true), Mask(subs[1..], left, true));
    }
  }

  /** The indices the program uses are below those of the whole map. */
  lemma {:induction false} IndicesBelow(subs: seq<SubSample>, n: nat, offset: nat)
    ensures forall x <- Indices(subs, n, offset) :: x < 16 * (offset + TotalBlocks(subs)) + n
    decreases |subs|
  {
    hide BlocksFor;
    if subs != [] {
      var left := n - Min(subs[0].clear, n);
      var enc := Min(subs[0].enc, left);
      var next := offset + BlocksFor(subs[0].enc);
      IndicesBelow(subs[1..], left - enc, next);
      forall x <- Indices(subs, n, offset) ensures x < 16 * (offset + TotalBlocks(subs)) + n {
        assert x in Run(16 * offset, enc) || x in Indices(subs[1..], left - enc, next);
      }
    }
  }

  lemma {:induction false} CountAtMost(mask: seq<bool>)
    ensures Count(mask) <= |mask|
  {
    if mask != [] {
      CountAtMost(mask[1..]);
    }
  }

  /** The packager's plan and the program's. */
  function PackedPlan(info: SampleInfo, scheme: EncScheme, n: nat, crypt: nat, skip: nat): (p: seq<Option<nat>>)
    ensures |p| == n
  {
    var mask := CounterMask(info, scheme, n, crypt, skip);
    Plan(mask, Run(0, Count(mask)))
  }

  function ReadPlan(subs: seq<SubSample>, n: nat): (p: seq<Option<nat>>)
    ensures |p| == n
  {
    IndicesMatch(subs, n, 0);
    Plan(Mask(subs, n, true), Indices(subs, n, 0))
  }

  lemma {:induction false} IndicesMatch(subs: seq<SubSample>, n: nat, offset: nat)
    ensures |Indices(subs, n, offset)| == Count(Mask(subs, n, true))
    decreases |subs|
  {
    hide Count, BlocksFor;
    if subs == [] {
      CountFull(n, true);
    } else {
      var clear := Min(subs[0].clear, n);
      var enc := Min(subs[0].enc, n - clear);
      IndicesMatch(subs[1..], n - clear - enc, offset + BlocksFor(subs[0].enc));
      CountFull(clear, false);
      CountFull(enc, true);
      CountConcat(seq(clear, _ => false), seq(enc, _ => true));
      CountConcat(seq(clear, _ => false) + seq(enc, _ => true), Mask(subs[1..], n - clear - enc, true));
    }
  }

  lemma {:induction false} CountFull(n: nat, marked: bool)
    ensures Count(seq(n, _ => marked)) == if marked then n else 0
  {
    if n > 0 {
      assert seq(n, _ => marked)[1..] == seq(n - 1, _ => marked);
      CountFull(n - 1, marked);
    }
  }

  lemma {:induction false} CountConcat(a: seq<bool>, b: seq<bool>)
    ensures Count(a + b) == Count(a) + Count(b)
  {
    if a == [] {
      assert a + b == b;
    } else {
      ConcatTail(a, b);
      CountConcat(a[1..], b);
    }
  }

  /** In counter mode encryption and decryption each add the keystream by a plan. */
  lemma CounterPlans(aes: Aes, sample: seq<byte>, info: SampleInfo, key: Key, scheme: EncScheme,
                     crypt: nat, skip: nat, constantIv: Option<seq<byte>>)
    requires CounterMode(scheme) && info.isEncrypted && AesKey(key) && MapFits(info.subSamples, |sample|)
    requires NoOverflow(CounterBlock(info.iv, 0), info.subSamples, 0)
    ensures var iv, n := PadIv(info.iv), |sample|;
            && EncryptedSample(aes, sample, info, key, scheme, crypt, skip, constantIv)
               == Some(Keyed(aes, key, iv, sample, PackedPlan(info, scheme, n, crypt, skip)))
            && DecryptedSample(aes, sample, info, key, scheme, crypt, skip, constantIv)
               == Some(Keyed(aes, key, iv, sample, ReadPlan(info.subSamples, n)))
  {
    hide Scatter, Gather, Keystream, XorAll, Indices, Mask, Walk, MapFits, NoOverflow, Plan, Count, CounterMask, Keyed;
    var iv, n := PadIv(info.iv), |sample|;
    var mask := CounterMask(info, scheme, n, crypt, skip);
    Vectors(info.iv);
    SameKeystream(aes, key, info.iv, Count(mask));
    GatherCounts(sample, mask);
    MarkedIsKeyed(aes, key, iv, sample, mask, Run(0, Count(mask)));
    CounterWalk(aes, sample, info.subSamples, key, iv, 0);
    IndicesMatch(info.subSamples, n, 0);
    MarkedIsKeyed(aes, key, iv, sample, Mask(info.subSamples, n, true), Indices(info.subSamples, n, 0));
  }

  /** What makes a counter-mode sample come out: the ranges are block aligned, and under `cens` no protected byte is
      skipped, which the program does not look at. */
  predicate CounterRestorable(info: SampleInfo, scheme: EncScheme, n: nat, crypt: nat, skip: nat) {
    Aligned(info.subSamples, n) && (scheme == Cens ==> NothingSkipped(info.subSamples, n, crypt, skip))
  }

  lemma SamePlan(info: SampleInfo, scheme: EncScheme, n: nat, crypt: nat, skip: nat)
    ensures PackedPlan(info, scheme, n, crypt, skip) == ReadPlan(info.subSamples, n)
            <==> CounterRestorable(info, scheme, n, crypt, skip)
  {
    hide Indices, Mask, Plan, Count, CensMask, Aligned, Run, NothingSkipped;
    var mask, full, subs := CounterMask(info, scheme, n, crypt, skip), Mask(info.subSamples, n, true), info.subSamples;
    IndicesMatch(subs, n, 0);
    SamePlans(mask, Run(0, Count(mask)), full, Indices(subs, n, 0));
    IndicesConsecutive(subs, n, 0);
    CensMaskFull(subs, n, crypt, skip);
  }

  lemma PlansInCounter(info: SampleInfo, scheme: EncScheme, n: nat, crypt: nat, skip: nat)
    requires n < 0x1_0000_0000_0000_0000 && TotalBlocks(info.subSamples) < 0x1_0000_0000_0000_0000
    ensures InCounter(PackedPlan(info, scheme, n, crypt, skip)) && InCounter(ReadPlan(info.subSamples, n))
  {
    hide Indices, Mask, Plan, CensMask, TotalBlocks, CounterMask;
    var mask, subs := CounterMask(info, scheme, n, crypt, skip), info.subSamples;
    Pow256Values();
    CountAtMost(mask);
    PlanMarks(mask, Run(0, Count(mask)));
    IndicesMatch(subs, n, 0);
    IndicesBelow(subs, n, 0);
    PlanMarks(Mask(subs, n, true), Indices(subs, n, 0));
  }

  /** Counter mode, exactly: under every block function the sample comes out if and only if the map is block aligned
      and, for `cens`, no protected byte lies in a skipped block. */
  lemma CounterExactly(sample: seq<byte>, info: SampleInfo, key: Key, scheme: EncScheme,
                       crypt: nat, skip: nat, constantIv: Option<seq<byte>>)
    requires CounterMode(scheme) && info.isEncrypted && AesKey(key) && MapFits(info.subSamples, |sample|)
    requires NoOverflow(CounterBlock(info.iv, 0), info.subSamples, 0) && |sample| < 0x1_0000_0000_0000_0000
    ensures (forall aes | Inverts(aes) :: RoundTrips(aes, sample, info, key, scheme, crypt, skip, constantIv))
            <==> CounterRestorable(info, scheme, |sample|, crypt, skip)
  {
    hide Inverts, EncryptedSample, DecryptedSample, MapFits, NoOverflow, Keyed, PackedPlan, ReadPlan, CounterRestorable,
      InCounter;
    var iv, n := PadIv(info.iv), |sample|;
    var a, b := PackedPlan(info, scheme, n, crypt, skip), ReadPlan(info.subSamples, n);
    Vectors(info.iv);
    SmallMap(iv, info.subSamples);
    PlansInCounter(info, scheme, n, crypt, skip);
    SamePlan(info, scheme, n, crypt, skip);
    PlansExactly(key, iv, sample, a, b);
    forall aes
      ensures RoundTrips(aes, sample, info, key, scheme, crypt, skip, constantIv)
              <==> Keyed(aes, key, iv, Keyed(aes, key, iv, sample, a), b) == sample
    {
      CounterPlans(aes, sample, info, key, scheme, crypt, skip, constantIv);
      CounterPlans(aes, Keyed(aes, key, iv, sample, a), info, key, scheme, crypt, skip, constantIv);
    }
  }

  lemma SmallMap(iv: Block, subs: seq<SubSample>)
    requires NoOverflow(iv, subs, 0)
    ensures TotalBlocks(subs) < 0x1_0000_0000_0000_0000
  {
  }

  /** A sample without a map. */
  lemma CensWithoutMap(n: nat, crypt: nat, skip: nat, info: SampleInfo)
    requires info.subSamples == []
    ensures CounterRestorable(info, Cens, n, crypt, skip) <==> skip == 0 || n <= 16 * crypt
    ensures CounterRestorable(info, Cenc, n, crypt, skip)
  {
  }

  /** A sample `cens` protects and the program does not restore: two zero blocks, of which the pattern 1:1 encrypts the
      first. */
  lemma CensFails(aes: Aes, key: Key)
    requires AesKey(key) && aes.enc(key, CounterBlock(Uniform(0), 1)) != Uniform(0)
    ensures var sample, info := seq(32, _ => 0), SampleInfo(true, Uniform(0), []);
            !RoundTrips(aes, sample, info, key, Cens, 1, 1, None)
  {
    hide EncryptedSample, DecryptedSample, PackedPlan, ReadPlan, Keyed, Inverts, AddCounter;
    var sample: seq<byte>, info := seq(32, _ => 0), SampleInfo(true, Uniform(0), []);
    var iv := PadIv(info.iv);
    assert iv == Uniform(0);
    Vectors(info.iv);
    NothingToCount(iv);
    var a, b := PackedPlan(info, Cens, 32, 1, 1), ReadPlan([], 32);
    CounterPlans(aes, sample, info, key, Cens, 1, 1, None);
    CounterPlans(aes, Keyed(aes, key, iv, sample, a), info, key, Cens, 1, 1, None);
    var k :| 0 <= k < 16 && aes.enc(key, AddCounter(iv, 1))[k] != 0;
    SecondBlock(info, 16 + k);
    assert (16 + k) / 16 == 1 && (16 + k) % 16 == k;
    ZeroChanged(aes, key, iv, sample, a, b, 16 + k);
  }

  lemma ZeroChanged(aes: Aes, key: Key, iv: Block, s: seq<byte>, a: seq<Option<nat>>, b: seq<Option<nat>>, j: nat)
    requires |s| == |a| == |b| && j < |s| && a[j] == None && b[j] == Some(j)
    requires KeystreamByte(aes, key, iv, j) != 0
    ensures Keyed(aes, key, iv, Keyed(aes, key, iv, s, a), b) != s
  {
    hide KeystreamByte, Xor;
    XorCancels(s[j], 0, KeystreamByte(aes, key, iv, j));
    assert Keyed(aes, key, iv, Keyed(aes, key, iv, s, a), b)[j] != s[j];
  }

  lemma NothingToCount(iv: Block)
    ensures NoOverflow(iv, [], 0) && forall n: nat :: MapFits([], n)
  {
  }

  lemma SecondBlock(info: SampleInfo, j: nat)
    requires info.subSamples == [] && 16 <= j < 32
    ensures PackedPlan(info, Cens, 32, 1, 1)[j] == None && ReadPlan([], 32)[j] == Some(j)
  {
    hide Plan, Run, Count;
    var mask := CensMask([], 32, 1, 1);
    PlanMarks(mask, Run(0, Count(mask)));
    assert !mask[j];
    assert Run(16 * 0, 32) == Run(0, 32);
    FullPlan(32, 0, j);
  }

  lemma {:induction false} FullPlan(n: nat, from: nat, k: nat)
    requires k < n
    ensures Count(seq(n, _ => true)) == n
    ensures Plan(seq(n, _ => true), Run(from, n))[k] == Some(from + k)
  {
    CountFull(n, true);
    assert seq(n, _ => true)[1..] == seq(n - 1, _ => true) && Run(from, n)[1..] == Run(from + 1, n - 1);
    if k > 0 {
      FullPlan(n - 1, from + 1, k - 1);
    }
  }

  // ----- Block chaining -----

  /** How many protected ranges hold a complete block. */
  function LongRanges(subs: seq<SubSample>, n: nat): nat
    decreases |subs|
  {
    if subs == [] then 0
    else
      var left := n - Min(subs[0].clear, n);
      var enc := Min(subs[0].enc, left);
      (if enc >= 16 then 1 else 0) + LongRanges(subs[1..], left - enc)
  }

  lemma LongStep(subs: seq<SubSample>, a: seq<byte>, x: seq<byte>, rest: seq<byte>)
    requires Starts(subs, a, x, rest)
    ensures LongRanges(subs, |a + x + rest|) == (if |x| >= 16 then 1 else 0) + LongRanges(subs[1..], |rest|)
  {
  }

  lemma ChainStep(aes: Aes, key: Key, prev: Block, subs: seq<SubSample>, a: seq<byte>, x: seq<byte>, rest: seq<byte>)
    requires Starts(subs, a, x, rest)
    ensures var secret := CbcEnc(aes, key, prev, x);
            ChainWalk(aes, key, prev, a + x + rest, subs)
            == match ChainWalk(aes, key, Carried(prev, secret), rest, subs[1..])
               case None => None
               case Some(r) => Some(a + secret + r)
  {
    hide CbcEnc, Carried;
    var sample := a + x + rest;
    assert sample[..|a|] == a && sample[|a|..] == x + rest;
    assert (x + rest)[..|x|] == x && (x + rest)[|x|..] == rest;
  }

  lemma ShortPiece(aes: Aes, key: Key, prev: Block, x: seq<byte>)
    requires |x| < 16
    ensures CbcEnc(aes, key, prev, x) == x == CbcDec(aes, key, prev, x) && Carried(prev, x) == prev
  {
  }

  /** As long as the chain stands at the vector when it matters, one chain is a chain for each range. */
  lemma {:induction false} ChainIsWalk(aes: Aes, key: Key, iv: Block, prev: Block, sample: seq<byte>,
                                       subs: seq<SubSample>, offset: nat, f: Piecewise)
    requires MapFits(subs, |sample|) && forall x: seq<byte>, o: nat :: f(x, o) == CbcEnc(aes, key, iv, x)
    requires LongRanges(subs, |sample|) == 0 || (LongRanges(subs, |sample|) == 1 && prev == iv)
    ensures ChainWalk(aes, key, prev, sample, subs) == Walk(sample, subs, offset, f, false)
    decreases |subs|
  {
    hide CbcEnc, CbcDec, LongRanges, MapFits, Mask, Walk, ChainWalk, Carried;
    if subs == [] {
      NothingToWalk(aes, key, prev, sample, offset, f);
    } else {
      MapFitsStep(subs, |sample|);
      var a, x, rest := WalkCut(sample, subs);
      WalkStep(subs, a, x, rest, offset, f, false);
      ChainStep(aes, key, prev, subs, a, x, rest);
      LongStep(subs, a, x, rest);
      if |x| < 16 {
        ShortPiece(aes, key, prev, x);
        ShortPiece(aes, key, iv, x);
      }
      ChainIsWalk(aes, key, iv, Carried(prev, CbcEnc(aes, key, prev, x)), rest, subs[1..],
                  offset + BlocksFor(subs[0].enc), f);
    }
  }

  lemma NothingToWalk(aes: Aes, key: Key, prev: Block, sample: seq<byte>, offset: nat, f: Piecewise)
    ensures ChainWalk(aes, key, prev, sample, []) == Some(sample) == Walk(sample, [], offset, f, false)
    ensures LongRanges([], |sample|) == 0
  {
  }

  lemma {:induction false} WalkIdentity(sample: seq<byte>, subs: seq<SubSample>, offset: nat, f: Piecewise, tail: bool)
    requires MapFits(subs, |sample|) && forall x: seq<byte>, o: nat :: f(x, o) == x
    ensures Walk(sample, subs, offset, f, tail) == Some(sample)
    decreases |subs|
  {
    hide MapFits, Mask;
    if subs != [] {
      hide Walk;
      MapFitsStep(subs, |sample|);
      var a, x, rest := WalkCut(sample, subs);
      WalkStep(subs, a, x, rest, offset, f, tail);
      WalkIdentity(rest, subs[1..], offset + BlocksFor(subs[0].enc), f, tail);
    }
  }

  /** A sample of this kind comes out: of the chained schemes, `cbc1` wants at most one range with a complete block, as
      the program starts the chain anew in each, and `cbcs` a pattern, as the program takes 0:0 for no encryption. */
  predicate Restorable(info: SampleInfo, scheme: EncScheme, n: nat, crypt: nat, skip: nat) {
    match scheme
    case Cbcs => crypt > 0 || skip > 0 || if info.subSamples == [] then n < 16 else LongRanges(info.subSamples, n) == 0
    case Cbc1 => LongRanges(info.subSamples, n) <= 1
    case _ => CounterRestorable(info, scheme, n, crypt, skip)
  }

  /** Decryption undoes encryption under every scheme for every restorable sample. */
  lemma SampleRoundTrip(aes: Aes, sample: seq<byte>, info: SampleInfo, key: Key, scheme: EncScheme,
                        crypt: nat, skip: nat, constantIv: Option<seq<byte>>)
    requires Inverts(aes)
    requires info.isEncrypted ==> MapFits(info.subSamples, |sample|)
    requires info.isEncrypted && AesKey(key) ==>
               && Restorable(info, scheme, |sample|, crypt, skip)
               && (CounterMode(scheme) ==> NoOverflow(CounterBlock(info.iv, 0), info.subSamples, 0))
    ensures RoundTrips(aes, sample, info, key, scheme, crypt, skip, constantIv)
  {
    hide MapFits, NoOverflow, Walk, CounterRestorable, LongRanges, PackedPlan, ReadPlan, Keyed, CbcsEncrypted,
      CtrMarked, Cbc1Encrypted;
    if info.isEncrypted && AesKey(key) {
      match scheme {
        case Cbcs => CbcsRoundTrip(aes, sample, info, key, crypt, skip, constantIv);
        case Cbc1 => Cbc1RoundTrip(aes, sample, info, key);
        case _ => CounterRoundTrip(aes, sample, info, key, scheme, crypt, skip, constantIv);
      }
    } else if info.isEncrypted {
      NoCipher(aes, sample, info, key, scheme, crypt, skip, constantIv);
    }
  }

  lemma NoCipher(aes: Aes, sample: seq<byte>, info: SampleInfo, key: Key, scheme: EncScheme,
                 crypt: nat, skip: nat, constantIv: Option<seq<byte>>)
    requires !AesKey(key) && MapFits(info.subSamples, |sample|)
    ensures DecryptedSample(aes, sample, info, key, scheme, crypt, skip, constantIv) == Some(sample)
  {
    hide MapFits, Walk, PadIv;
    WalkIdentity(sample, info.subSamples, 0, CbcsPiece(aes, key, CbcsIv(info, constantIv), crypt, skip), false);
    WalkIdentity(sample, info.subSamples, 0, Cbc1Piece(aes, key, PadIv(info.iv)), false);
    WalkIdentity(sample, info.subSamples, 0, CencPiece(aes, key, PadIv(info.iv)), true);
  }

  lemma CounterRoundTrip(aes: Aes, sample: seq<byte>, info: SampleInfo, key: Key, scheme: EncScheme,
                         crypt: nat, skip: nat, constantIv: Option<seq<byte>>)
    requires CounterMode(scheme) && info.isEncrypted && AesKey(key) && MapFits(info.subSamples, |sample|)
    requires CounterRestorable(info, scheme, |sample|, crypt, skip)
             && NoOverflow(CounterBlock(info.iv, 0), info.subSamples, 0)
    ensures RoundTrips(aes, sample, info, key, scheme, crypt, skip, constantIv)
  {
    hide EncryptedSample, DecryptedSample, MapFits, NoOverflow, Keyed, PackedPlan, ReadPlan, CounterRestorable;
    Vectors(info.iv);
    var iv, n := PadIv(info.iv), |sample|;
    var plan := PackedPlan(info, scheme, n, crypt, skip);
    SamePlan(info, scheme, n, crypt, skip);
    CounterPlans(aes, sample, info, key, scheme, crypt, skip, constantIv);
    CounterPlans(aes, Keyed(aes, key, iv, sample, plan), info, key, scheme, crypt, skip, constantIv);
    KeyedTwice(aes, key, iv, sample, plan);
  }

  lemma Cbc1RoundTrip(aes: Aes, sample: seq<byte>, info: SampleInfo, key: Key)
    requires Inverts(aes) && info.isEncrypted && AesKey(key) && MapFits(info.subSamples, |sample|)
    requires LongRanges(info.subSamples, |sample|) <= 1
    ensures forall crypt: nat, skip: nat, constantIv: Option<seq<byte>> ::
              RoundTrips(aes, sample, info, key, Cbc1, crypt, skip, constantIv)
  {
    hide MapFits, LongRanges, Walk, ChainWalk, CbcEnc, CbcDec, Mask, KeepsClear;
    Vectors(info.iv);
    var iv, subs := PadIv(info.iv), info.subSamples;
    CbcInverts(aes, key, iv, sample);
    if subs != [] {
      var f: Piecewise := (x: seq<byte>, o: nat) => CbcEnc(aes, key, iv, x);
      var g := Cbc1Piece(aes, key, iv);
      forall x: seq<byte>, o: nat ensures g(f(x, o), o) == x {
        CbcInverts(aes, key, iv, x);
      }
      ChainIsWalk(aes, key, iv, iv, sample, subs, 0, f);
      WalkExact(sample, subs, 0, f, false);
      WalkKeepsLength(sample, subs, f);
      WalkInverts(sample, subs, 0, f, g, false);
    }
  }

  lemma WalkKeepsLength(sample: seq<byte>, subs: seq<SubSample>, f: Piecewise)
    requires LengthPreserving(f)
    ensures Walk(sample, subs, 0, f, false).Some? ==> |Walk(sample, subs, 0, f, false).value| == |sample|
  {
    WalkExact(sample, subs, 0, f, false);
  }

  lemma CbcsRoundTrip(aes: Aes, sample: seq<byte>, info: SampleInfo, key: Key, crypt: nat, skip: nat,
                      constantIv: Option<seq<byte>>)
    requires Inverts(aes) && info.isEncrypted && AesKey(key) && MapFits(info.subSamples, |sample|)
    requires Restorable(info, Cbcs, |sample|, crypt, skip)
    ensures RoundTrips(aes, sample, info, key, Cbcs, crypt, skip, constantIv)
  {
    hide MapFits, LongRanges, Walk, CbcsEnc, CbcsDec, Mask, KeepsClear;
    ChainVectors(info, constantIv);
    var iv, subs := CbcsIv(info, constantIv), info.subSamples;
    var f, g := CbcsRange(aes, key, iv, crypt, skip), CbcsPiece(aes, key, iv, crypt, skip);
    WalkKeepsLength(sample, subs, f);
    if crypt == 0 && skip == 0 {
      NotProtected(aes, key, iv);
      assert forall x: seq<byte>, o: nat :: g(x, o) == x;
      if subs == [] {
        ShortRange(aes, key, iv, sample);
      } else {
        NothingChanges(sample, subs, 0, f) by {
          forall x: seq<byte>, o: nat | |x| < 16 ensures f(x, o) == x {
            ShortRange(aes, key, iv, x);
          }
        }
        WalkIdentity(sample, subs, 0, g, false);
      }
    } else {
      forall x: seq<byte>, o: nat ensures g(f(x, o), o) == x {
        CbcsInverts(aes, key, iv, crypt, skip, x);
      }
      assert g(f(sample, 0), 0) == sample;
      WalkInverts(sample, subs, 0, f, g, false);
    }
  }

  /** The program leaves everything under a pattern of 0:0. */
  lemma NotProtected(aes: Aes, key: Key, iv: Block)
    ensures forall x: seq<byte> :: CbcsDec(aes, key, iv, 0, 0, x) == x
  {
    forall x: seq<byte> ensures CbcsDec(aes, key, iv, 0, 0, x) == x {
      NothingInPattern(aes, key, 0, 0, iv, x, 0);
    }
  }

  lemma ShortRange(aes: Aes, key: Key, iv: Block, x: seq<byte>)
    requires |x| < 16
    ensures forall crypt: nat, skip: nat :: CbcsEnc(aes, key, iv, crypt, skip, x) == x
  {
  }

  lemma {:induction false} NothingChanges(sample: seq<byte>, subs: seq<SubSample>, offset: nat, f: Piecewise)
    requires MapFits(subs, |sample|) && LongRanges(subs, |sample|) == 0
    requires forall x: seq<byte>, o: nat | |x| < 16 :: f(x, o) == x
    ensures Walk(sample, subs, offset, f, false) == Some(sample)
    decreases |subs|
  {
    hide MapFits, Mask;
    if subs != [] {
      hide Walk, LongRanges;
      MapFitsStep(subs, |sample|);
      var a, x, rest := WalkCut(sample, subs);
      WalkStep(subs, a, x, rest, offset, f, false);
      LongStep(subs, a, x, rest);
      NothingChanges(rest, subs[1..], offset + BlocksFor(subs[0].enc), f);
    }
  }

  // ----- Samples that do not come out -----

  lemma {:induction false} ChainLength(aes: Aes, key: Key, prev: Block, sample: seq<byte>, subs: seq<SubSample>)
    requires MapFits(subs, |sample|)
    ensures ChainWalk(aes, key, prev, sample, subs).Some?
    ensures |ChainWalk(aes, key, prev, sample, subs).value| == |sample|
    decreases |subs|
  {
    hide CbcEnc, MapFits, Mask;
    if subs != [] {
      hide ChainWalk;
      MapFitsStep(subs, |sample|);
      var a, x, rest := WalkCut(sample, subs);
      ChainStep(aes, key, prev, subs, a, x, rest);
      MapFitsCut(subs, a, x, rest);
      ChainLength(aes, key, Carried(prev, CbcEnc(aes, key, prev, x)), rest, subs[1..]);
    }
  }

  lemma MapFitsCut(subs: seq<SubSample>, a: seq<byte>, x: seq<byte>, rest: seq<byte>)
    requires Starts(subs, a, x, rest)
    ensures MapFits(subs, |a + x + rest|) <==> MapFits(subs[1..], |rest|)
  {
    WalkStep(subs, a, x, rest, 0, (piece: seq<byte>, o: nat) => piece, false);
  }

  /** From another chain value the first block of a range is not restored. */
  lemma OtherChain(aes: Aes, key: Key, iv: Block, prev: Block, x: seq<byte>)
    requires Inverts(aes) && prev != iv && |x| >= 16
    ensures CbcDec(aes, key, iv, CbcEnc(aes, key, prev, x)) != x
  {
    hide Xor;
    var p := CbcDec(aes, key, iv, CbcEnc(aes, key, prev, x));
    var c := CbcEnc(aes, key, prev, x)[..16];
    assert c == aes.enc(key, XorAll(x[..16], prev));
    assert p[..16] == XorAll(XorAll(x[..16], prev), iv);
    var k :| 0 <= k < 16 && prev[k] != iv[k];
    XorCancels(x[k], prev[k], iv[k]);
    assert p[..16][k] != x[k];
  }

  /** Once the chain has moved on from the vector, a range with a complete block is not restored. */
  lemma {:induction false} PrevMatters(aes: Aes, key: Key, iv: Block, prev: Block, sample: seq<byte>,
                                       subs: seq<SubSample>, offset: nat)
    requires Inverts(aes) && AesKey(key) && prev != iv
    requires MapFits(subs, |sample|) && LongRanges(subs, |sample|) >= 1
    ensures var secret := ChainWalk(aes, key, prev, sample, subs);
            secret.Some? && Walk(secret.value, subs, offset, Cbc1Piece(aes, key, iv), false) != Some(sample)
    decreases |subs|
  {
    hide CbcEnc, CbcDec, LongRanges, MapFits, Mask, Walk, ChainWalk, Carried;
    if subs == [] {
      NothingToWalk(aes, key, prev, sample, offset, Cbc1Piece(aes, key, iv));
    } else {
      MapFitsStep(subs, |sample|);
      var a, x, rest := WalkCut(sample, subs);
      var secret := CbcEnc(aes, key, prev, x);
      var next := offset + BlocksFor(subs[0].enc);
      ChainStep(aes, key, prev, subs, a, x, rest);
      LongStep(subs, a, x, rest);
      MapFitsCut(subs, a, x, rest);
      ChainLength(aes, key, Carried(prev, secret), rest, subs[1..]);
      var later := ChainWalk(aes, key, Carried(prev, secret), rest, subs[1..]).value;
      WalkStep(subs, a, secret, later, offset, Cbc1Piece(aes, key, iv), false);
      if |x| >= 16 {
        OtherChain(aes, key, iv, prev, x);
      } else {
        ShortPiece(aes, key, prev, x);
        PrevMatters(aes, key, iv, prev, rest, subs[1..], next);
      }
      var walked := Walk(later, subs[1..], next, Cbc1Piece(aes, key, iv), false);
      if walked.Some? {
        SameParts(a, CbcDec(aes, key, iv, secret), walked.value, x, rest);
      }
    }
  }

  /** The block function that changes nothing. */
  function Same(): (aes: Aes)
    ensures Inverts(aes) && forall key: Key, b: Block :: aes.enc(key, b) == b == aes.dec(key, b)
  {
    Exchange(Uniform(0), Uniform(0))
  }

  /** A range whose ciphertext is given. */
  lemma {:induction false} Decided(key: Key, prev: Block, secret: seq<byte>)
    ensures CbcEnc(Same(), key, prev, CbcDec(Same(), key, prev, secret)) == secret
    decreases |secret|
  {
    if |secret| >= 16 {
      var x := CbcDec(Same(), key, prev, secret);
      assert x[..16] == XorAll(secret[..16], prev) && x[16..] == CbcDec(Same(), key, secret[..16], secret[16..]);
      XorAllTwice(secret[..16], prev);
      Decided(key, secret[..16], secret[16..]);
    }
  }

  /** With two ranges that hold complete blocks there is a sample `cbc1` protects and the program does not restore. */
  lemma {:induction false} TwoChains(key: Key, iv: Block, subs: seq<SubSample>, n: nat, offset: nat)
    returns (sample: seq<byte>)
    requires AesKey(key) && MapFits(subs, n) && LongRanges(subs, n) >= 2
    ensures |sample| == n
    ensures var secret := ChainWalk(Same(), key, iv, sample, subs);
            && secret.Some? && |secret.value| == n
            && Walk(secret.value, subs, offset, Cbc1Piece(Same(), key, iv), false) != Some(sample)
    decreases |subs|
  {
    hide CbcEnc, CbcDec, LongRanges, MapFits, Mask, Walk, ChainWalk, Carried, Same;
    var zeros: seq<byte> := seq(n, _ => 0);
    if subs == [] {
      NothingToWalk(Same(), key, iv, zeros, offset, Cbc1Piece(Same(), key, iv));
      sample := zeros;
    } else {
      MapFitsStep(subs, n);
      var a, x, rest := WalkCut(zeros, subs);
      LongStep(subs, a, x, rest);
      MapFitsCut(subs, a, x, rest);
      var next := offset + BlocksFor(subs[0].enc);
      if |x| >= 16 {
        var v: byte := if iv[0] == 0 then 1 else 0;
        var y: seq<byte> := seq(|x|, _ => v);
        x := CbcDec(Same(), key, iv, y);
        Decided(key, iv, y);
        CarriedUniform(iv, v, |x|);
        PrevMatters(Same(), key, iv, Uniform(v), rest, subs[1..], next);
      } else {
        ShortPiece(Same(), key, iv, x);
        rest := TwoChains(key, iv, subs[1..], |rest|, next);
      }
      sample := a + x + rest;
      var secret := CbcEnc(Same(), key, iv, x);
      ChainStep(Same(), key, iv, subs, a, x, rest);
      MapFitsCut(subs, a, x, rest);
      ChainLength(Same(), key, iv, sample, subs);
      var later := ChainWalk(Same(), key, Carried(iv, secret), rest, subs[1..]).value;
      WalkStep(subs, a, secret, later, offset, Cbc1Piece(Same(), key, iv), false);
      var walked := Walk(later, subs[1..], next, Cbc1Piece(Same(), key, iv), false);
      if walked.Some? {
        SameParts(a, CbcDec(Same(), key, iv, secret), walked.value, x, rest);
      }
    }
  }

  lemma CarriedUniform(iv: Block, v: byte, n: nat)
    requires n >= 16 && v != iv[0]
    ensures Carried(iv, seq(n, _ => v)) == Uniform(v) != iv
  {
    assert Uniform(v)[0] == v;
  }

  /** If every range of zeros with a complete block changes, so does a walk over one. */
  lemma {:induction false} WalkChanges(sample: seq<byte>, subs: seq<SubSample>, offset: nat, f: Piecewise)
    requires LengthPreserving(f) && (forall i :: 0 <= i < |sample| ==> sample[i] == 0)
    requires forall x: seq<byte>, o: nat | |x| >= 16 && (forall i :: 0 <= i < |x| ==> x[i] == 0) :: f(x, o) != x
    requires MapFits(subs, |sample|) && LongRanges(subs, |sample|) >= 1
    ensures Walk(sample, subs, offset, f, false) != Some(sample)
    decreases |subs|
  {
    hide LongRanges, MapFits, Mask, Walk;
    if subs == [] {
      NothingLong(|sample|);
    } else {
      MapFitsStep(subs, |sample|);
      var a, x, rest := WalkCut(sample, subs);
      LongStep(subs, a, x, rest);
      MapFitsCut(subs, a, x, rest);
      var next := offset + BlocksFor(subs[0].enc);
      WalkStep(subs, a, x, rest, offset, f, false);
      assert forall i :: 0 <= i < |x| ==> x[i] == sample[|a| + i];
      assert forall i :: 0 <= i < |rest| ==> rest[i] == sample[|a| + |x| + i];
      if |x| < 16 {
        WalkChanges(rest, subs[1..], next, f);
      }
      var walked := Walk(rest, subs[1..], next, f, false);
      assert |f(x, offset)| == |x|;
      if walked.Some? {
        SameParts(a, f(x, offset), walked.value, x, rest);
      }
    }
  }

  lemma NothingLong(n: nat)
    ensures LongRanges([], n) == 0
  {
  }

  /** Under a pattern of 0:0 there are samples `cbcs` protects and the program leaves encrypted. */
  lemma NoPatternFails(sample: seq<byte>, info: SampleInfo, key: Key, constantIv: Option<seq<byte>>) returns (aes: Aes)
    requires AesKey(key) && info.isEncrypted && MapFits(info.subSamples, |sample|)
    requires forall i :: 0 <= i < |sample| ==> sample[i] == 0
    requires if info.subSamples == [] then |sample| >= 16 else LongRanges(info.subSamples, |sample|) >= 1
    ensures Inverts(aes) && !RoundTrips(aes, sample, info, key, Cbcs, 0, 0, constantIv)
  {
    hide MapFits, LongRanges, Walk, CbcsEnc, CbcsDec, Mask, KeepsClear, CbcsIv, Inverts;
    ChainVectors(info, constantIv);
    var iv, subs := CbcsIv(info, constantIv), info.subSamples;
    aes := Exchange(XorAll(Uniform(0), iv), Uniform(1));
    var f, g := CbcsRange(aes, key, iv, 0, 0), CbcsPiece(aes, key, iv, 0, 0);
    forall x: seq<byte>, o: nat | |x| >= 16 && (forall i :: 0 <= i < |x| ==> x[i] == 0) ensures f(x, o) != x {
      ZerosChange(key, iv, x);
    }
    NotProtected(aes, key, iv);
    assert forall x: seq<byte>, o: nat :: g(x, o) == x;
    if subs == [] {
      assert f(sample, 0) != sample;
    } else {
      WalkChanges(sample, subs, 0, f);
      WalkKeepsLength(sample, subs, f);
      var secret := Walk(sample, subs, 0, f, false);
      if secret.Some? && |secret.value| == |sample| {
        WalkIdentity(secret.value, subs, 0, g, false);
      }
    }
  }

  lemma ZerosChange(key: Key, iv: Block, x: seq<byte>)
    requires AesKey(key) && |x| >= 16 && forall i :: 0 <= i < |x| ==> x[i] == 0
    ensures CbcsEnc(Exchange(XorAll(Uniform(0), iv), Uniform(1)), key, iv, 1, 0, x) != x
  {
    hide Xor;
    var aes := Exchange(XorAll(Uniform(0), iv), Uniform(1));
    assert x[..16] == Uniform(0);
    assert InPattern(0, 1, 0);
    var r := CbcsEnc(aes, key, iv, 1, 0, x);
    assert r[..16] == Uniform(1);
    assert r[0] == Uniform(1)[0];
  }

  /** The exact condition for every scheme: samples of `n` bytes with a given map come out, whatever they hold and
      whatever invertible block function is used, if and only if they are restorable. */
  lemma RoundTripExactly(info: SampleInfo, key: Key, scheme: EncScheme, crypt: nat, skip: nat,
                         constantIv: Option<seq<byte>>, n: nat)
    requires info.isEncrypted && AesKey(key) && MapFits(info.subSamples, n) && n < 0x1_0000_0000_0000_0000
    requires CounterMode(scheme) ==> NoOverflow(CounterBlock(info.iv, 0), info.subSamples, 0)
    ensures (forall aes, sample: seq<byte> | Inverts(aes) && |sample| == n ::
               RoundTrips(aes, sample, info, key, scheme, crypt, skip, constantIv))
            <==> Restorable(info, scheme, n, crypt, skip)
  {
    hide MapFits, NoOverflow, CounterRestorable, LongRanges, Inverts, RoundTrips;
    var zeros: seq<byte> := seq(n, _ => 0);
    if Restorable(info, scheme, n, crypt, skip) {
      forall aes, sample: seq<byte> | Inverts(aes) && |sample| == n
        ensures RoundTrips(aes, sample, info, key, scheme, crypt, skip, constantIv)
      {
        SampleRoundTrip(aes, sample, info, key, scheme, crypt, skip, constantIv);
      }
    } else {
      match scheme {
        case Cbcs =>
          var aes := NoPatternFails(zeros, info, key, constantIv);
        case Cbc1 =>
          var sample := TwoChainsFail(info, key, n, crypt, skip, constantIv);
        case _ =>
          CounterExactly(zeros, info, key, scheme, crypt, skip, constantIv);
      }
    }
  }

  lemma TwoChainsFail(info: SampleInfo, key: Key, n: nat, crypt: nat, skip: nat, constantIv: Option<seq<byte>>)
    returns (sample: seq<byte>)
    requires info.isEncrypted && AesKey(key) && MapFits(info.subSamples, n) && LongRanges(info.subSamples, n) >= 2
    ensures |sample| == n && !RoundTrips(Same(), sample, info, key, Cbc1, crypt, skip, constantIv) && Inverts(Same())
  {
    hide MapFits, LongRanges, Walk, ChainWalk, Same;
    NothingLong(n);
    Vectors(info.iv);
    sample := TwoChains(key, PadIv(info.iv), info.subSamples, n, 0);
  }
}
