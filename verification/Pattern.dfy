/** Pattern block chaining: some blocks are decrypted, some are skipped (src/drm/cenc.rs:1077-1143). */
module Pattern {
  import opened Bytes
  import opened Cipher

  /** Is block number `b` one of the encrypted blocks of a `crypt`:`skip` pattern? */
  predicate InPattern(b: nat, crypt: nat, skip: nat) {
    crypt > 0 && b % (crypt + skip) < crypt
  }

  /** The reference: walk over the blocks once, chaining through the encrypted ones only.
      `b` is the number of the first block of `data`. */
  function PatternDec(aes: Aes, key: Key, crypt: nat, skip: nat, prev: Block, data: seq<byte>, b: nat): (r: seq<byte>)
    ensures |r| == |data|
    decreases |data|
  {
    if |data| < 16 then data
    else if InPattern(b, crypt, skip) then
      XorAll(aes.dec(key, data[..16]), prev) + PatternDec(aes, key, crypt, skip, data[..16], data[16..], b + 1)
    else
      data[..16] + PatternDec(aes, key, crypt, skip, prev, data[16..], b + 1)
  }

  /** The matching encryptor. */
  function PatternEnc(aes: Aes, key: Key, crypt: nat, skip: nat, prev: Block, data: seq<byte>, b: nat): (r: seq<byte>)
    ensures |r| == |data|
    decreases |data|
  {
    if |data| < 16 then data
    else if InPattern(b, crypt, skip) then
      var block: Block := aes.enc(key, XorAll(data[..16], prev));
      block + PatternEnc(aes, key, crypt, skip, block, data[16..], b + 1)
    else
      data[..16] + PatternEnc(aes, key, crypt, skip, prev, data[16..], b + 1)
  }

  /** What the program computes for a whole protected range. */
  function CbcsDec(aes: Aes, key: Key, iv: Block, crypt: nat, skip: nat, data: seq<byte>): (r: seq<byte>)
    ensures |r| == |data|
  {
    if KnownKey(key) then PatternDec(aes, key, crypt, skip, iv, data, 0) else data
  }

  function CbcsEnc(aes: Aes, key: Key, iv: Block, crypt: nat, skip: nat, data: seq<byte>): (r: seq<byte>)
    ensures |r| == |data|
  {
    if KnownKey(key) then PatternEnc(aes, key, crypt, skip, iv, data, 0) else data
  }

  // ----- The program's order of work, stretch by stretch -----

  /** The encrypted stretches of `data`, joined. */
  function Gathered(data: seq<byte>, cryptBytes: nat, skipBytes: nat): seq<byte>
    requires cryptBytes > 0
    decreases |data|
  {
    if |data| < cryptBytes then data[..|data| / 16 * 16]
    else
      data[..cryptBytes]
      + if |data| < cryptBytes + skipBytes then [] else Gathered(data[cryptBytes + skipBytes..], cryptBytes, skipBytes)
  }

  /** Offset and length of each encrypted stretch from `pos` on. */
  function Stretches(n: nat, pos: nat, cryptBytes: nat, skipBytes: nat): seq<(nat, nat)>
    requires cryptBytes > 0 && pos <= n
    decreases n - pos
  {
    if n - pos < cryptBytes then
      var complete := (n - pos) / 16 * 16;
      if complete > 0 then [(pos, complete)] else []
    else
      [(pos, cryptBytes)]
      + if n - pos < cryptBytes + skipBytes then []
        else Stretches(n, pos + cryptBytes + skipBytes, cryptBytes, skipBytes)
  }

  /** One crypt:skip period after the other, chained from period to period. */
  function Periods(aes: Aes, key: Key, cryptBytes: nat, skipBytes: nat, prev: Block, data: seq<byte>): (r: seq<byte>)
    requires cryptBytes >= 16 && cryptBytes % 16 == 0
    ensures |r| == |data|
    decreases |data|
  {
    if |data| < cryptBytes then CbcFullBlocks(aes, key, prev, data)
    else
      CbcFullBlocks(aes, key, prev, data[..cryptBytes])
      + if |data| < cryptBytes + skipBytes then data[cryptBytes..]
        else data[cryptBytes..cryptBytes + skipBytes]
             + Periods(aes, key, cryptBytes, skipBytes, data[cryptBytes - 16..cryptBytes],
                       data[cryptBytes + skipBytes..])
  }

  /** The first period, and the first piece of the gathered chain. */
  lemma FirstPeriod(aes: Aes, key: Key, cryptBytes: nat, skipBytes: nat, prev: Block, data: seq<byte>)
    requires cryptBytes >= 16 && cryptBytes % 16 == 0 && cryptBytes + skipBytes <= |data|
    ensures var period := cryptBytes + skipBytes;
            var front := CbcFullBlocks(aes, key, prev, data[..cryptBytes]);
            var last: Block := data[cryptBytes - 16..cryptBytes];
            && CbcFullBlocks(aes, key, prev, Gathered(data, cryptBytes, skipBytes))
               == front + CbcFullBlocks(aes, key, last, Gathered(data[period..], cryptBytes, skipBytes))
            && Periods(aes, key, cryptBytes, skipBytes, prev, data)
               == (front + data[cryptBytes..period]) + Periods(aes, key, cryptBytes, skipBytes, last, data[period..])
  {
    var period := cryptBytes + skipBytes;
    FullBlocksCut(aes, key, prev, data[..cryptBytes], Gathered(data[period..], cryptBytes, skipBytes));
    assert data[..cryptBytes][cryptBytes - 16..] == data[cryptBytes - 16..cryptBytes];
    AppendAssoc(CbcFullBlocks(aes, key, prev, data[..cryptBytes]), data[cryptBytes..period],
                Periods(aes, key, cryptBytes, skipBytes, data[cryptBytes - 16..cryptBytes], data[period..]));
  }

  /** A last, incomplete period: only its complete encrypted blocks change. */
  lemma LastPeriod(aes: Aes, key: Key, cryptBytes: nat, skipBytes: nat, prev: Block, data: seq<byte>)
    requires cryptBytes >= 16 && cryptBytes % 16 == 0 && |data| < cryptBytes + skipBytes
    ensures var gathered := Gathered(data, cryptBytes, skipBytes);
            && |gathered| <= |data|
            && Periods(aes, key, cryptBytes, skipBytes, prev, data)
               == CbcFullBlocks(aes, key, prev, gathered) + data[|gathered|..]
  {
    if |data| < cryptBytes {
      TrailingBlock(aes, key, prev, data);
    } else {
      assert Gathered(data, cryptBytes, skipBytes) == data[..cryptBytes];
    }
  }

  lemma TrailingBlock(aes: Aes, key: Key, prev: Block, data: seq<byte>)
    ensures var complete := |data| / 16 * 16;
            CbcFullBlocks(aes, key, prev, data) == CbcFullBlocks(aes, key, prev, data[..complete]) + data[complete..]
  {
    var complete := |data| / 16 * 16;
    assert data == data[..complete] + data[complete..];
    if complete == 0 {
    } else {
      FullBlocksCut(aes, key, prev, data[..complete], data[complete..]);
    }
  }

  lemma FullBlocksCut(aes: Aes, key: Key, prev: Block, a: seq<byte>, b: seq<byte>)
    requires |a| % 16 == 0 && |a| > 0
    ensures CbcFullBlocks(aes, key, prev, a + b)
            == CbcFullBlocks(aes, key, prev, a) + CbcFullBlocks(aes, key, a[|a| - 16..], b)
  {
    CbcCut(aes, key, prev, a, b);
  }

  lemma NothingGathered(aes: Aes, key: Key, cryptBytes: nat, skipBytes: nat, prev: Block, data: seq<byte>)
    requires cryptBytes >= 16 && cryptBytes % 16 == 0 && Gathered(data, cryptBytes, skipBytes) == []
    ensures Periods(aes, key, cryptBytes, skipBytes, prev, data) == data
  {
    assert |data| < 16;
  }

  // ----- From periods to the block rule -----

  lemma NextPhase(b: nat, d: nat)
    requires d > 0
    ensures (b + 1) % d == if b % d + 1 == d then 0 else b % d + 1
  {
    if b % d + 1 == d {
      assert b + 1 == d * (b / d + 1);
      ModUnique(b + 1, d, b / d + 1, 0);
    } else {
      ModUnique(b + 1, d, b / d, b % d + 1);
    }
  }

  /** The rest of a stretch of encrypted blocks is one piece of the chain. */
  lemma {:induction false} CryptRun(aes: Aes, key: Key, crypt: nat, skip: nat, prev: Block, data: seq<byte>, b: nat,
                                    m: nat)
    requires crypt > 0 && skip > 0 && m > 0 && b % (crypt + skip) + m == crypt
    ensures |data| < 16 * m ==> PatternDec(aes, key, crypt, skip, prev, data, b) == CbcDec(aes, key, prev, data)
    ensures |data| >= 16 * m ==>
              && (b + m) % (crypt + skip) == crypt
              && PatternDec(aes, key, crypt, skip, prev, data, b)
                 == CbcDec(aes, key, prev, data[..16 * m])
                    + PatternDec(aes, key, crypt, skip, data[16 * m - 16..16 * m], data[16 * m..], b + m)
    decreases m
  {
    NextPhase(b, crypt + skip);
    if m == 1 {
      if |data| >= 16 {
        assert data[..16][..16] == data[..16];
        assert data[..16][16..] == [];
      }
    } else if |data| >= 16 {
      var rest := data[16..];
      CryptRun(aes, key, crypt, skip, data[..16], rest, b + 1, m - 1);
      if |data| >= 16 * m {
        assert data[..16 * m][..16] == data[..16];
        assert data[..16 * m][16..] == rest[..16 * (m - 1)];
        assert rest[16 * (m - 1)..] == data[16 * m..];
        assert rest[16 * (m - 1) - 16..16 * (m - 1)] == data[16 * m - 16..16 * m];
      }
    }
  }

  lemma {:induction false} SkipRun(aes: Aes, key: Key, crypt: nat, skip: nat, prev: Block, data: seq<byte>, b: nat,
                                   m: nat)
    requires crypt > 0 && skip > 0 && m > 0 && b % (crypt + skip) + m == crypt + skip && m <= skip
    ensures |data| < 16 * m ==> PatternDec(aes, key, crypt, skip, prev, data, b) == data
    ensures |data| >= 16 * m ==>
              && (b + m) % (crypt + skip) == 0
              && PatternDec(aes, key, crypt, skip, prev, data, b)
                 == data[..16 * m] + PatternDec(aes, key, crypt, skip, prev, data[16 * m..], b + m)
    decreases m
  {
    NextPhase(b, crypt + skip);
    if |data| >= 16 && m > 1 {
      var rest := data[16..];
      SkipRun(aes, key, crypt, skip, prev, rest, b + 1, m - 1);
      if |data| >= 16 * m {
        assert data[..16 * m] == data[..16] + rest[..16 * (m - 1)];
        assert rest[16 * (m - 1)..] == data[16 * m..];
      }
    }
  }

  /** Working period by period follows the block rule. */
  lemma {:induction false} PeriodsArePattern(aes: Aes, key: Key, crypt: nat, skip: nat, prev: Block, data: seq<byte>,
                                             b: nat)
    requires crypt > 0 && skip > 0 && b % (crypt + skip) == 0
    ensures Periods(aes, key, crypt * 16, skip * 16, prev, data)
            == if KnownKey(key) then PatternDec(aes, key, crypt, skip, prev, data, b) else data
    decreases |data|
  {
    hide PatternDec, CbcDec, Periods, Gathered;
    var c, s := crypt * 16, skip * 16;
    if |data| >= c + s {
      var last: Block, rest := data[c - 16..c], data[c + s..];
      FirstPeriod(aes, key, c, s, prev, data);
      OnePeriod(aes, key, crypt, skip, prev, data, b);
      PeriodsArePattern(aes, key, crypt, skip, last, rest, b + crypt + skip);
      assert data == (data[..c] + data[c..c + s]) + rest;
    } else {
      ShortPeriod(aes, key, crypt, skip, prev, data, b);
    }
  }

  lemma OnePeriod(aes: Aes, key: Key, crypt: nat, skip: nat, prev: Block, data: seq<byte>, b: nat)
    requires crypt > 0 && skip > 0 && b % (crypt + skip) == 0 && |data| >= crypt * 16 + skip * 16
    ensures (b + crypt + skip) % (crypt + skip) == 0
    ensures var c, s := crypt * 16, skip * 16;
            PatternDec(aes, key, crypt, skip, prev, data, b)
            == (CbcDec(aes, key, prev, data[..c]) + data[c..c + s])
               + PatternDec(aes, key, crypt, skip, data[c - 16..c], data[c + s..], b + crypt + skip)
  {
    hide PatternDec, CbcDec;
    var c, s := crypt * 16, skip * 16;
    CryptRun(aes, key, crypt, skip, prev, data, b, crypt);
    SkipRun(aes, key, crypt, skip, data[c - 16..c], data[c..], b + crypt, skip);
    Suffix(data, c, s);
    AppendAssoc(CbcDec(aes, key, prev, data[..c]), data[c..c + s],
                PatternDec(aes, key, crypt, skip, data[c - 16..c], data[c + s..], b + crypt + skip));
  }

  lemma ShortPeriod(aes: Aes, key: Key, crypt: nat, skip: nat, prev: Block, data: seq<byte>, b: nat)
    requires crypt > 0 && skip > 0 && b % (crypt + skip) == 0 && |data| < 16 * (crypt + skip)
    ensures Periods(aes, key, crypt * 16, skip * 16, prev, data)
            == if KnownKey(key) then PatternDec(aes, key, crypt, skip, prev, data, b) else data
  {
    hide PatternDec, CbcDec;
    var c := crypt * 16;
    CryptRun(aes, key, crypt, skip, prev, data, b, crypt);
    if |data| >= c {
      SkipRun(aes, key, crypt, skip, data[c - 16..c], data[c..], b + crypt, skip);
    }
  }

  lemma {:induction false} NothingInPattern(aes: Aes, key: Key, crypt: nat, skip: nat, prev: Block, data: seq<byte>,
                                            b: nat)
    requires crypt == 0 || data == []
    ensures PatternDec(aes, key, crypt, skip, prev, data, b) == data
    decreases |data|
  {
    if |data| >= 16 {
      NothingInPattern(aes, key, crypt, skip, prev, data[16..], b + 1);
    }
  }

  lemma {:induction false} EverythingInPattern(aes: Aes, key: Key, crypt: nat, prev: Block, data: seq<byte>, b: nat)
    requires crypt > 0
    ensures PatternDec(aes, key, crypt, 0, prev, data, b) == CbcDec(aes, key, prev, data)
    decreases |data|
  {
    if |data| >= 16 {
      EverythingInPattern(aes, key, crypt, data[..16], data[16..], b + 1);
    }
  }

  // ----- What the pattern means -----

  /** Decryption undoes the pattern encryptor on every length and for every pattern. */
  lemma {:induction false} PatternInverts(aes: Aes, key: Key, crypt: nat, skip: nat, prev: Block, data: seq<byte>,
                                          b: nat)
    requires Inverts(aes)
    ensures PatternDec(aes, key, crypt, skip, prev, PatternEnc(aes, key, crypt, skip, prev, data, b), b) == data
    decreases |data|
  {
    if |data| >= 16 {
      var r := PatternEnc(aes, key, crypt, skip, prev, data, b);
      var block: Block := if InPattern(b, crypt, skip) then aes.enc(key, XorAll(data[..16], prev)) else data[..16];
      var carried: Block := if InPattern(b, crypt, skip) then block else prev;
      assert r[..16] == block && r[16..] == PatternEnc(aes, key, crypt, skip, carried, data[16..], b + 1);
      XorAllTwice(data[..16], prev);
      PatternInverts(aes, key, crypt, skip, carried, data[16..], b + 1);
    }
  }

  lemma CbcsInverts(aes: Aes, key: Key, iv: Block, crypt: nat, skip: nat, data: seq<byte>)
    requires Inverts(aes)
    ensures CbcsDec(aes, key, iv, crypt, skip, CbcsEnc(aes, key, iv, crypt, skip, data)) == data
  {
    if KnownKey(key) {
      PatternInverts(aes, key, crypt, skip, iv, data, 0);
    }
  }

  /** The ciphertext block the chain carries into block `k`: the nearest encrypted one before it. */
  function ChainInto(crypt: nat, skip: nat, prev: Block, data: seq<byte>, b: nat, k: nat): Block
    requires 16 * k <= |data|
  {
    if k == 0 then prev
    else if InPattern(b + k - 1, crypt, skip) then data[16 * k - 16..16 * k]
    else ChainInto(crypt, skip, prev, data, b, k - 1)
  }

  /** Byte by byte: block `k` is decrypted against the chain exactly when it is complete and in the pattern. */
  lemma {:induction false} PatternBlock(aes: Aes, key: Key, crypt: nat, skip: nat, prev: Block, data: seq<byte>, b: nat,
                                        k: nat)
    requires 16 * k <= |data|
    ensures var r := PatternDec(aes, key, crypt, skip, prev, data, b);
            if 16 * k + 16 <= |data| then
              r[16 * k..16 * k + 16]
              == if InPattern(b + k, crypt, skip)
                 then XorAll(aes.dec(key, data[16 * k..16 * k + 16]), ChainInto(crypt, skip, prev, data, b, k))
                 else data[16 * k..16 * k + 16]
            else r[16 * k..] == data[16 * k..]
    decreases |data|
  {
    hide PatternDec, ChainInto, InPattern, XorAll;
    if k == 0 {
      FirstBlock(aes, key, crypt, skip, prev, data, b);
    } else {
      var carried: Block := if InPattern(b, crypt, skip) then data[..16] else prev;
      AfterFirstBlock(aes, key, crypt, skip, prev, data, b);
      PatternBlock(aes, key, crypt, skip, carried, data[16..], b + 1, k - 1);
      ChainShift(crypt, skip, prev, data, b, k);
      var r := PatternDec(aes, key, crypt, skip, prev, data, b);
      if 16 * k + 16 <= |data| {
        SuffixSlice(data, 16, 16 * (k - 1), 16 * k);
        SuffixSlice(r, 16, 16 * (k - 1), 16 * k);
      } else {
        Suffix(data, 16, 16 * (k - 1));
        Suffix(r, 16, 16 * (k - 1));
      }
    }
  }

  lemma FirstBlock(aes: Aes, key: Key, crypt: nat, skip: nat, prev: Block, data: seq<byte>, b: nat)
    ensures var r := PatternDec(aes, key, crypt, skip, prev, data, b);
            if 16 <= |data| then
              r[..16] == if InPattern(b, crypt, skip)
                         then XorAll(aes.dec(key, data[..16]), ChainInto(crypt, skip, prev, data, b, 0))
                         else data[..16]
            else r == data
  {
  }

  lemma AfterFirstBlock(aes: Aes, key: Key, crypt: nat, skip: nat, prev: Block, data: seq<byte>, b: nat)
    requires |data| >= 16
    ensures PatternDec(aes, key, crypt, skip, prev, data, b)[16..]
            == PatternDec(aes, key, crypt, skip, if InPattern(b, crypt, skip) then data[..16] else prev, data[16..],
                          b + 1)
  {
  }

  lemma {:induction false} ChainShift(crypt: nat, skip: nat, prev: Block, data: seq<byte>, b: nat, k: nat)
    requires 0 < k && 16 * k <= |data|
    ensures ChainInto(crypt, skip, prev, data, b, k)
            == ChainInto(crypt, skip, if InPattern(b, crypt, skip) then data[..16] else prev, data[16..], b + 1, k - 1)
  {
    if k > 1 {
      ChainShift(crypt, skip, prev, data, b, k - 1);
      assert data[16..][16 * (k - 1) - 16..16 * (k - 1)] == data[16 * k - 16..16 * k];
    }
  }

  lemma GatheredUnfold(data: seq<byte>, cryptBytes: nat, skipBytes: nat)
    requires cryptBytes > 0
    ensures Gathered(data, cryptBytes, skipBytes)
            == if |data| < cryptBytes then data[..|data| / 16 * 16]
               else if |data| < cryptBytes + skipBytes then data[..cryptBytes]
               else data[..cryptBytes] + Gathered(data[cryptBytes + skipBytes..], cryptBytes, skipBytes)
  {
    if cryptBytes <= |data| {
      assert data[..cryptBytes] + [] == data[..cryptBytes];
    }
  }

  lemma StretchesUnfold(n: nat, pos: nat, cryptBytes: nat, skipBytes: nat)
    requires cryptBytes > 0 && pos <= n
    ensures var complete := (n - pos) / 16 * 16;
            Stretches(n, pos, cryptBytes, skipBytes)
            == if n - pos < cryptBytes then if complete > 0 then [(pos, complete)] else []
               else if n - pos < cryptBytes + skipBytes then [(pos, cryptBytes)]
               else [(pos, cryptBytes)] + Stretches(n, pos + cryptBytes + skipBytes, cryptBytes, skipBytes)
  {
    assert [(pos, cryptBytes)] + [] == [(pos, cryptBytes)];
  }

  /** What the gathering loop meets at `pos`. */
  lemma OneMoreStretch(data: seq<byte>, pos: nat, cryptBytes: nat, skipBytes: nat)
    requires cryptBytes > 0 && pos < |data|
    ensures var period, complete := cryptBytes + skipBytes, (|data| - pos) / 16 * 16;
            var gathered := Gathered(data[pos..], cryptBytes, skipBytes);
            var stretches := Stretches(|data|, pos, cryptBytes, skipBytes);
            if pos + period <= |data| then
              && gathered == data[pos..pos + cryptBytes] + Gathered(data[pos + period..], cryptBytes, skipBytes)
              && stretches == [(pos, cryptBytes)] + Stretches(|data|, pos + period, cryptBytes, skipBytes)
            else if pos + cryptBytes <= |data| then
              gathered == data[pos..pos + cryptBytes] && stretches == [(pos, cryptBytes)]
            else
              gathered == data[pos..pos + complete] && stretches == if complete > 0 then [(pos, complete)] else []
  {
    hide Gathered, Stretches;
    GatheredUnfold(data[pos..], cryptBytes, skipBytes);
    StretchesUnfold(|data|, pos, cryptBytes, skipBytes);
    if pos + cryptBytes + skipBytes <= |data| {
      Suffix(data, pos, cryptBytes + skipBytes);
    }
    if pos + cryptBytes <= |data| {
      Suffix(data, pos, cryptBytes);
    } else {
      Suffix(data, pos, (|data| - pos) / 16 * 16);
    }
  }

  lemma GatheredNothing(data: seq<byte>, cryptBytes: nat, skipBytes: nat)
    requires cryptBytes > 0
    ensures Gathered(data[|data|..], cryptBytes, skipBytes) == []
    ensures Stretches(|data|, |data|, cryptBytes, skipBytes) == []
  {
  }

  /** First loop: collect every encrypted stretch and note where it came from. */
  method GatherStretches(data: seq<byte>, cryptBytes: nat, skipBytes: nat)
    returns (encryptedBlocks: seq<byte>, blockPositions: seq<(nat, nat)>)
    requires cryptBytes > 0
    ensures encryptedBlocks == Gathered(data, cryptBytes, skipBytes)
    ensures blockPositions == Stretches(|data|, 0, cryptBytes, skipBytes)
  {
    hide Gathered, Stretches;
    encryptedBlocks, blockPositions := [], [];
    var pos := 0;
    assert data[0..] == data;
    while pos < |data|
      invariant pos <= |data|
      invariant encryptedBlocks + Gathered(data[pos..], cryptBytes, skipBytes) == Gathered(data, cryptBytes, skipBytes)
      invariant blockPositions + Stretches(|data|, pos, cryptBytes, skipBytes)
                == Stretches(|data|, 0, cryptBytes, skipBytes)
    {
      ghost var start, already, noted := pos, encryptedBlocks, blockPositions;
      OneMoreStretch(data, pos, cryptBytes, skipBytes);
      if pos + cryptBytes <= |data| {
        encryptedBlocks := encryptedBlocks + data[pos..pos + cryptBytes];
        blockPositions := blockPositions + [(pos, cryptBytes)];
        pos := pos + cryptBytes;
      } else {
        var remaining := |data| - pos;
        var complete := remaining / 16 * 16;
        if complete > 0 {
          encryptedBlocks := encryptedBlocks + data[pos..pos + complete];
          blockPositions := blockPositions + [(pos, complete)];
        }
        return;
      }
      if pos + skipBytes <= |data| {
        pos := pos + skipBytes;
        AppendAssoc(already, data[start..start + cryptBytes], Gathered(data[pos..], cryptBytes, skipBytes));
        AppendAssoc(noted, [(start, cryptBytes)], Stretches(|data|, pos, cryptBytes, skipBytes));
      } else {
        return;
      }
    }
    GatheredNothing(data, cryptBytes, skipBytes);
  }

  lemma NothingAfter(aes: Aes, key: Key, cryptBytes: nat, skipBytes: nat, prev: Block, n: nat)
    requires cryptBytes >= 16 && cryptBytes % 16 == 0
    ensures Stretches(n, n, cryptBytes, skipBytes) == [] && Gathered([], cryptBytes, skipBytes) == []
    ensures Periods(aes, key, cryptBytes, skipBytes, prev, []) == [] && CbcFullBlocks(aes, key, prev, []) == []
  {
  }

  /** What is left to do after one stretch has been put back: `gap` stays clear, `rest'` goes on from `prev'`. */
  lemma StretchStep(aes: Aes, key: Key, cryptBytes: nat, skipBytes: nat, prev: Block, rest: seq<byte>, n: nat,
                    decrypted: seq<byte>)
    returns (gap: seq<byte>, prev': Block, rest': seq<byte>)
    requires cryptBytes >= 16 && cryptBytes % 16 == 0 && |rest| <= n
    requires Stretches(n, n - |rest|, cryptBytes, skipBytes) != []
    requires decrypted == CbcFullBlocks(aes, key, prev, Gathered(rest, cryptBytes, skipBytes))
    ensures var (at, length) := Stretches(n, n - |rest|, cryptBytes, skipBytes)[0];
            && at == n - |rest| && length <= |rest| && length <= |decrypted|
            && rest[length..] == gap + rest'
            && Periods(aes, key, cryptBytes, skipBytes, prev, rest)
               == (decrypted[..length] + gap) + Periods(aes, key, cryptBytes, skipBytes, prev', rest')
            && decrypted[length..] == CbcFullBlocks(aes, key, prev', Gathered(rest', cryptBytes, skipBytes))
    ensures Stretches(n, n - |rest|, cryptBytes, skipBytes)[1..] == Stretches(n, n - |rest'|, cryptBytes, skipBytes)
  {
    hide Periods, CbcFullBlocks, Gathered, Stretches;
    var period := cryptBytes + skipBytes;
    assert |decrypted| == |Gathered(rest, cryptBytes, skipBytes)|;
    StretchesUnfold(n, n - |rest|, cryptBytes, skipBytes);
    GatheredUnfold(rest, cryptBytes, skipBytes);
    if |rest| >= period {
      FirstPeriod(aes, key, cryptBytes, skipBytes, prev, rest);
      gap, prev', rest' := rest[cryptBytes..period], rest[cryptBytes - 16..cryptBytes], rest[period..];
    } else {
      LastPeriod(aes, key, cryptBytes, skipBytes, prev, rest);
      NothingAfter(aes, key, cryptBytes, skipBytes, prev, n);
      gap, prev', rest' := rest[|decrypted|..], prev, [];
    }
  }

  lemma NothingLeft(aes: Aes, key: Key, cryptBytes: nat, skipBytes: nat, prev: Block, rest: seq<byte>, n: nat)
    requires cryptBytes >= 16 && cryptBytes % 16 == 0 && |rest| <= n
    requires Stretches(n, n - |rest|, cryptBytes, skipBytes) == []
    ensures Periods(aes, key, cryptBytes, skipBytes, prev, rest) == rest
  {
    assert |rest| < 16;
  }

  lemma Splice<T>(done: seq<T>, rest: seq<T>, written: seq<T>, n: nat)
    requires n <= |rest|
    ensures (done + rest)[..|done|] + written + (done + rest)[|done| + n..] == done + written + rest[n..]
  {
  }

  /** Second loop: copy the decrypted bytes over the stretches they came from. */
  method PutBackStretches(aes: Aes, data: seq<byte>, key: Key, ghost iv: Block, cryptBytes: nat, skipBytes: nat,
                          blockPositions: seq<(nat, nat)>, decryptedBlocks: seq<byte>)
    returns (result: seq<byte>)
    requires cryptBytes >= 16 && cryptBytes % 16 == 0
    requires blockPositions == Stretches(|data|, 0, cryptBytes, skipBytes)
    requires decryptedBlocks == CbcFullBlocks(aes, key, iv, Gathered(data, cryptBytes, skipBytes))
    ensures result == Periods(aes, key, cryptBytes, skipBytes, iv, data)
  {
    hide Periods, Gathered, Stretches;
    result := data;
    var decPos := 0;
    ghost var done: seq<byte>, rest, prev := [], data, iv;
    assert decryptedBlocks[0..] == decryptedBlocks;
    for k := 0 to |blockPositions|
      invariant result == done + rest && |result| == |data|
      invariant done + Periods(aes, key, cryptBytes, skipBytes, prev, rest)
                == Periods(aes, key, cryptBytes, skipBytes, iv, data)
      invariant blockPositions[k..] == Stretches(|data|, |data| - |rest|, cryptBytes, skipBytes)
      invariant 0 <= decPos <= |decryptedBlocks|
      invariant decryptedBlocks[decPos..] == CbcFullBlocks(aes, key, prev, Gathered(rest, cryptBytes, skipBytes))
    {
      var (origPos, length) := blockPositions[k];
      Suffix(blockPositions, k, 1);
      assert blockPositions[k..][0] == blockPositions[k];
      ghost var gap, prev', rest' :=
        StretchStep(aes, key, cryptBytes, skipBytes, prev, rest, |data|, decryptedBlocks[decPos..]);
      Suffix(decryptedBlocks, decPos, length);
      ghost var written := decryptedBlocks[decPos..decPos + length];
      Splice(done, rest, written, length);
      AppendAssoc(done + written, gap, rest');
      AppendAssoc(done, written + gap, Periods(aes, key, cryptBytes, skipBytes, prev', rest'));
      AppendAssoc(done, written, gap);
      result := result[..origPos] + decryptedBlocks[decPos..decPos + length] + result[origPos + length..];
      decPos := decPos + length;
      done, rest, prev := done + (written + gap), rest', prev';
    }
    NothingLeft(aes, key, cryptBytes, skipBytes, prev, rest, |data|);
  }

  /** The program's order: gather every encrypted stretch, decrypt them as one chain, put them back. */
  method DecryptCbcsPattern(aes: Aes, data: seq<byte>, key: Key, iv: Block, cryptBlocks: nat, skipBlocks: nat)
    returns (result: seq<byte>)
    ensures result == CbcsDec(aes, key, iv, cryptBlocks, skipBlocks, data)
  {
    if data == [] || cryptBlocks == 0 {
      NothingInPattern(aes, key, cryptBlocks, skipBlocks, iv, data, 0);
      return data;
    }
    var cryptBytes := cryptBlocks * 16;
    var skipBytes := skipBlocks * 16;
    if skipBytes == 0 {
      EverythingInPattern(aes, key, cryptBlocks, iv, data, 0);
      return CbcFullBlocks(aes, key, iv, data);
    }
    var encryptedBlocks, blockPositions := GatherStretches(data, cryptBytes, skipBytes);
    PeriodsArePattern(aes, key, cryptBlocks, skipBlocks, iv, data, 0);
    if encryptedBlocks == [] {
      NothingGathered(aes, key, cryptBytes, skipBytes, iv, data);
      return data;
    }
    var decryptedBlocks := CbcFullBlocks(aes, key, iv, encryptedBlocks);
    result := PutBackStretches(aes, data, key, iv, cryptBytes, skipBytes, blockPositions, decryptedBlocks);
  }
}
