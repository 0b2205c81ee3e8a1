/** The block cipher as a parameter, and the counter and chaining modes built on it
    (src/drm/cenc.rs:960-999 and 1077-1178). */
module Cipher {
  import opened Bytes

  type Key = seq<byte>
  type Block = b: seq<byte> | |b| == 16 witness seq(16, _ => 0)

  /** AES on one block, in both directions. */
  datatype Aes = Aes(enc: (Key, Block) -> Block, dec: (Key, Block) -> Block)

  ghost predicate Inverts(aes: Aes) {
    forall k: Key, b: Block :: aes.dec(k, aes.enc(k, b)) == b
  }

  /** Key lengths for which a cipher exists; with any other key data is left as it is. */
  predicate KnownKey(key: Key) {
    |key| == 16 || |key| == 32
  }

  // ----- Counter mode -----

  /** The 128-bit big-endian counter block `n` steps after `iv`. */
  function AddCounter(iv: Block, n: nat): Block {
    ToBE(FromBE(iv) + n, |iv|)
  }

  /** Byte `i` of the continuous keystream that starts at counter block `iv`. */
  function KeystreamByte(aes: Aes, key: Key, iv: Block, i: nat): byte {
    aes.enc(key, AddCounter(iv, i / 16))[i % 16]
  }

  function Keystream(aes: Aes, key: Key, iv: Block, indices: seq<nat>): (s: seq<byte>)
    ensures |s| == |indices|
  {
    seq(|indices|, i requires 0 <= i < |indices| => KeystreamByte(aes, key, iv, indices[i]))
  }

  /** The numbers `from`, `from + 1`, and so on, `n` of them. */
  function Run(from: nat, n: nat): (r: seq<nat>)
    ensures |r| == n
  {
    seq(n, i requires 0 <= i < n => from + i)
  }

  /** What the library's counter mode does to `data`. */
  function CtrApply(aes: Aes, key: Key, iv: Block, data: seq<byte>): seq<byte> {
    XorAll(data, Keystream(aes, key, iv, Run(0, |data|)))
  }

  /** The start block for data `offset` blocks into a sample: only the low 64 bits move, and wrap. */
  function OffsetIv(iv: Block, offset: nat): Block {
    if offset > 0 then
      var counter := U64(iv[8..]);
      var moved := (counter + offset % 0x1_0000_0000_0000_0000) % 0x1_0000_0000_0000_0000;
      iv[..8] + ToBE(moved, 8)
    else
      iv
  }

  function CtrWithOffset(aes: Aes, key: Key, iv: Block, data: seq<byte>, offset: nat): (r: seq<byte>)
    ensures |r| == |data|
  {
    if KnownKey(key) then CtrApply(aes, key, OffsetIv(iv, offset), data) else data
  }

  lemma CtrTwice(aes: Aes, key: Key, iv: Block, data: seq<byte>, offset: nat)
    ensures CtrWithOffset(aes, key, iv, CtrWithOffset(aes, key, iv, data, offset), offset) == data
  {
    XorAllTwice(data, Keystream(aes, key, OffsetIv(iv, offset), Run(0, |data|)));
  }

  /** Moving the low half equals moving the whole 128-bit counter exactly when the low half does not overflow. */
  lemma OffsetIvExact(iv: Block, offset: nat)
    requires offset < 0x1_0000_0000_0000_0000
    ensures OffsetIv(iv, offset) == AddCounter(iv, offset)
            <==> U64(iv[8..]) + offset < 0x1_0000_0000_0000_0000
  {
    var hi, lo := iv[..8], iv[8..];
    assert iv == hi + lo;
    if offset == 0 {
      ToBEFromBE(iv);
      assert U64(lo) < 0x1_0000_0000_0000_0000;
    } else {
      MovedLowHalf(iv, offset);
      LowDigitsAdd(hi, lo, offset);
    }
  }

  lemma MovedLowHalf(iv: Block, offset: nat)
    requires 0 < offset < 0x1_0000_0000_0000_0000
    ensures Pow256(8) == 0x1_0000_0000_0000_0000
    ensures OffsetIv(iv, offset) == iv[..8] + ToBE((FromBE(iv[8..]) + offset) % Pow256(|iv[8..]|), |iv[8..]|)
  {
    hide ToBE, FromBE;
    Pow256Values();
    assert |iv[8..]| == 8;
  }

  lemma AddCounterTwice(iv: Block, a: nat, b: nat)
    ensures AddCounter(AddCounter(iv, a), b) == AddCounter(iv, a + b)
  {
    AddTwice(iv, a, b);
  }

  /** Restarting the cipher `offset` blocks in continues the keystream of the whole sample. */
  lemma CtrContinues(aes: Aes, key: Key, iv: Block, data: seq<byte>, offset: nat)
    requires KnownKey(key)
    requires U64(iv[8..]) + offset < 0x1_0000_0000_0000_0000
    ensures CtrWithOffset(aes, key, iv, data, offset)
            == XorAll(data, Keystream(aes, key, iv, Run(16 * offset, |data|)))
  {
    hide AddCounter, OffsetIv;
    OffsetIvExact(iv, offset);
    forall i | 0 <= i < |data|
      ensures KeystreamByte(aes, key, OffsetIv(iv, offset), i) == KeystreamByte(aes, key, iv, 16 * offset + i)
    {
      AddCounterTwice(iv, offset, i / 16);
      assert (16 * offset + i) / 16 == offset + i / 16 && (16 * offset + i) % 16 == i % 16;
    }
  }

  // ----- Block chaining -----

  /** CBC decryption of the complete blocks of `data`; a trailing partial block stays. */
  function CbcDec(aes: Aes, key: Key, prev: Block, data: seq<byte>): (r: seq<byte>)
    ensures |r| == |data|
    decreases |data|
  {
    if |data| < 16 then data
    else XorAll(aes.dec(key, data[..16]), prev) + CbcDec(aes, key, data[..16], data[16..])
  }

  function CbcEnc(aes: Aes, key: Key, prev: Block, data: seq<byte>): (r: seq<byte>)
    ensures |r| == |data|
    decreases |data|
  {
    if |data| < 16 then data
    else
      var block: Block := aes.enc(key, XorAll(data[..16], prev));
      block + CbcEnc(aes, key, block, data[16..])
  }

  function CbcFullBlocks(aes: Aes, key: Key, iv: Block, data: seq<byte>): (r: seq<byte>)
    ensures |r| == |data|
  {
    if KnownKey(key) then CbcDec(aes, key, iv, data) else data
  }

  lemma {:induction false} CbcInverts(aes: Aes, key: Key, prev: Block, data: seq<byte>)
    requires Inverts(aes)
    ensures CbcDec(aes, key, prev, CbcEnc(aes, key, prev, data)) == data
    decreases |data|
  {
    if |data| >= 16 {
      var block: Block := aes.enc(key, XorAll(data[..16], prev));
      var r := CbcEnc(aes, key, prev, data);
      assert r[..16] == block && r[16..] == CbcEnc(aes, key, block, data[16..]);
      XorAllTwice(data[..16], prev);
      CbcInverts(aes, key, block, data[16..]);
    }
  }

  /** A chain may be cut at a block border: the next part continues from the last ciphertext block. */
  lemma {:induction false} CbcCut(aes: Aes, key: Key, prev: Block, a: seq<byte>, b: seq<byte>)
    requires |a| % 16 == 0 && |a| > 0
    ensures CbcDec(aes, key, prev, a + b)
            == CbcDec(aes, key, prev, a) + CbcDec(aes, key, a[|a| - 16..], b)
    decreases |a|
  {
    assert (a + b)[..16] == a[..16] && (a + b)[16..] == a[16..] + b;
    if |a| == 16 {
      assert a[16..] + b == b;
    } else {
      CbcCut(aes, key, a[..16], a[16..], b);
    }
  }
}
