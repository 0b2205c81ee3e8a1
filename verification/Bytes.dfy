/** Bytes, big-endian numbers and byte-wise exclusive or. */
module Bytes {

  type byte = x: int | 0 <= x < 0x100
  type uint16 = x: int | 0 <= x < 0x1_0000
  type uint32 = x: int | 0 <= x < 0x1_0000_0000

  datatype Option<+T> = None | Some(value: T)

  function Min(a: nat, b: nat): nat {
    if a <= b then a else b
  }

  function Pow256(w: nat): (p: nat)
    ensures p > 0
  {
    if w == 0 then 1 else 0x100 * Pow256(w - 1)
  }

  lemma Pow256Values()
    ensures Pow256(2) == 0x1_0000
    ensures Pow256(4) == 0x1_0000_0000
    ensures Pow256(8) == 0x1_0000_0000_0000_0000
    ensures Pow256(16) == Pow256(8) * Pow256(8)
  {
    assert Pow256(4) == 0x100 * (0x100 * Pow256(2));
    assert Pow256(8) == 0x100 * (0x100 * (0x100 * (0x100 * Pow256(4))));
    assert Pow256(12) == 0x100 * (0x100 * (0x100 * (0x100 * Pow256(8))));
    assert Pow256(16) == 0x100 * (0x100 * (0x100 * (0x100 * Pow256(12))));
  }

  /** The unsigned number whose big-endian digits are `s`. */
  function FromBE(s: seq<byte>): nat {
    if s == [] then 0 else 0x100 * FromBE(s[..|s| - 1]) + s[|s| - 1]
  }

  /** The low `w` big-endian digits of `n`: what a truncating cast followed by `to_be_bytes` yields. */
  function ToBE(n: nat, w: nat): (s: seq<byte>)
    ensures |s| == w
  {
    if w == 0 then [] else ToBE(n / 0x100, w - 1) + [n % 0x100]
  }

  lemma {:induction false} FromBEBound(s: seq<byte>)
    ensures FromBE(s) < Pow256(|s|)
  {
    if s != [] {
      FromBEBound(s[..|s| - 1]);
    }
  }

  lemma {:induction false} ToBEFromBE(s: seq<byte>)
    ensures ToBE(FromBE(s), |s|) == s
  {
    if s != [] {
      var front, last := s[..|s| - 1], s[|s| - 1];
      ToBEFromBE(front);
      ShiftSum(FromBE(front), 1, last);
      assert s == front + [last];
    }
  }

  lemma {:induction false} FromBEToBE(n: nat, w: nat)
    ensures FromBE(ToBE(n, w)) == n % Pow256(w)
  {
    if w > 0 {
      FromBEToBE(n / 0x100, w - 1);
      assert ToBE(n, w)[..w - 1] == ToBE(n / 0x100, w - 1);
      ModSplit(n, Pow256(w - 1));
    }
  }

  lemma ModSplit(n: nat, p: nat)
    requires p > 0
    ensures n % (0x100 * p) == 0x100 * ((n / 0x100) % p) + n % 0x100
  {
    var q := n / 0x100;
    var k, r := q / p, 0x100 * (q % p) + n % 0x100;
    assert n == (0x100 * p) * k + r by {
      assert q == p * k + q % p;
      assert 0x100 * (p * k) == (0x100 * p) * k;
    }
    ModUnique(n, 0x100 * p, k, r);
  }

  lemma ModUnique(n: int, d: nat, k: int, r: nat)
    requires r < d && n == d * k + r
    ensures n % d == r && n / d == k
  {
    var m := k - n / d;
    assert d * m == n % d - r by {
      assert d * m == d * k - d * (n / d);
    }
    if m >= 1 {
      MulAtLeast(d, m);
    } else if m <= -1 {
      assert false;
    }
  }

  lemma ModShift(n: int, m: nat, k: int)
    requires m > 0
    ensures (n + m * k) % m == n % m
  {
    var q, r := n / m, n % m;
    assert n + m * k == m * (q + k) + r by {
      assert m * (q + k) == m * q + m * k;
    }
    ModUnique(n + m * k, m, q + k, r);
  }

  /** Numbers less than `d` apart have different remainders. */
  lemma ModApart(a: nat, b: nat, d: nat)
    requires a < b < a + d
    ensures a % d != b % d
  {
    if a % d == b % d {
      var m := b / d - a / d;
      assert d * m == b - a by {
        assert d * m == d * (b / d) - d * (a / d);
      }
      if m >= 1 {
        MulAtLeast(d, m);
      }
    }
  }

  lemma MulAtLeast(d: nat, m: nat)
    requires m >= 1
    ensures d * m >= d
  {
    assert d * m == d + d * (m - 1);
  }

  lemma {:induction false} FromBEConcat(a: seq<byte>, b: seq<byte>)
    ensures FromBE(a + b) == FromBE(a) * Pow256(|b|) + FromBE(b)
  {
    if b == [] {
      assert a + b == a;
    } else {
      var b' := b[..|b| - 1];
      FromBEConcat(a, b');
      assert (a + b)[..|a + b| - 1] == a + b';
      assert FromBE(a) * Pow256(|b|) == 0x100 * (FromBE(a) * Pow256(|b'|));
    }
  }

  /** A number that fits `w` bytes survives being written and read back. */
  lemma FromBEToBEFits(n: nat, w: nat)
    requires n < Pow256(w)
    ensures FromBE(ToBE(n, w)) == n
  {
    FromBEToBE(n, w);
  }

  lemma SliceOfSlice<T>(s: seq<T>, i: nat, j: nat, a: nat, b: nat)
    requires i <= j <= |s| && a <= b <= j - i
    ensures s[i..j][a..b] == s[i + a..i + b]
  {
    var window := s[i..j];
    forall k | 0 <= k < b - a ensures window[a..b][k] == s[i + a..i + b][k] {
      assert window[a + k] == s[i + (a + k)];
    }
  }

  /** The digits of a number depend only on its low part. */
  lemma ToBEMod(n: nat, w: nat)
    ensures ToBE(n % Pow256(w), w) == ToBE(n, w)
  {
    FromBEToBE(n, w);
    ToBEFromBE(ToBE(n, w));
  }

  /** The digits of `q * 256^b + r` are those of `q` followed by those of `r`. */
  lemma {:induction false} ToBESplit(n: nat, q: nat, r: nat, a: nat, b: nat)
    requires n == q * Pow256(b) + r && r < Pow256(b)
    ensures ToBE(n, a + b) == ToBE(q, a) + ToBE(r, b)
    decreases b
  {
    if b > 0 {
      ShiftSum(q, Pow256(b - 1), r);
      ToBESplit(n / 0x100, q, r / 0x100, a, b - 1);
      AppendAssoc(ToBE(q, a), ToBE(r / 0x100, b - 1), [r % 0x100]);
    }
  }

  lemma ShiftSum(q: nat, p: nat, r: nat)
    ensures (q * (0x100 * p) + r) / 0x100 == q * p + r / 0x100
    ensures (q * (0x100 * p) + r) % 0x100 == r % 0x100
  {
    var x := q * p;
    assert q * (0x100 * p) == 0x100 * x;
  }

  lemma AppendAssoc<T>(x: seq<T>, y: seq<T>, z: seq<T>)
    ensures (x + y) + z == x + (y + z)
  {
  }

  lemma ModAdd(x: nat, b: nat, m: nat)
    requires m > 0
    ensures (x % m + b) % m == (x + b) % m
  {
    var y := x % m + b;
    assert x + b == m * (x / m + y / m) + y % m by {
      assert m * (x / m + y / m) == m * (x / m) + m * (y / m);
    }
    ModUnique(x + b, m, x / m + y / m, y % m);
  }

  lemma AddTwice(s: seq<byte>, a: nat, b: nat)
    ensures ToBE(FromBE(ToBE(FromBE(s) + a, |s|)) + b, |s|) == ToBE(FromBE(s) + (a + b), |s|)
  {
    var m, x := Pow256(|s|), FromBE(s) + a;
    FromBEToBE(x, |s|);
    ToBEMod(x % m + b, |s|);
    ToBEMod(x + b, |s|);
    ModAdd(x, b, m);
  }

  /** Adding to a number of `w` digits: only the low digits move unless the sum carries out of them. */
  lemma LowDigitsAdd(hi: seq<byte>, lo: seq<byte>, n: nat)
    requires |hi| > 0 && n < Pow256(|lo|)
    ensures ToBE(FromBE(hi + lo) + n, |hi| + |lo|) == hi + ToBE((FromBE(lo) + n) % Pow256(|lo|), |lo|)
            <==> FromBE(lo) + n < Pow256(|lo|)
  {
    var p, h, x := Pow256(|lo|), FromBE(hi), FromBE(lo) + n;
    FromBEConcat(hi, lo);
    ToBEFromBE(hi);
    FromBEBound(lo);
    if x < p {
      ToBESplit(h * p + x, h, x, |hi|, |lo|);
      ModUnique(x, p, 0, x);
    } else {
      ModUnique(x, p, 1, x - p);
      CarriedDigits(h, x, |hi|, |lo|);
      NextLastDigit(h, |hi|);
      FrontsDiffer(ToBE(h + 1, |hi|), hi, ToBE(x - p, |lo|), ToBE(x - p, |lo|));
    }
  }

  lemma CarriedDigits(h: nat, x: nat, a: nat, b: nat)
    requires Pow256(b) <= x < 2 * Pow256(b)
    ensures ToBE(h * Pow256(b) + x, a + b) == ToBE(h + 1, a) + ToBE(x - Pow256(b), b)
  {
    var p := Pow256(b);
    assert (h + 1) * p == h * p + p;
    ToBESplit(h * p + x, h + 1, x - p, a, b);
  }

  lemma FrontsDiffer<T>(a: seq<T>, b: seq<T>, c: seq<T>, d: seq<T>)
    requires |a| == |b| && a != b
    ensures a + c != b + d
  {
    assert (a + c)[..|a|] == a && (b + d)[..|b|] == b;
  }

  lemma LastDigit(n: nat, w: nat)
    requires w > 0
    ensures ToBE(n, w)[w - 1] == n % 0x100
  {
  }

  lemma NextLastDigit(n: nat, w: nat)
    requires w > 0
    ensures ToBE(n + 1, w) != ToBE(n, w)
  {
    LastDigit(n, w);
    LastDigit(n + 1, w);
  }

  lemma ConcatTail<T>(s: seq<T>, t: seq<T>)
    requires s != []
    ensures (s + t)[0] == s[0] && (s + t)[1..] == s[1..] + t
  {
  }

  lemma SliceConcat<T>(s: seq<T>, a: nat, b: nat, c: nat)
    requires a <= b <= c <= |s|
    ensures s[a..b] + s[b..c] == s[a..c]
  {
  }

  lemma SuffixSlice<T>(s: seq<T>, i: nat, a: nat, b: nat)
    requires a <= b && i + b <= |s|
    ensures s[i..][a..b] == s[i + a..i + b]
  {
    SliceOfSlice(s, i, |s|, a, b);
    assert s[i..|s|] == s[i..];
  }

  /** Parts of a suffix, as parts of the whole. */
  lemma Suffix<T>(s: seq<T>, i: nat, n: nat)
    requires i + n <= |s|
    ensures s[i..][n..] == s[i + n..]
    ensures s[i..][..n] == s[i..i + n]
  {
  }

  /** The pieces one behind the other. */
  function Joined<T>(pieces: seq<seq<T>>): seq<T> {
    if pieces == [] then [] else pieces[0] + Joined(pieces[1..])
  }

  lemma {:induction false} JoinedMore<T>(pieces: seq<seq<T>>, piece: seq<T>)
    ensures Joined(pieces + [piece]) == Joined(pieces) + piece
  {
    if pieces == [] {
      assert [piece][1..] == [];
    } else {
      ConcatTail(pieces, [piece]);
      JoinedMore(pieces[1..], piece);
      AppendAssoc(pieces[0], Joined(pieces[1..]), piece);
    }
  }

  lemma {:induction false} JoinedConcat<T>(a: seq<seq<T>>, b: seq<seq<T>>)
    ensures Joined(a + b) == Joined(a) + Joined(b)
  {
    if a == [] {
      assert a + b == b;
    } else {
      ConcatTail(a, b);
      JoinedConcat(a[1..], b);
      AppendAssoc(a[0], Joined(a[1..]), Joined(b));
    }
  }

  /** Each piece stands behind those before it. */
  lemma {:induction false} JoinedSlice<T>(pieces: seq<seq<T>>, i: nat)
    requires i < |pieces|
    ensures |Joined(pieces[..i + 1])| == |Joined(pieces[..i])| + |pieces[i]| <= |Joined(pieces)|
    ensures Joined(pieces)[|Joined(pieces[..i])|..|Joined(pieces[..i])| + |pieces[i]|] == pieces[i]
  {
    var front, back := pieces[..i], pieces[i + 1..];
    JoinedMore(front, pieces[i]);
    assert pieces[..i + 1] == front + [pieces[i]];
    JoinedConcat(front + [pieces[i]], back);
    assert pieces == front + [pieces[i]] + back;
    HoldsInside(Joined(front), pieces[i], Joined(back));
  }

  /** In `r`, piece `i` stands where it does in the joined pieces. */
  predicate StandsAt<T(==)>(pieces: seq<seq<T>>, r: seq<T>, i: nat)
    requires i < |pieces|
  {
    Holds(r, |Joined(pieces[..i])|, pieces[i])
  }

  lemma {:induction false} JoinedPrefix<T>(pieces: seq<seq<T>>, r: seq<T>, n: nat)
    requires n <= |pieces| && |r| == |Joined(pieces)| && forall i :: 0 <= i < |pieces| ==> StandsAt(pieces, r, i)
    ensures |Joined(pieces[..n])| <= |r| && r[..|Joined(pieces[..n])|] == Joined(pieces[..n])
    decreases n
  {
    if n > 0 {
      var front, last := pieces[..n - 1], pieces[n - 1];
      JoinedPrefix(pieces, r, n - 1);
      assert pieces[..n] == front + [last];
      JoinedMore(front, last);
      assert StandsAt(pieces, r, n - 1);
      var p := |Joined(front)|;
      assert r[..p + |last|] == r[..p] + r[p..p + |last|];
    }
  }

  /** That determines the whole. */
  lemma JoinedFromPieces<T>(pieces: seq<seq<T>>, r: seq<T>)
    requires |r| == |Joined(pieces)| && forall i :: 0 <= i < |pieces| ==> StandsAt(pieces, r, i)
    ensures r == Joined(pieces)
  {
    JoinedPrefix(pieces, r, |pieces|);
    assert pieces[..|pieces|] == pieces && r[..|r|] == r;
  }

  /** Does `piece` stand at `pos` in `data`? */
  predicate Holds<T(==)>(data: seq<T>, pos: nat, piece: seq<T>) {
    pos + |piece| <= |data| && data[pos..pos + |piece|] == piece
  }

  lemma HoldsSplit<T>(data: seq<T>, pos: nat, a: seq<T>, b: seq<T>)
    requires Holds(data, pos, a + b)
    ensures Holds(data, pos, a) && Holds(data, pos + |a|, b)
  {
    var whole := data[pos..pos + |a + b|];
    assert whole[..|a|] == a && whole[|a|..] == b;
    SliceOfSlice(data, pos, pos + |a + b|, 0, |a|);
    SliceOfSlice(data, pos, pos + |a + b|, |a|, |a + b|);
  }

  lemma HoldsMeans<T>(data: seq<T>, pos: nat, piece: seq<T>)
    requires Holds(data, pos, piece)
    ensures pos + |piece| <= |data| && data[pos..pos + |piece|] == piece
  {
  }

  lemma HoldsInside<T>(front: seq<T>, piece: seq<T>, back: seq<T>)
    ensures Holds(front + piece + back, |front|, piece)
  {
  }

  function U16(s: seq<byte>): (n: nat)
    requires |s| == 2
    ensures n < 0x1_0000
  {
    FromBEBound(s); Pow256Values();
    FromBE(s)
  }

  function U32(s: seq<byte>): (n: nat)
    requires |s| == 4
    ensures n < 0x1_0000_0000
  {
    FromBEBound(s); Pow256Values();
    FromBE(s)
  }

  function U64(s: seq<byte>): (n: nat)
    requires |s| == 8
    ensures n < 0x1_0000_0000_0000_0000
  {
    FromBEBound(s); Pow256Values();
    FromBE(s)
  }

  lemma FourDigits(a: byte, b: byte, c: byte, d: byte)
    ensures U32([a, b, c, d]) == ((a * 0x100 + b) * 0x100 + c) * 0x100 + d
  {
    assert [a, b, c, d][..3] == [a, b, c] && [a, b, c][..2] == [a, b] && [a, b][..1] == [a] && [a][..0] == [];
    assert FromBE([a]) == a;
    assert FromBE([a, b]) == a * 0x100 + b;
    assert FromBE([a, b, c]) == (a * 0x100 + b) * 0x100 + c;
  }

  // ----- Letters -----

  predicate IsAscii(s: string) {
    forall i :: 0 <= i < |s| ==> s[i] as int < 0x80
  }

  /** A text in its ASCII bytes. */
  function Ascii(s: string): (r: seq<byte>)
    requires IsAscii(s)
    ensures |r| == |s|
  {
    seq(|s|, i requires 0 <= i < |s| => s[i] as int)
  }

  /** The number four letters stand for. */
  function Code(s: string): nat
    requires |s| == 4 && IsAscii(s)
  {
    U32(Ascii(s))
  }

  lemma CodeValue(s: string)
    requires |s| == 4 && IsAscii(s)
    ensures Code(s) == ((s[0] as int * 0x100 + s[1] as int) * 0x100 + s[2] as int) * 0x100 + s[3] as int
  {
    var a := Ascii(s);
    assert a == [a[0], a[1], a[2], a[3]];
    FourDigits(a[0], a[1], a[2], a[3]);
  }

  /** Two's complement reading of a 32-bit pattern. */
  function AsI32(n: int): (i: int)
    ensures -0x8000_0000 <= i < 0x8000_0000
    ensures i % 0x1_0000_0000 == n % 0x1_0000_0000
  {
    var m := n % 0x1_0000_0000;
    if m < 0x8000_0000 then m else m - 0x1_0000_0000
  }

  /** Is the single-bit mask `mask` set in `flags`? */
  predicate HasFlag(flags: nat, mask: nat)
    requires mask > 0
  {
    flags / mask % 2 == 1
  }

  /** What a bit says of a number: whether the part from the bit on is odd. */
  lemma FlagMeans(q: nat, r: nat, mask: nat, given: bool)
    requires r < mask
    ensures HasFlag(mask * (2 * q + if given then 1 else 0) + r, mask) == given
  {
    var n := 2 * q + if given then 1 else 0;
    ModUnique(mask * n + r, mask, n, r);
  }

  /** Exclusive or of the low `bits` bits of two numbers. */
  function XorBits(a: nat, b: nat, bits: nat): (r: nat)
    ensures r < Pow2(bits)
  {
    if bits == 0 then 0 else 2 * XorBits(a / 2, b / 2, bits - 1) + (a + b) % 2
  }

  function Pow2(bits: nat): (p: nat)
    ensures p > 0
  {
    if bits == 0 then 1 else 2 * Pow2(bits - 1)
  }

  lemma {:induction false} XorBitsTwice(a: nat, b: nat, bits: nat)
    requires a < Pow2(bits)
    ensures XorBits(XorBits(a, b, bits), b, bits) == a
  {
    if bits > 0 {
      var h := XorBits(a / 2, b / 2, bits - 1);
      XorBitsTwice(a / 2, b / 2, bits - 1);
      LowBitTwice(a, b, h);
    }
  }

  lemma LowBitTwice(a: nat, b: nat, h: nat)
    ensures (2 * h + (a + b) % 2) / 2 == h
    ensures (2 * h + (a + b) % 2 + b) % 2 == a % 2
  {
  }

  /** Exclusive or of two bytes. */
  function Xor(a: byte, b: byte): (r: byte) {
    Pow2Of8();
    XorBits(a, b, 8)
  }

  lemma Pow2Of8()
    ensures Pow2(8) == 0x100
  {
    assert Pow2(4) == 16;
    assert Pow2(8) == 16 * Pow2(4);
  }

  lemma XorTwice(a: byte, b: byte)
    ensures Xor(Xor(a, b), b) == a
  {
    Pow2Of8();
    XorBitsTwice(a, b, 8);
  }

  lemma {:induction false} XorBitsCommute(a: nat, b: nat, bits: nat)
    ensures XorBits(a, b, bits) == XorBits(b, a, bits)
  {
    if bits > 0 {
      XorBitsCommute(a / 2, b / 2, bits - 1);
    }
  }

  lemma {:induction false} XorBitsZero(a: nat, bits: nat)
    requires a < Pow2(bits)
    ensures XorBits(a, 0, bits) == a
  {
    if bits > 0 {
      XorBitsZero(a / 2, bits - 1);
    }
  }

  lemma XorZero(a: byte)
    ensures Xor(a, 0) == a
  {
    Pow2Of8();
    XorBitsZero(a, 8);
  }

  /** Different bytes change a byte differently. */
  lemma XorCancels(a: byte, b: byte, c: byte)
    ensures Xor(a, b) == Xor(a, c) <==> b == c
    ensures Xor(Xor(a, b), c) == a <==> b == c
  {
    XorBitsCommute(a, b, 8);
    XorBitsCommute(a, c, 8);
    XorBitsCommute(Xor(a, b), c, 8);
    XorBitsCommute(Xor(a, b), b, 8);
    XorTwice(b, a);
    XorTwice(c, a);
    XorTwice(a, b);
    XorTwice(c, Xor(a, b));
    XorTwice(b, Xor(a, b));
  }

  lemma XorHalf(a: nat, b: nat, bits: nat)
    requires bits > 0
    ensures XorBits(a, b, bits) / 2 == XorBits(a / 2, b / 2, bits - 1) && XorBits(a, b, bits) % 2 == (a + b) % 2
  {
  }

  /** A bit of the exclusive or is set exactly when it is set in one of the two. */
  lemma {:induction false} XorBitwise(a: nat, b: nat, bits: nat, k: nat)
    requires k < bits
    ensures HasFlag(XorBits(a, b, bits), Pow2(k)) <==> HasFlag(a, Pow2(k)) != HasFlag(b, Pow2(k))
  {
    hide XorBits, HasFlag;
    XorHalf(a, b, bits);
    if k > 0 {
      XorBitwise(a / 2, b / 2, bits - 1, k - 1);
      HalfFlag(XorBits(a, b, bits), Pow2(k - 1));
      HalfFlag(a, Pow2(k - 1));
      HalfFlag(b, Pow2(k - 1));
    } else {
      LowFlag(XorBits(a, b, bits));
      LowFlag(a);
      LowFlag(b);
      assert Pow2(0) == 1;
    }
  }

  lemma LowFlag(n: nat)
    ensures HasFlag(n, 1) <==> n % 2 == 1
  {
  }

  lemma HalfFlag(n: nat, mask: nat)
    requires mask > 0
    ensures HasFlag(n, 2 * mask) == HasFlag(n / 2, mask)
  {
    var q, r := n / 2, n % 2;
    assert q == mask * (q / mask) + q % mask;
    ModUnique(n, 2 * mask, q / mask, 2 * (q % mask) + r) by {
      assert n == 2 * q + r;
      assert 2 * (mask * (q / mask)) == 2 * mask * (q / mask);
    }
  }

  /** Position-wise exclusive or of two strings of one length. */
  function XorAll(a: seq<byte>, b: seq<byte>): (r: seq<byte>)
    requires |a| == |b|
    ensures |r| == |a|
  {
    seq(|a|, i requires 0 <= i < |a| => Xor(a[i], b[i]))
  }

  lemma XorAllTwice(a: seq<byte>, b: seq<byte>)
    requires |a| == |b|
    ensures XorAll(XorAll(a, b), b) == a
  {
    forall i | 0 <= i < |a| ensures Xor(Xor(a[i], b[i]), b[i]) == a[i] {
      XorTwice(a[i], b[i]);
    }
  }
}
