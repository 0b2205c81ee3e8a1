/** The key under which a segment fetched with given request headers is cached (src/hls/prebuffer.rs:275-299). Strings
    are their UTF-8 bytes. */
module CacheKey {
  import opened Bytes
  import opened Sorting

  type Text = seq<byte>

  datatype Header = Header(name: Text, value: Text)

  const NEWLINE: byte := 10
  const EQUALS: byte := 61
  const PERCENT: byte := 37

  // ----- Canonical headers -----

  function LowerByte(b: byte): byte {
    if 65 <= b <= 90 then b + 32 else b
  }

  /** ASCII letters in lower case; other bytes stay. */
  function Lower(s: Text): (r: Text)
    ensures |r| == |s|
  {
    seq(|s|, i requires 0 <= i < |s| => LowerByte(s[i]))
  }

  function Canonical(hs: seq<Header>): (r: seq<Header>)
    ensures |r| == |hs|
  {
    seq(|hs|, i requires 0 <= i < |hs| => Header(Lower(hs[i].name), hs[i].value))
  }

  /** Byte-wise lexicographic order. */
  predicate Before(a: Text, b: Text) {
    a == [] || (b != [] && (a[0] < b[0] || (a[0] == b[0] && Before(a[1..], b[1..]))))
  }

  lemma {:induction false} BeforeTotal(a: Text, b: Text)
    ensures Before(a, b) || Before(b, a)
    ensures Before(a, b) && Before(b, a) ==> a == b
    decreases |a|
  {
    if a != [] && b != [] && a[0] == b[0] {
      BeforeTotal(a[1..], b[1..]);
      assert a == [a[0]] + a[1..] && b == [b[0]] + b[1..];
    }
  }

  lemma {:induction false} BeforeTransitive(a: Text, b: Text, c: Text)
    requires Before(a, b) && Before(b, c)
    ensures Before(a, c)
    decreases |a|
  {
    if a != [] && a[0] == b[0] && b[0] == c[0] {
      BeforeTransitive(a[1..], b[1..], c[1..]);
    }
  }

  /** By name, then by value. */
  predicate Leq(x: Header, y: Header) {
    if x.name == y.name then Before(x.value, y.value) else Before(x.name, y.name)
  }

  lemma LeqTotal(x: Header, y: Header)
    ensures Leq(x, y) || Leq(y, x)
    ensures Leq(x, y) && Leq(y, x) ==> x == y
  {
    BeforeTotal(x.name, y.name);
    BeforeTotal(x.value, y.value);
  }

  lemma LeqTransitive(x: Header, y: Header, z: Header)
    requires Leq(x, y) && Leq(y, z)
    ensures Leq(x, z)
  {
    BeforeTotal(x.name, y.name);
    BeforeTotal(y.name, z.name);
    if x.name == y.name == z.name {
      BeforeTransitive(x.value, y.value, z.value);
    } else if x.name != y.name && y.name != z.name {
      BeforeTransitive(x.name, y.name, z.name);
    }
  }

  lemma LeqOrders()
    ensures Orders(Leq) && forall x, y :: Leq(x, y) && Leq(y, x) ==> x == y
  {
    hide Leq;
    forall x, y ensures (Leq(x, y) || Leq(y, x)) && (Leq(x, y) && Leq(y, x) ==> x == y) {
      LeqTotal(x, y);
    }
    forall x, y, z | Leq(x, y) && Leq(y, z) ensures Leq(x, z) {
      LeqTransitive(x, y, z);
    }
  }

  /** The headers in canonical order. */
  function Ordered(hs: seq<Header>): seq<Header> {
    Sort(Leq, Canonical(hs))
  }

  lemma OrderedKeeps(hs: seq<Header>)
    ensures multiset(Ordered(hs)) == Identity(hs) && |Ordered(hs)| == |hs|
  {
    LeqOrders();
    SortSorts(Leq, Canonical(hs));
  }

  /** Two lists of headers have one canonical order if and only if they are the same up to order and case. */
  lemma OrderedIdentity(g: seq<Header>, h: seq<Header>)
    ensures Ordered(g) == Ordered(h) <==> Identity(g) == Identity(h)
  {
    OrderedKeeps(g);
    OrderedKeeps(h);
    LeqOrders();
    SortSorts(Leq, Canonical(g));
    SortSorts(Leq, Canonical(h));
    if Identity(g) == Identity(h) {
      SortedUnique(Leq, Ordered(g), Ordered(h));
    }
  }

  /** What the headers of a request are, without regard to order and to the case of names. */
  function Identity(hs: seq<Header>): multiset<Header> {
    multiset(Canonical(hs))
  }

  // ----- The same headers -----

  /** The same letter in upper and in lower case. */
  predicate CasePair(a: byte, b: byte) {
    65 <= a <= 90 && b == a + 32
  }

  /** Names that differ at most in the case of ASCII letters. */
  predicate SameName(a: Text, b: Text) {
    |a| == |b| && forall i :: 0 <= i < |a| ==> a[i] == b[i] || CasePair(a[i], b[i]) || CasePair(b[i], a[i])
  }

  predicate SameHeader(x: Header, y: Header) {
    SameName(x.name, y.name) && x.value == y.value
  }

  /** `p` pairs the positions below `n` one to one. */
  predicate Pairing(p: seq<nat>, n: nat) {
    && |p| == n && (forall i :: 0 <= i < n ==> p[i] < n)
    && forall i, j :: 0 <= i < j < n ==> p[i] != p[j]
  }

  /** Some one-to-one pairing matches the headers of two requests, in whatever order they are. */
  ghost predicate SameHeaders(g: seq<Header>, h: seq<Header>) {
    |g| == |h| && exists p :: Pairing(p, |g|) && forall i :: 0 <= i < |g| ==> SameHeader(g[i], h[p[i]])
  }

  lemma LowerMeans(a: Text, b: Text)
    ensures Lower(a) == Lower(b) <==> SameName(a, b)
  {
    if Lower(a) == Lower(b) {
      forall i | 0 <= i < |a| ensures a[i] == b[i] || CasePair(a[i], b[i]) || CasePair(b[i], a[i]) {
        assert Lower(a)[i] == Lower(b)[i];
      }
    }
  }

  lemma CanonicalMeans(g: seq<Header>, h: seq<Header>, i: nat, j: nat)
    requires i < |g| && j < |h|
    ensures Canonical(g)[i] == Canonical(h)[j] <==> SameHeader(g[i], h[j])
  {
    LowerMeans(g[i].name, h[j].name);
  }

  /** A list without its element `j`. */
  function Without<T>(s: seq<T>, j: nat): (r: seq<T>)
    requires j < |s|
    ensures |r| == |s| - 1
  {
    s[..j] + s[j + 1..]
  }

  lemma WithoutCounts<T>(s: seq<T>, j: nat)
    requires j < |s|
    ensures multiset(s) == multiset(Without(s, j)) + multiset{s[j]}
  {
    assert s == s[..j] + [s[j]] + s[j + 1..];
  }

  lemma SameRest<T>(a: multiset<T>, b: multiset<T>, x: T)
    requires a + multiset{x} == b + multiset{x}
    ensures a == b
  {
    assert (a + multiset{x}) - multiset{x} == a && (b + multiset{x}) - multiset{x} == b;
  }

  /** Equal collections can be paired. */
  lemma {:induction false} PairUp<T>(a: seq<T>, b: seq<T>) returns (p: seq<nat>)
    requires multiset(a) == multiset(b)
    ensures Pairing(p, |a|) && |a| == |b| && forall i :: 0 <= i < |a| ==> a[i] == b[p[i]]
    decreases |a|
  {
    hide Without;
    assert |multiset(a)| == |a| && |multiset(b)| == |b|;
    if a == [] {
      p := [];
    } else {
      assert a[0] in multiset(b);
      var j :| 0 <= j < |b| && b[j] == a[0];
      WithoutCounts(b, j);
      WithoutCounts(a, 0);
      DropsFirst(a);
      SameRest(multiset(a[1..]), multiset(Without(b, j)), a[0]);
      var q := PairUp(a[1..], Without(b, j));
      p := MorePairs(a, b, j, q);
    }
  }

  lemma MorePairs<T>(a: seq<T>, b: seq<T>, j: nat, q: seq<nat>) returns (p: seq<nat>)
    requires |a| == |b| && a != [] && j < |b| && b[j] == a[0] && Pairing(q, |a| - 1)
    requires forall i :: 0 <= i < |a| - 1 ==> a[1..][i] == Without(b, j)[q[i]]
    ensures Pairing(p, |a|) && forall i :: 0 <= i < |a| ==> a[i] == b[p[i]]
  {
    p := [j] + seq(|q|, i requires 0 <= i < |q| => if q[i] < j then q[i] else q[i] + 1);
    forall i | 0 <= i < |a| ensures p[i] < |a| && a[i] == b[p[i]] {
      if i > 0 {
        assert a[1..][i - 1] == Without(b, j)[q[i - 1]];
      }
    }
    forall i, k | 0 <= i < k < |a| ensures p[i] != p[k] {
      if i > 0 {
        assert q[i - 1] != q[k - 1];
      }
    }
  }

  /** A pairing without its first pair. */
  function Rest(p: seq<nat>): (q: seq<nat>)
    requires p != []
    ensures |q| == |p| - 1
  {
    seq(|p| - 1, i requires 0 <= i < |p| - 1 => if p[i + 1] < p[0] || p[i + 1] == 0 then p[i + 1] else p[i + 1] - 1)
  }

  lemma RestPairs(p: seq<nat>, n: nat)
    requires Pairing(p, n) && n > 0
    ensures Pairing(Rest(p), n - 1)
  {
    var q := Rest(p);
    forall i | 0 < i < n ensures p[i] != p[0] && q[i - 1] < n - 1 {
      assert p[0] != p[i];
    }
    forall i, j | 0 <= i < j < n - 1 ensures q[i] != q[j] {
      assert p[i + 1] != p[j + 1] && p[0] != p[i + 1] && p[0] != p[j + 1];
    }
  }

  lemma RestAt<T>(b: seq<T>, p: seq<nat>, i: nat)
    requires Pairing(p, |b|) && i + 1 < |b|
    ensures Rest(p)[i] < |b| - 1 && Without(b, p[0])[Rest(p)[i]] == b[p[i + 1]]
  {
    assert p[0] != p[i + 1];
  }

  lemma {:induction false} PairedEqual<T>(a: seq<T>, b: seq<T>, p: seq<nat>)
    requires |a| == |b| && Pairing(p, |a|) && forall i :: 0 <= i < |a| ==> a[i] == b[p[i]]
    ensures multiset(a) == multiset(b)
    decreases |a|
  {
    hide Rest, Without, Pairing;
    if a != [] {
      FirstPlace(p, |b|);
      WithoutCounts(b, p[0]);
      WithoutCounts(a, 0);
      assert Without(a, 0) == a[1..] by {
        DropsFirst(a);
      }
      RestPairs(p, |a|);
      forall i | 0 <= i < |a| - 1 ensures Rest(p)[i] < |a| - 1 && a[1..][i] == Without(b, p[0])[Rest(p)[i]] {
        RestAt(b, p, i);
      }
      PairedEqual(a[1..], Without(b, p[0]), Rest(p));
    }
  }

  lemma FirstPlace(p: seq<nat>, n: nat)
    requires Pairing(p, n) && n > 0
    ensures |p| == n && p[0] < n
  {
  }

  lemma DropsFirst<T>(a: seq<T>)
    requires a != []
    ensures Without(a, 0) == a[1..]
  {
  }

  /** Two requests have one identity if and only if their headers can be paired. */
  lemma IdentityMeans(g: seq<Header>, h: seq<Header>)
    ensures Identity(g) == Identity(h) <==> SameHeaders(g, h)
  {
    hide Canonical, SameHeader;
    var a, b := Canonical(g), Canonical(h);
    if Identity(g) == Identity(h) {
      var p := PairUp(a, b);
      forall i | 0 <= i < |g| ensures SameHeader(g[i], h[p[i]]) {
        CanonicalMeans(g, h, i, p[i]);
      }
    }
    if SameHeaders(g, h) {
      var p :| Pairing(p, |g|) && forall i :: 0 <= i < |g| ==> SameHeader(g[i], h[p[i]]);
      forall i | 0 <= i < |g| ensures a[i] == b[p[i]] {
        CanonicalMeans(g, h, i, p[i]);
      }
      PairedEqual(a, b, p);
    }
  }

  // ----- Percent encoding -----

  predicate Unreserved(b: byte) {
    48 <= b <= 57 || 65 <= b <= 90 || 97 <= b <= 122 || b == 45 || b == 95 || b == 46 || b == 126
  }

  function HexDigit(n: nat): byte
    requires n < 16
  {
    if n < 10 then 48 + n else 55 + n
  }

  function EncodeByte(b: byte): (r: Text)
    ensures r != [] && forall i :: 0 <= i < |r| ==> r[i] != NEWLINE && r[i] != EQUALS
  {
    if Unreserved(b) then [b] else [PERCENT, HexDigit(b / 16), HexDigit(b % 16)]
  }

  function Encode(s: Text): Text {
    if s == [] then [] else EncodeByte(s[0]) + Encode(s[1..])
  }

  predicate Free(s: Text, sep: byte) {
    forall i :: 0 <= i < |s| ==> s[i] != sep
  }

  lemma {:induction false} EncodeFree(s: Text)
    ensures Free(Encode(s), NEWLINE) && Free(Encode(s), EQUALS)
    decreases |s|
  {
    hide EncodeByte;
    if s != [] {
      EncodeFree(s[1..]);
    }
  }

  lemma EncodeByteInjective(a: byte, b: byte, x: Text, y: Text)
    requires EncodeByte(a) + x == EncodeByte(b) + y
    ensures a == b && x == y
  {
    var s, t := EncodeByte(a) + x, EncodeByte(b) + y;
    assert s[0] == t[0];
    if Unreserved(a) {
      assert s[1..] == x && t[1..] == y;
    } else {
      assert s[1] == t[1] && s[2] == t[2];
      HexInjective(a / 16, b / 16);
      HexInjective(a % 16, b % 16);
      assert s[3..] == x && t[3..] == y;
    }
  }

  lemma HexInjective(m: nat, n: nat)
    requires m < 16 && n < 16 && HexDigit(m) == HexDigit(n)
    ensures m == n
  {
  }

  lemma {:induction false} EncodeInjective(a: Text, b: Text)
    requires Encode(a) == Encode(b)
    ensures a == b
    decreases |a|
  {
    hide EncodeByte;
    if a != [] && b != [] {
      EncodeByteInjective(a[0], b[0], Encode(a[1..]), Encode(b[1..]));
      EncodeInjective(a[1..], b[1..]);
      assert a == [a[0]] + a[1..] && b == [b[0]] + b[1..];
    }
  }

  /** Letters, digits and four marks stay; every other byte becomes a percent sign and two upper-case digits (section 2
      of RFC 3986). */
  lemma EncodedByte(b: byte)
    ensures var c := b as char;
            EncodeByte(b) == if 'A' <= c <= 'Z' || 'a' <= c <= 'z' || '0' <= c <= '9' || c in "-._~" then [b]
                             else Ascii(['%', "0123456789ABCDEF"[b / 16], "0123456789ABCDEF"[b % 16]])
  {
    forall d | 0 <= d < 16 ensures HexDigit(d) == "0123456789ABCDEF"[d] as int {
      assert d in [0, 1, 2, 3, 4, 5, 6, 7, 8, 9, 10, 11, 12, 13, 14, 15];
    }
  }

  // ----- The key -----

  function EncodeHeader(h: Header): Text {
    [NEWLINE] + (Encode(h.name) + ([EQUALS] + Encode(h.value)))
  }

  function EncodeHeaders(hs: seq<Header>): (r: Text)
    ensures r == [] || r[0] == NEWLINE
  {
    if hs == [] then [] else EncodeHeader(hs[0]) + EncodeHeaders(hs[1..])
  }

  /** Without headers the source returns the URL at once; that is what the general case yields. */
  function SegmentCacheKey(url: Text, hs: seq<Header>): Text {
    if hs == [] then url else url + EncodeHeaders(Ordered(hs))
  }

  /** A text up to its first separator is determined. */
  lemma SplitUnique(a: Text, x: Text, b: Text, y: Text, sep: byte)
    requires Free(a, sep) && Free(b, sep) && a + x == b + y
    requires (x == [] || x[0] == sep) && (y == [] || y[0] == sep)
    ensures a == b && x == y
  {
    var s := a + x;
    assert x != [] ==> s[|a|] == sep;
    assert y != [] ==> s[|b|] == sep;
    assert forall i :: 0 <= i < |a| ==> s[i] == a[i];
    assert forall i :: 0 <= i < |b| ==> s[i] == b[i];
    assert |a| == |b|;
    assert s[..|a|] == a && s[|a|..] == x && s[..|b|] == b && s[|b|..] == y;
  }

  lemma DropFirst(c: byte, x: Text, y: Text)
    requires [c] + x == [c] + y
    ensures x == y
  {
    assert ([c] + x)[1..] == x && ([c] + y)[1..] == y;
  }

  lemma HeaderWithRest(h: Header, x: Text)
    ensures EncodeHeader(h) + x == [NEWLINE] + (Encode(h.name) + ([EQUALS] + (Encode(h.value) + x)))
  {
    hide Encode;
    var n, v := Encode(h.name), Encode(h.value);
    AppendAssoc([NEWLINE], n + ([EQUALS] + v), x);
    AppendAssoc(n, [EQUALS] + v, x);
    AppendAssoc([EQUALS], v, x);
  }

  lemma EncodeHeaderInjective(g: Header, h: Header, x: Text, y: Text)
    requires EncodeHeader(g) + x == EncodeHeader(h) + y
    requires (x == [] || x[0] == NEWLINE) && (y == [] || y[0] == NEWLINE)
    ensures g == h && x == y
  {
    hide Encode, EncodeHeader;
    HeaderWithRest(g, x);
    HeaderWithRest(h, y);
    var gv, hv := Encode(g.value), Encode(h.value);
    var gt, ht := [EQUALS] + (gv + x), [EQUALS] + (hv + y);
    DropFirst(NEWLINE, Encode(g.name) + gt, Encode(h.name) + ht);
    EncodeFree(g.name);
    EncodeFree(h.name);
    SplitUnique(Encode(g.name), gt, Encode(h.name), ht, EQUALS);
    DropFirst(EQUALS, gv + x, hv + y);
    EncodeFree(g.value);
    EncodeFree(h.value);
    SplitUnique(gv, x, hv, y, NEWLINE);
    EncodeInjective(g.name, h.name);
    EncodeInjective(g.value, h.value);
  }

  lemma {:induction false} EncodeHeadersInjective(a: seq<Header>, b: seq<Header>)
    requires EncodeHeaders(a) == EncodeHeaders(b)
    ensures a == b
    decreases |a|
  {
    hide EncodeHeader;
    if a != [] {
      HeaderNotEmpty(a[0]);
    }
    if b != [] {
      HeaderNotEmpty(b[0]);
    }
    if a != [] && b != [] {
      EncodeHeaderInjective(a[0], b[0], EncodeHeaders(a[1..]), EncodeHeaders(b[1..]));
      EncodeHeadersInjective(a[1..], b[1..]);
      assert a == [a[0]] + a[1..] && b == [b[0]] + b[1..];
    }
  }

  lemma HeaderNotEmpty(h: Header)
    ensures EncodeHeader(h) != []
  {
  }

  lemma KeyShape(url: Text, hs: seq<Header>)
    ensures SegmentCacheKey(url, hs) == url + EncodeHeaders(Ordered(hs))
  {
    if hs == [] {
      OrderedKeeps(hs);
    }
  }

  lemma {:induction false} EncodeConcat(a: seq<Header>, b: seq<Header>)
    ensures EncodeHeaders(a + b) == EncodeHeaders(a) + EncodeHeaders(b)
    decreases |a|
  {
    hide EncodeHeader;
    if a == [] {
      assert a + b == b;
    } else {
      ConcatTail(a, b);
      EncodeConcat(a[1..], b);
      AppendAssoc(EncodeHeader(a[0]), EncodeHeaders(a[1..]), EncodeHeaders(b));
    }
  }

  /** Within the encoding of a list of headers, a further encoding can only begin where a header begins. */
  lemma {:induction false} SuffixCut(s: seq<Header>, w: Text, x: seq<Header>)
    requires EncodeHeaders(s) == w + EncodeHeaders(x)
    ensures exists k :: 0 <= k <= |s| && w == EncodeHeaders(s[..k]) && x == s[k..]
    decreases |s|
  {
    hide EncodeHeader;
    if w == [] {
      assert w + EncodeHeaders(x) == EncodeHeaders(x);
      EncodeHeadersInjective(s, x);
      assert s[..0] == [] && s[0..] == s;
    } else {
      var first, rest := EncodeHeader(s[0]), EncodeHeaders(s[1..]);
      CutInside(s[0], rest, w, EncodeHeaders(x));
      var w' := w[|first|..];
      assert w == first + w';
      AppendAssoc(first, w', EncodeHeaders(x));
      DropFront(first, rest, w' + EncodeHeaders(x));
      SuffixCut(s[1..], w', x);
      var k :| 0 <= k <= |s[1..]| && w' == EncodeHeaders(s[1..][..k]) && x == s[1..][k..];
      assert s[..k + 1][0] == s[0] && s[..k + 1][1..] == s[1..][..k] && s[k + 1..] == s[1..][k..];
    }
  }

  lemma DropFront<T>(a: seq<T>, x: seq<T>, y: seq<T>)
    requires a + x == a + y
    ensures x == y
  {
    assert (a + x)[|a|..] == x && (a + y)[|a|..] == y;
  }

  /** A cut that leaves nothing, or something that begins with a newline, does not fall inside a header. */
  lemma CutInside(h: Header, rest: Text, w: Text, tail: Text)
    requires w != [] && EncodeHeader(h) + rest == w + tail && (tail == [] || tail[0] == NEWLINE)
    ensures |EncodeHeader(h)| <= |w| && w[..|EncodeHeader(h)|] == EncodeHeader(h)
  {
    hide Encode;
    var e, all := EncodeHeader(h), w + tail;
    EncodeFree(h.name);
    EncodeFree(h.value);
    var body := Encode(h.name) + ([EQUALS] + Encode(h.value));
    assert forall i :: 0 < i < |e| ==> e[i] == body[i - 1] != NEWLINE;
    assert forall i :: 0 <= i < |e| ==> all[i] == e[i];
    assert tail != [] ==> all[|w|] == NEWLINE;
    assert |e| <= |w|;
    assert all[..|e|] == e && all[..|w|] == w;
  }

  /** Requests with the longer URL whose key is that of the shorter: its URL goes on with the first header lines of the
      other. */
  predicate Extends(url: Text, g: seq<Header>, other: Text, h: seq<Header>) {
    exists k :: 0 <= k <= |Ordered(g)| && other == url + EncodeHeaders(Ordered(g)[..k]) && Ordered(h) == Ordered(g)[k..]
  }

  /** Exactly when two requests share a key, for all URLs and headers. */
  lemma KeysEqual(url: Text, g: seq<Header>, other: Text, h: seq<Header>)
    requires |url| <= |other|
    ensures SegmentCacheKey(url, g) == SegmentCacheKey(other, h) <==> Extends(url, g, other, h)
  {
    hide Ordered, EncodeHeaders, SegmentCacheKey;
    var s, x := Ordered(g), Ordered(h);
    KeyShape(url, g);
    KeyShape(other, h);
    if SegmentCacheKey(url, g) == SegmentCacheKey(other, h) {
      var w := other[|url|..];
      LongerUrl(url, EncodeHeaders(s), other, EncodeHeaders(x));
      SuffixCut(s, w, x);
      var k :| 0 <= k <= |s| && w == EncodeHeaders(s[..k]) && x == s[k..];
      assert other == url + EncodeHeaders(s[..k]);
    }
    if Extends(url, g, other, h) {
      var k :| 0 <= k <= |s| && other == url + EncodeHeaders(s[..k]) && x == s[k..];
      EncodeConcat(s[..k], s[k..]);
      assert s == s[..k] + s[k..];
      AppendAssoc(url, EncodeHeaders(s[..k]), EncodeHeaders(x));
    }
  }

  lemma LongerUrl(url: Text, a: Text, other: Text, b: Text)
    requires |url| <= |other| && url + a == other + b
    ensures other == url + other[|url|..] && a == other[|url|..] + b
  {
    var all := other + b;
    assert all[..|url|] == url && all[|url|..] == a && all[|url|..] == other[|url|..] + b;
  }

  /** Neither the order of the headers nor the case of their names changes the key. */
  lemma KeyIgnoresOrderAndCase(url: Text, g: seq<Header>, h: seq<Header>)
    requires SameHeaders(g, h)
    ensures SegmentCacheKey(url, g) == SegmentCacheKey(url, h)
  {
    IdentityMeans(g, h);
    KeyShape(url, g);
    KeyShape(url, h);
    OrderedIdentity(g, h);
  }

  /** Two different requests share a key: one URL goes on with at least one header line of the other request. */
  predicate Confusable(url: Text, g: seq<Header>, other: Text, h: seq<Header>) {
    url != other && if |url| <= |other| then Extends(url, g, other, h) else Extends(other, h, url, g)
  }

  /** So a key tells a request apart from all others but those. */
  lemma KeysApart(url: Text, g: seq<Header>, other: Text, h: seq<Header>)
    ensures SegmentCacheKey(url, g) == SegmentCacheKey(other, h)
            <==> (url == other && SameHeaders(g, h)) || Confusable(url, g, other, h)
    ensures Confusable(url, g, other, h) ==> !Free(url, NEWLINE) || !Free(other, NEWLINE)
  {
    hide SegmentCacheKey, Identity, Free, Extends, SameHeaders;
    IdentityMeans(g, h);
    if |url| <= |other| {
      KeysEqual(url, g, other, h);
      ExtendsMeans(url, g, other, h);
    } else {
      KeysEqual(other, h, url, g);
      ExtendsMeans(other, h, url, g);
    }
  }

  lemma ExtendsMeans(url: Text, g: seq<Header>, other: Text, h: seq<Header>)
    ensures url == other ==> (Extends(url, g, other, h) <==> Identity(g) == Identity(h))
    ensures url != other && Extends(url, g, other, h) ==> !Free(other, NEWLINE)
  {
    hide Ordered, EncodeHeaders, Free, Identity;
    OrderedIdentity(g, h);
    if Extends(url, g, other, h) {
      var k :| 0 <= k <= |Ordered(g)| && other == url + EncodeHeaders(Ordered(g)[..k]) && Ordered(h) == Ordered(g)[k..];
      ExtendedBy(url, Ordered(g), k);
    }
    if url == other && Ordered(g) == Ordered(h) {
      ExtendedBy(url, Ordered(g), 0);
    }
  }

  /** A URL followed by the first `k` header lines. */
  lemma ExtendedBy(url: Text, s: seq<Header>, k: nat)
    requires k <= |s|
    ensures var other := url + EncodeHeaders(s[..k]);
            (k == 0 <==> other == url) && (k > 0 ==> !Free(other, NEWLINE)) && (k == 0 ==> s[k..] == s)
  {
    hide EncodeHeader;
    var other := url + EncodeHeaders(s[..k]);
    if k > 0 {
      HeaderNotEmpty(s[0]);
      assert s[..k][0] == s[0];
      assert other[|url|] == NEWLINE;
    } else {
      assert s[..0] == [] && url + [] == url;
    }
  }

  /** There always is such a request: every request with headers shares its key with a request without headers, for
      another URL, one that holds a newline. */
  lemma NewlineCollides(url: Text, hs: seq<Header>)
    requires hs != []
    ensures var other := SegmentCacheKey(url, hs);
            && Confusable(url, hs, other, []) && SegmentCacheKey(other, []) == SegmentCacheKey(url, hs)
            && other != url && !SameHeaders([], hs) && !Free(other, NEWLINE)
  {
    hide EncodeHeaders, Free;
    var s, other := Ordered(hs), SegmentCacheKey(url, hs);
    OrderedKeeps(hs);
    OrderedKeeps([]);
    KeyShape(url, hs);
    assert s[..|s|] == s && s[|s|..] == [] && |Ordered([])| == 0;
    assert Extends(url, hs, other, []);
    SomethingAdded(s);
    assert other != url;
    ExtendsMeans(url, hs, other, []);
    assert |Identity(hs)| == |hs| && |Identity([])| == 0;
  }

  lemma SomethingAdded(s: seq<Header>)
    requires s != []
    ensures |EncodeHeaders(s)| > 0
  {
    HeaderNotEmpty(s[0]);
  }
}
