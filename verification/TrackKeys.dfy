/** What a `tenc` box tells about a track, and which key the track gets (src/drm/cenc.rs:348-402 and 841-873). */
module TrackKeys {
  import opened Bytes
  import opened DecrypterState
  import opened InitSegment
  import opened MediaData

  /** The default encryption parameters of a track (ISO/IEC 23001-7, section 8.2). */
  datatype Tenc = Tenc(
    version: byte, flags: seq<byte>, reserved: byte, crypt: nat, skip: nat, isProtected: byte, ivSize: byte,
    kid: seq<byte>, constantIv: seq<byte>)

  /** The fields fit their places. */
  predicate FitsTenc(t: Tenc) {
    && |t.flags| == 3 && t.crypt < 16 && t.skip < 16 && |t.kid| == 16
    && (t.ivSize == 0 ==> 0 < |t.constantIv| < 0x100)
  }

  /** Vectors have 8 or 16 bytes, or a constant one is given instead. */
  predicate ValidTenc(t: Tenc) {
    FitsTenc(t) && (t.ivSize == 0 || t.ivSize == 8 || t.ivSize == 16)
  }

  function PackTenc(t: Tenc): (r: seq<byte>)
    requires FitsTenc(t)
    ensures |r| >= 24
  {
    ([t.version] + t.flags) + ([t.reserved, t.crypt * 16 + t.skip, t.isProtected, t.ivSize] + t.kid)
    + if t.ivSize == 0 then [|t.constantIv| as byte] + t.constantIv else []
  }

  /** The settings a track gets: pattern bytes count from version 1 on, a constant vector stands for 16-byte ones, and
      vectors of another size are taken for 8-byte ones. */
  function SettingsOf(t: Tenc): TrackSettings {
    TrackSettings(
      if t.version > 0 then t.crypt else 1, if t.version > 0 then t.skip else 9,
      if t.ivSize == 0 then Some(t.constantIv) else None, if t.ivSize == 0 || t.ivSize == 16 then 16 else 8)
  }

  lemma TencFields(t: Tenc, back: seq<byte>)
    requires FitsTenc(t)
    ensures var data := PackTenc(t) + back;
            && |data| >= 24 && data[0] == t.version && data[5] == t.crypt * 16 + t.skip && data[7] == t.ivSize
            && data[8..24] == t.kid
            && (t.ivSize == 0 ==> |data| >= 25 + |t.constantIv| && data[24] == |t.constantIv|
                                  && data[25..25 + |t.constantIv|] == t.constantIv)
  {
    var data := PackTenc(t) + back;
    assert data[8..24] == t.kid;
    if t.ivSize == 0 {
      assert data[25..25 + |t.constantIv|] == t.constantIv;
    }
  }

  /** Reading a written `tenc` gives its track exactly these settings and this key identifier, and leaves every other
      track, the scheme and the keys alone. What holds for tracks without settings changes where the box says something:
      a pattern from version 1 on, a vector size if it is one that can be, and a constant vector. */
  lemma TencRoundTrip(st: State, t: Tenc, back: seq<byte>)
    requires FitsTenc(t) && st.currentTrackId > 0
    ensures var after, id := AfterTenc(st, PackTenc(t) + back), st.currentTrackId;
            && id in after.trackSettings && after.trackSettings[id] == SettingsOf(t)
            && id in after.extractedKids && after.extractedKids[id] == t.kid
            && after.trackSettings - {id} == st.trackSettings - {id}
            && after.extractedKids - {id} == st.extractedKids - {id}
            && after.defaultIvSize == (if ValidTenc(t) then SettingsOf(t).ivSize else st.defaultIvSize)
            && after.crypt == (if t.version > 0 then t.crypt else st.crypt)
            && after.skip == (if t.version > 0 then t.skip else st.skip)
            && after.constantIv == (if t.ivSize == 0 then Some(t.constantIv) else st.constantIv)
            && after.keyMap == st.keyMap && after.scheme == st.scheme
  {
    hide PackTenc;
    TencFields(t, back);
    Nibbles(t.crypt, t.skip);
  }

  lemma Nibbles(crypt: nat, skip: nat)
    requires skip < 16
    ensures (crypt * 16 + skip) / 16 == crypt && (crypt * 16 + skip) % 16 == skip
  {
  }

  // ----- Keys -----

  lemma SwapTwice(kid: seq<byte>)
    requires |kid| == 16
    ensures SwappedGuid(SwappedGuid(kid)) == kid
    ensures AllZero(SwappedGuid(kid)) <==> AllZero(kid)
  {
    var s := SwappedGuid(kid);
    assert forall i :: 8 <= i < 16 ==> s[i] == kid[i];
    if AllZero(s) {
      assert kid[0] == s[3] && kid[1] == s[2] && kid[2] == s[1] && kid[3] == s[0];
      assert kid[4] == s[5] && kid[5] == s[4] && kid[6] == s[7] && kid[7] == s[6];
    }
    assert s[8..] == kid[8..];
    assert kid == [kid[0], kid[1], kid[2], kid[3], kid[4], kid[5], kid[6], kid[7]] + kid[8..];
  }

  function Reversed(s: seq<byte>): (r: seq<byte>)
    ensures |r| == |s|
  {
    if s == [] then [] else Reversed(s[1..]) + [s[0]]
  }

  /** The fields of a UUID (RFC 9562, section 4) in the other byte order: its first three, of 4, 2 and 2 bytes. */
  lemma SwappedFields(kid: seq<byte>)
    requires |kid| == 16
    ensures SwappedGuid(kid) == Reversed(kid[..4]) + Reversed(kid[4..6]) + Reversed(kid[6..8]) + kid[8..]
  {
    var a, b, c := kid[..4], kid[4..6], kid[6..8];
    ReversedPair(b);
    ReversedPair(c);
    ReversedPair(a[2..]);
    assert a[1..][1..] == a[2..];
    assert Reversed(a[1..]) == [a[3], a[2]] + [a[1]];
    assert Reversed(a) == [a[3], a[2], a[1], a[0]];
  }

  lemma ReversedPair(s: seq<byte>)
    requires |s| == 2
    ensures Reversed(s) == [s[1], s[0]]
  {
    assert s[1..][1..] == [];
    assert Reversed(s[1..]) == [] + [s[1]];
  }

  /** Which key a track gets: that given for its identifier, else that for the swapped identifier, else the only one
      there is. An identifier of zeros names no key. */
  lemma KeyChosen(st: State, trackId: uint32, kid: seq<byte>)
    requires |kid| == 16 && trackId in st.extractedKids && st.extractedKids[trackId] == kid
    ensures var zero, swapped := kid == seq(16, _ => 0), SwappedGuid(kid);
            && (!zero && kid in st.keyMap ==> KeyForTrack(st, trackId) == Some(st.keyMap[kid]))
            && (!zero && kid !in st.keyMap && swapped in st.keyMap ==>
                  KeyForTrack(st, trackId) == Some(st.keyMap[swapped]))
            && (zero || (kid !in st.keyMap && swapped !in st.keyMap) ==>
                  match KeyForTrack(st, trackId)
                  case None => |st.keyMap| != 1
                  case Some(key) => exists id :: st.keyMap == map[id := key])
  {
    hide SwappedGuid;
    ZeroKid(kid);
    if |st.keyMap| == 1 {
      SoleEntry(st.keyMap);
    }
  }

  lemma ZeroKid(kid: seq<byte>)
    requires |kid| == 16
    ensures AllZero(kid) <==> kid == seq(16, _ => 0)
  {
    if AllZero(kid) {
      assert kid == seq(16, _ => 0);
    }
  }

  lemma SoleEntry<K, V>(m: map<K, V>)
    requires |m| == 1
    ensures exists k :: m == map[k := SoleValue(m)]
  {
    var k :| k in m && m[k] == SoleValue(m);
    forall a <- m ensures a == k {
      OnlyOne(m, a, k);
    }
    assert m == map[k := SoleValue(m)];
  }

  function WithKid(st: State, trackId: uint32, kid: seq<byte>): State {
    st.(extractedKids := st.extractedKids[trackId := kid])
  }

  /** A track finds the same key whether its identifier is written in UUID order or with swapped parts, if and only if
      not both forms are given with different keys. */
  lemma SwappedLookup(st: State, trackId: uint32, kid: seq<byte>)
    requires |kid| == 16
    ensures KeyForTrack(WithKid(st, trackId, kid), trackId)
            == KeyForTrack(WithKid(st, trackId, SwappedGuid(kid)), trackId)
            <==> (kid in st.keyMap && SwappedGuid(kid) in st.keyMap ==> st.keyMap[kid] == st.keyMap[SwappedGuid(kid)])
  {
    hide SwappedGuid, AllZero;
    SwapTwice(kid);
    if AllZero(kid) {
      ZeroSwapped(kid);
    }
  }

  lemma ZeroSwapped(kid: seq<byte>)
    requires AllZero(kid)
    ensures SwappedGuid(kid) == kid
  {
  }

  /** There is no single key to fall back on, and the track's identifier, if it has a usable one, is given in neither
      form. */
  predicate Keyless(st: State, trackId: uint32) {
    && |st.keyMap| != 1
    && (trackId in st.extractedKids && |st.extractedKids[trackId]| == 16 && !AllZero(st.extractedKids[trackId]) ==>
          && st.extractedKids[trackId] !in st.keyMap
          && SwappedGuid(st.extractedKids[trackId]) !in st.keyMap)
  }

  /** Such a track stays as it is: a sample of known size that ends inside the media data is decrypted, in its place, if
      and only if its track is not keyless. */
  lemma NoKey(st: State, trackId: uint32, tracks: seq<TrackInfo>, t: TrackInfo, n: nat, i: nat)
    requires trackId in st.extractedKids ==> |st.extractedKids[trackId]| == 16
    requires t in tracks && t.key == KeyForTrack(st, trackId) && i < |t.sampleInfo| && SizeOf(t, i) > 0
    requires var at := SampleAt(t, FirstOffset(tracks), i); at.pos + at.size <= n
    ensures Job(t, SampleAt(t, FirstOffset(tracks), i)) in AllJobs(tracks, n) <==> !Keyless(st, trackId)
    ensures Keyless(st, trackId) ==> forall j <- AllJobs(tracks, n) :: j.track != t
  {
    hide SwappedGuid, AllZero, AllJobs, SizesBefore, SizeOf, StartOf, FirstOffset;
    AllJobsExactly(tracks, n, Job(t, SampleAt(t, FirstOffset(tracks), i)));
    forall j <- AllJobs(tracks, n) ensures Keyless(st, trackId) ==> j.track != t {
      AllJobsExactly(tracks, n, j);
    }
  }
}
