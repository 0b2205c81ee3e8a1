/** What the decrypter remembers between boxes (src/drm/cenc.rs:25-112). */
module DecrypterState {
  import opened Bytes
  import opened Cipher
  import opened Samples
  import opened SampleTables

  datatype TrackSettings = TrackSettings(crypt: nat, skip: nat, constantIv: Option<seq<byte>>, ivSize: nat)

  datatype TrackInfo = TrackInfo(
    dataOffset: int32,
    sampleSizes: seq<uint32>,
    sampleInfo: seq<SampleInfo>,
    key: Option<Key>,
    defaultSampleSize: uint32,
    crypt: nat,
    skip: nat,
    constantIv: Option<seq<byte>>)

  datatype State = State(
    keyMap: map<seq<byte>, Key>,
    scheme: EncScheme,
    defaultIvSize: nat,
    crypt: nat,
    skip: nat,
    constantIv: Option<seq<byte>>,
    defaultSampleSize: uint32,
    trunSampleSizes: seq<uint32>,
    currentSampleInfo: seq<SampleInfo>,
    totalOverhead: nat,
    trackInfos: seq<TrackInfo>,
    trackSettings: map<uint32, TrackSettings>,
    extractedKids: map<uint32, seq<byte>>,
    currentTrackId: uint32)

  /** A decrypter that has seen nothing yet. */
  function Fresh(keyMap: map<seq<byte>, Key>): State {
    State(keyMap, Cenc, 8, 1, 9, None, 0, [], [], 0, [], map[], map[], 0)
  }

  /** Where `senc` vectors come from in state `st`. */
  function VectorSource(st: State): IvSource {
    if st.scheme == Cbcs && st.constantIv.Some? then Constant(st.constantIv.value) else PerSample(st.defaultIvSize)
  }

  // ----- Key lookup -----

  lemma OnlyOne<K, V>(m: map<K, V>, a: K, b: K)
    requires |m| == 1 && a in m && b in m
    ensures a == b
  {
    assert |m.Keys - {a}| == 0;
  }

  function SoleValue<K, V>(m: map<K, V>): (v: V)
    requires |m| == 1
    ensures exists k :: k in m && m[k] == v
  {
    assert m.Keys != {};
    assert forall a, b :: a in m && b in m ==> a == b by {
      forall a, b | a in m && b in m ensures a == b {
        OnlyOne(m, a, b);
      }
    }
    var k :| k in m;
    m[k]
  }

  /** The key when there is no way to tell which one to use. */
  function FallbackKey(keyMap: map<seq<byte>, Key>): Option<Key> {
    if |keyMap| == 1 then Some(SoleValue(keyMap)) else None
  }

  /** A 16-byte identifier with the byte order of its first three UUID parts reversed. */
  function SwappedGuid(kid: seq<byte>): (r: seq<byte>)
    requires |kid| == 16
    ensures |r| == 16
  {
    [kid[3], kid[2], kid[1], kid[0], kid[5], kid[4], kid[7], kid[6]] + kid[8..]
  }

  predicate AllZero(kid: seq<byte>) {
    |kid| == 16 && forall i :: 0 <= i < |kid| ==> kid[i] == 0
  }

  function KeyForTrack(st: State, trackId: uint32): Option<Key> {
    if trackId in st.extractedKids && !AllZero(st.extractedKids[trackId]) then
      var kid := st.extractedKids[trackId];
      if kid in st.keyMap then Some(st.keyMap[kid])
      else if |kid| == 16 && SwappedGuid(kid) in st.keyMap then Some(st.keyMap[SwappedGuid(kid)])
      else FallbackKey(st.keyMap)
    else
      FallbackKey(st.keyMap)
  }
}
