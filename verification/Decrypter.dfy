/** The decrypter object: every method against the functions that say what it does (src/drm/cenc.rs:68-882). */
module Decrypter {
  import opened Bytes
  import opened Mp4Atom
  import opened Cipher
  import opened Samples
  import opened SampleTables
  import opened DecrypterState
  import opened InitSegment
  import opened Fragment
  import opened MediaData

  class Mp4Decrypter {
    const aes: Aes
    const keyMap: map<seq<byte>, Key>
    var encryptionScheme: EncScheme
    var defaultIvSize: nat
    var cryptByteBlock: nat
    var skipByteBlock: nat
    var constantIv: Option<seq<byte>>
    var defaultSampleSize: uint32
    var trunSampleSizes: seq<uint32>
    var currentSampleInfo: seq<SampleInfo>
    var totalEncryptionOverhead: nat
    var trackInfos: seq<TrackInfo>
    var trackEncryptionSettings: map<uint32, TrackSettings>
    var extractedKids: map<uint32, seq<byte>>
    var currentTrackId: uint32

    /** The fields as one value. */
    function State(): State
      reads this
    {
      DecrypterState.State(keyMap, encryptionScheme, defaultIvSize, cryptByteBlock, skipByteBlock, constantIv,
                           defaultSampleSize, trunSampleSizes, currentSampleInfo, totalEncryptionOverhead, trackInfos,
                           trackEncryptionSettings, extractedKids, currentTrackId)
    }

    constructor (aes: Aes, keyMap: map<seq<byte>, Key>)
      ensures State() == Fresh(keyMap) && this.aes == aes
    {
      this.aes, this.keyMap := aes, keyMap;
      encryptionScheme, defaultIvSize, cryptByteBlock, skipByteBlock, constantIv := Cenc, 8, 1, 9, None;
      defaultSampleSize, trunSampleSizes, currentSampleInfo, totalEncryptionOverhead := 0, [], [], 0;
      trackInfos, trackEncryptionSettings, extractedKids, currentTrackId := [], map[], map[], 0;
    }

    // ----- Initialization segment -----

    method ParseSchm(schm: Atom)
      modifies this
      ensures State() == AfterSchm(old(State()), schm.data)
    {
      if |schm.data| >= 8 {
        encryptionScheme := SchemeOf(U32(schm.data[4..8]));
      }
    }

    method ParseTenc(tenc: Atom)
      modifies this
      ensures State() == AfterTenc(old(State()), tenc.data)
    {
      var data := tenc.data;
      if |data| < 8 {
        return;
      }
      var settings := TrackSettings(1, 9, None, 8);
      if data[0] > 0 && |data| >= 6 {
        settings := settings.(crypt := data[5] / 16, skip := data[5] % 16);
        cryptByteBlock, skipByteBlock := settings.crypt, settings.skip;
      }
      if |data| >= 24 && currentTrackId > 0 {
        extractedKids := extractedKids[currentTrackId := data[8..24]];
      }
      if data[7] == 0 || data[7] == 8 || data[7] == 16 {
        settings := settings.(ivSize := if data[7] > 0 then data[7] else 16);
        defaultIvSize := settings.ivSize;
        if data[7] == 0 && |data| > 24 {
          var civSize: nat := data[24];
          if civSize > 0 && |data| >= 25 + civSize {
            settings := settings.(constantIv := Some(data[25..25 + civSize]));
            constantIv := settings.constantIv;
          }
        }
      }
      assert settings.constantIv == ConstantIvOf(data);
      if currentTrackId > 0 {
        trackEncryptionSettings := trackEncryptionSettings[currentTrackId := settings];
      }
    }

    /** `ok` is false if listing the boxes aborts; so are the missing results of the methods below. */
    method ExtractCodecFormat(sinf: Atom) returns (ok: bool, codecFormat: Option<Fourcc>)
      modifies this
      ensures ok <==> ReadableSinf(sinf)
      ensures ok ==> codecFormat == FrmaCodec(Parse(sinf.data), None)
      ensures ok ==> State() == AfterSinf(old(State()), Parse(sinf.data))
    {
      hide AfterTenc, AfterSchm, Lists, Parse;
      codecFormat := None;
      var listed := ChildrenOf(sinf.data);
      if listed == None {
        return false, None;
      }
      var children := listed.value;
      assert children[0..] == children;
      for i := 0 to |children|
        invariant forall j :: 0 <= j < i && children[j].atomType == SCHI ==> Lists(children[j].data)
        invariant FrmaCodec(children[i..], codecFormat) == FrmaCodec(children, None)
        invariant AfterSinf(State(), children[i..]) == AfterSinf(old(State()), children)
      {
        var child := children[i];
        assert children[i..][0] == child && children[i..][1..] == children[i + 1..];
        if child.atomType == FRMA && |child.data| >= 4 {
          codecFormat := Some(U32(child.data[..4]));
        } else if child.atomType == SCHM {
          ParseSchm(child);
        } else if child.atomType == SCHI {
          var read := ProcessSchi(child);
          if !read {
            return false, None;
          }
        }
      }
      ok := true;
    }

    method ProcessSchi(schi: Atom) returns (ok: bool)
      modifies this
      ensures ok <==> Lists(schi.data)
      ensures ok ==> State() == AfterSchi(old(State()), Parse(schi.data))
    {
      hide AfterTenc, Lists;
      var listed := ChildrenOf(schi.data);
      if listed == None {
        return false;
      }
      var children := listed.value;
      assert children[0..] == children;
      for i := 0 to |children|
        invariant AfterSchi(State(), children[i..]) == AfterSchi(old(State()), children)
      {
        assert children[i..][0] == children[i] && children[i..][1..] == children[i + 1..];
        if children[i].atomType == TENC {
          ParseTenc(children[i]);
        }
      }
      ok := true;
    }

    method ProcessSampleEntry(entry: Atom) returns (r: Option<Atom>)
      modifies this
      ensures r == if ReadableEntry(entry) then Some(CleanEntry(entry)) else None
      ensures r.Some? ==> State() == AfterEntry(old(State()), entry)
    {
      hide AfterSinf, FrmaCodec, Lists, ReadableSinf, Parse;
      var fixedSize := FixedSize(entry.atomType);
      if |entry.data| < fixedSize {
        return Some(entry);
      }
      var newData := entry.data[..fixedSize];
      var codecFormat: Option<Fourcc> := None;
      var listed := ChildrenOf(entry.data[fixedSize..]);
      if listed == None {
        return None;
      }
      var children := listed.value;
      assert children[0..] == children;
      for i := 0 to |children|
        invariant forall j :: 0 <= j < i && children[j].atomType == SINF ==> ReadableSinf(children[j])
        invariant newData + PackAll(Unprotected(children[i..]))
                  == entry.data[..fixedSize] + PackAll(Unprotected(children))
        invariant EntryCodec(children[i..], codecFormat) == EntryCodec(children, None)
        invariant AfterEntryChildren(State(), children[i..]) == AfterEntryChildren(old(State()), children)
      {
        var child := children[i];
        assert children[i..][0] == child && children[i..][1..] == children[i + 1..];
        if child.atomType == SINF {
          var ok, codec := ExtractCodecFormat(child);
          if !ok {
            return None;
          }
          codecFormat := codec;
        } else if child.atomType == SCHI || child.atomType == TENC || child.atomType == SCHM {
        } else {
          PackAllStep(child, Unprotected(children[i + 1..]));
          AppendAssoc(newData, Pack(child), PackAll(Unprotected(children[i + 1..])));
          newData := newData + Pack(child);
        }
      }
      assert children[|children|..] == [] && PackAll(Unprotected([])) == [];
      assert newData + [] == newData;
      assert ReadableEntry(entry);
      r := Some(Atom(if codecFormat.Some? then codecFormat.value else entry.atomType, newData));
    }

    method ProcessStsd(stsd: Atom) returns (r: Option<Atom>)
      modifies this
      ensures r == if ReadableBox(5, stsd) then Some(CleanBox(5, stsd)) else None
      ensures r.Some? ==> State() == AfterBox(5, old(State()), stsd)
    {
      hide AfterEntry, CleanEntry, CleanEntries, AfterEntries, FirstFew, PackAll, ReadFirst, Wraps, ReadableEntry,
        FewReadable;
      if |stsd.data| < 8 {
        return Some(stsd);
      }
      var entryCount := U32(stsd.data[4..8]);
      var newData := stsd.data[..8];
      var parser := new Mp4Parser(stsd.data[8..]);
      assert parser.data[0..] == parser.data;
      ghost var goal := CleanStsd(stsd).data;
      ghost var end := AfterBox(5, State(), stsd);
      StsdStart(stsd, State());
      for i := 0 to entryCount
        invariant parser.position <= |parser.data|
        invariant newData + PackAll(CleanEntries(FirstFew(parser.data[parser.position..], entryCount - i))) == goal
        invariant AfterEntries(State(), FirstFew(parser.data[parser.position..], entryCount - i)) == end
        invariant FewReadable(parser.data[parser.position..], parser.position, entryCount - i) == ReadableBox(5, stsd)
      {
        ghost var rest := parser.data[parser.position..];
        StsdStep(rest, entryCount - i, State(), newData);
        FewReadableStep(rest, parser.position, entryCount - i);
        var entry := parser.ReadAtom();
        if entry.Crash? {
          return None;
        }
        if entry.Found? {
          assert rest[ReadFirst(rest).used..] == parser.data[parser.position..];
          var processed := ProcessSampleEntry(entry.atom);
          if processed == None {
            return None;
          }
          newData := newData + Pack(processed.value);
        }
      }
      StsdEnd(parser.data[parser.position..], State(), newData);
      FewReadableEnd(parser.data[parser.position..], parser.position);
      r := Some(Atom(STSD, newData));
    }

    method ProcessStbl(stbl: Atom) returns (r: Option<Atom>)
      modifies this
      ensures r == if ReadableBox(4, stbl) then Some(CleanBox(4, stbl)) else None
      ensures r.Some? ==> State() == AfterBox(4, old(State()), stbl)
    {
      hide CleanChildren, AfterChildren, CleanBox, AfterBox, ReadableBox, Parse, PackAll;
      ReadableMeans(4, stbl);
      var newData: seq<byte> := [];
      var listed := ChildrenOf(stbl.data);
      if listed == None {
        return None;
      }
      var children := listed.value;
      BoxStart(4, stbl, State());
      for i := 0 to |children|
        invariant forall j :: 0 <= j < i && children[j].atomType == STSD ==> ReadableBox(5, children[j])
        invariant newData + PackAll(CleanChildren(4, children[i..])) == CleanBox(4, stbl).data
        invariant AfterChildren(4, State(), children[i..]) == AfterBox(4, old(State()), stbl)
      {
        BoxStep(4, children, i, State(), newData);
        if children[i].atomType == STSD {
          var child := ProcessStsd(children[i]);
          if child == None {
            return None;
          }
          newData := newData + Pack(child.value);
        } else {
          newData := newData + Pack(children[i]);
        }
      }
      BoxEnd(4, children, State(), newData);
      r := Some(Atom(STBL, newData));
    }

    method ProcessMinf(minf: Atom) returns (r: Option<Atom>)
      modifies this
      ensures r == if ReadableBox(3, minf) then Some(CleanBox(3, minf)) else None
      ensures r.Some? ==> State() == AfterBox(3, old(State()), minf)
    {
      hide CleanChildren, AfterChildren, CleanBox, AfterBox, ReadableBox, Parse, PackAll;
      ReadableMeans(3, minf);
      var newData: seq<byte> := [];
      var listed := ChildrenOf(minf.data);
      if listed == None {
        return None;
      }
      var children := listed.value;
      BoxStart(3, minf, State());
      for i := 0 to |children|
        invariant forall j :: 0 <= j < i && children[j].atomType == STBL ==> ReadableBox(4, children[j])
        invariant newData + PackAll(CleanChildren(3, children[i..])) == CleanBox(3, minf).data
        invariant AfterChildren(3, State(), children[i..]) == AfterBox(3, old(State()), minf)
      {
        BoxStep(3, children, i, State(), newData);
        if children[i].atomType == STBL {
          var child := ProcessStbl(children[i]);
          if child == None {
            return None;
          }
          newData := newData + Pack(child.value);
        } else {
          newData := newData + Pack(children[i]);
        }
      }
      BoxEnd(3, children, State(), newData);
      r := Some(Atom(MINF, newData));
    }

    method ProcessMdia(mdia: Atom) returns (r: Option<Atom>)
      modifies this
      ensures r == if ReadableBox(2, mdia) then Some(CleanBox(2, mdia)) else None
      ensures r.Some? ==> State() == AfterBox(2, old(State()), mdia)
    {
      hide CleanChildren, AfterChildren, CleanBox, AfterBox, ReadableBox, Parse, PackAll;
      ReadableMeans(2, mdia);
      var newData: seq<byte> := [];
      var listed := ChildrenOf(mdia.data);
      if listed == None {
        return None;
      }
      var children := listed.value;
      BoxStart(2, mdia, State());
      for i := 0 to |children|
        invariant forall j :: 0 <= j < i && children[j].atomType == MINF ==> ReadableBox(3, children[j])
        invariant newData + PackAll(CleanChildren(2, children[i..])) == CleanBox(2, mdia).data
        invariant AfterChildren(2, State(), children[i..]) == AfterBox(2, old(State()), mdia)
      {
        BoxStep(2, children, i, State(), newData);
        if children[i].atomType == MINF {
          var child := ProcessMinf(children[i]);
          if child == None {
            return None;
          }
          newData := newData + Pack(child.value);
        } else {
          newData := newData + Pack(children[i]);
        }
      }
      BoxEnd(2, children, State(), newData);
      r := Some(Atom(MDIA, newData));
    }

    /** First pass over a `trak`; `false` stands for the index into an empty `tkhd`, which aborts the program. */
    method ReadTrackId(children: seq<Atom>) returns (ok: bool)
      modifies this
      ensures ok <==> ReadableTrak(children)
      ensures ok ==> State() == old(State()).(currentTrackId := TrackId(children, old(currentTrackId)))
    {
      assert children[0..] == children;
      for i := 0 to |children|
        invariant FirstOf(TKHD, children[i..]) == FirstOf(TKHD, children)
        invariant State() == old(State())
      {
        var child := children[i];
        assert children[i..][0] == child && children[i..][1..] == children[i + 1..];
        if child.atomType == TKHD {
          if child.data == [] {
            return false;
          }
          var idOffset := if child.data[0] == 0 then 12 else 20;
          if |child.data| >= idOffset + 4 {
            currentTrackId := U32(child.data[idOffset..idOffset + 4]);
          }
          return true;
        }
      }
      ok := true;
    }

    method ProcessTrak(trak: Atom) returns (r: Option<Atom>)
      modifies this
      ensures r == if ReadableBox(1, trak) then Some(CleanBox(1, trak)) else None
      ensures r.Some? ==> State() == AfterBox(1, old(State()), trak)
    {
      hide CleanChildren, AfterChildren, CleanBox, AfterBox, ReadableTrak, TrackId, ReadableBox, Parse, PackAll;
      ReadableMeans(1, trak);
      var newData: seq<byte> := [];
      var listed := ChildrenOf(trak.data);
      if listed == None {
        return None;
      }
      var children := listed.value;
      BoxStart(1, trak, State());
      var ok := ReadTrackId(children);
      if !ok {
        return None;
      }
      for i := 0 to |children|
        invariant forall j :: 0 <= j < i && children[j].atomType == MDIA ==> ReadableBox(2, children[j])
        invariant newData + PackAll(CleanChildren(1, children[i..])) == CleanBox(1, trak).data
        invariant AfterChildren(1, State(), children[i..]) == AfterBox(1, old(State()), trak)
      {
        BoxStep(1, children, i, State(), newData);
        if children[i].atomType == MDIA {
          var child := ProcessMdia(children[i]);
          if child == None {
            return None;
          }
          newData := newData + Pack(child.value);
        } else {
          newData := newData + Pack(children[i]);
        }
      }
      BoxEnd(1, children, State(), newData);
      r := Some(Atom(TRAK, newData));
    }

    method ProcessMoov(moov: Atom) returns (r: Option<Atom>)
      modifies this
      ensures r == if ReadableBox(0, moov) then Some(CleanBox(0, moov)) else None
      ensures r.Some? ==> State() == AfterBox(0, old(State()), moov)
    {
      hide CleanChildren, AfterChildren, CleanBox, AfterBox, ReadableBox, PackAll, Parse;
      ReadableMeans(0, moov);
      var newData: seq<byte> := [];
      var listed := ChildrenOf(moov.data);
      if listed == None {
        return None;
      }
      var children := listed.value;
      BoxStart(0, moov, State());
      for i := 0 to |children|
        invariant forall j :: 0 <= j < i && children[j].atomType == TRAK ==> ReadableBox(1, children[j])
        invariant newData + PackAll(CleanChildren(0, children[i..])) == CleanBox(0, moov).data
        invariant AfterChildren(0, State(), children[i..]) == AfterBox(0, old(State()), moov)
      {
        BoxStep(0, children, i, State(), newData);
        if children[i].atomType == TRAK {
          var newTrak := ProcessTrak(children[i]);
          if newTrak == None {
            return None;
          }
          newData := newData + Pack(newTrak.value);
        } else if children[i].atomType != PSSH {
          newData := newData + Pack(children[i]);
        }
      }
      BoxEnd(0, children, State(), newData);
      r := Some(Atom(MOOV, newData));
    }

    // ----- Fragments -----

    method ParseTfhd(tfhd: Atom)
      modifies this
      ensures State() == AfterTfhd(old(State()), tfhd.data)
    {
      var data := tfhd.data;
      if |data| < 8 {
        return;
      }
      var flags := U32(data[..4]) % 0x100_0000;
      MaskedFlag(U32(data[..4]), 0x1, 0x80_0000);
      MaskedFlag(U32(data[..4]), 0x2, 0x40_0000);
      MaskedFlag(U32(data[..4]), 0x8, 0x10_0000);
      MaskedFlag(U32(data[..4]), 0x10, 0x8_0000);
      hide HasFlag;
      var offset := 8;
      if HasFlag(flags, 0x1) {
        offset := offset + 8;
      }
      if HasFlag(flags, 0x2) {
        offset := offset + 4;
      }
      if HasFlag(flags, 0x8) {
        offset := offset + 4;
      }
      if HasFlag(flags, 0x10) && offset + 4 <= |data| {
        defaultSampleSize := U32(data[offset..offset + 4]);
      }
    }

    method GetKeyForTrack(trackId: uint32) returns (key: Option<Key>)
      ensures key == KeyForTrack(State(), trackId)
    {
      if trackId in extractedKids {
        var kid := extractedKids[trackId];
        if !AllZero(kid) {
          if kid in keyMap {
            return Some(keyMap[kid]);
          }
          if |kid| == 16 && SwappedGuid(kid) in keyMap {
            return Some(keyMap[SwappedGuid(kid)]);
          }
        }
      }
      key := FallbackKey(keyMap);
    }

    /** What the media data of this track fragment will need. */
    method RememberTrack(trackId: uint32, dataOffset: int32, sampleInfo: seq<SampleInfo>, defaultSize: uint32)
      modifies this
      ensures State() == old(State()).(
                trackInfos := old(trackInfos)
                  + [TrackOf(TrafScan(old(State()), trackId, dataOffset, sampleInfo, defaultSize))],
                currentSampleInfo := sampleInfo)
    {
      var trackKey := GetKeyForTrack(trackId);
      var crypt, skip, civ := cryptByteBlock, skipByteBlock, constantIv;
      if trackId in trackEncryptionSettings {
        var settings := trackEncryptionSettings[trackId];
        crypt, skip, civ := settings.crypt, settings.skip, settings.constantIv;
      }
      trackInfos := trackInfos
        + [TrackInfo(dataOffset, trunSampleSizes, sampleInfo, trackKey, defaultSize, crypt, skip, civ)];
      currentSampleInfo := sampleInfo;
    }

    method ProcessTraf(traf: Atom) returns (r: Option<Atom>)
      modifies this
      ensures r == if Lists(traf.data) then Some(CleanTraf(traf, old(totalEncryptionOverhead), old(currentTrackId)))
                   else None
      ensures r.Some? ==> State() == AfterTraf(old(State()), Parse(traf.data))
      ensures totalEncryptionOverhead == old(totalEncryptionOverhead) && currentTrackId == old(currentTrackId)
    {
      hide CleanTrafChildren, ScanTraf, AfterTfhd, ReadTrun, ReadSenc, ShiftTrun, TrackOf, VectorSource, Lists, Parse,
        Pack, PackAll;
      var listed := ChildrenOf(traf.data);
      if listed == None {
        return None;
      }
      var children := listed.value;
      var newData: seq<byte> := [];
      var tfhdTrackId: uint32, hasTfhd, trunDataOffset: int32 := 0, false, 0;
      var sampleInfo: seq<SampleInfo>, trackDefaultSampleSize: uint32 := [], 0;
      ghost var start := TrafScan(State(), 0, 0, [], 0);
      TrafStart(children, totalEncryptionOverhead, start);
      for i := 0 to |children|
        invariant hasTfhd <==> exists j :: 0 <= j < i && children[j].atomType == TFHD
        invariant totalEncryptionOverhead == old(totalEncryptionOverhead) && currentTrackId == old(currentTrackId)
        invariant newData + PackAll(CleanTrafChildren(children[i..], totalEncryptionOverhead))
                  == PackAll(CleanTrafChildren(children, totalEncryptionOverhead))
        invariant ScanTraf(TrafScan(State(), tfhdTrackId, trunDataOffset, sampleInfo, trackDefaultSampleSize),
                           children[i..])
                  == ScanTraf(start, children)
      {
        var child := children[i];
        TrafStep(children, i, totalEncryptionOverhead,
                 TrafScan(State(), tfhdTrackId, trunDataOffset, sampleInfo, trackDefaultSampleSize), newData);
        if child.atomType == TFHD {
          hasTfhd := true;
          TfhdKeeps(State(), child.data);
          ParseTfhd(child);
          trackDefaultSampleSize := defaultSampleSize;
          if |child.data| >= 8 {
            tfhdTrackId := U32(child.data[4..8]);
          }
          newData := newData + Pack(child);
        } else if child.atomType == TRUN {
          trunDataOffset := ProcessTrun(child);
          var modified := ModifyTrun(child.data, totalEncryptionOverhead);
          newData := newData + Pack(Atom(TRUN, modified));
        } else if child.atomType == SENC {
          sampleInfo := ParseSenc(child.data, VectorSource(State()));
        } else if child.atomType == SAIZ || child.atomType == SAIO {
        } else {
          newData := newData + Pack(child);
        }
      }
      TrafEnd(children, totalEncryptionOverhead,
              TrafScan(State(), tfhdTrackId, trunDataOffset, sampleInfo, trackDefaultSampleSize), newData);
      assert hasTfhd <==> HasTfhd(children);

      RememberTrack(tfhdTrackId, trunDataOffset, sampleInfo, trackDefaultSampleSize);
      if !hasTfhd && currentTrackId > 0 {
        TfhdFirst(children, totalEncryptionOverhead, currentTrackId);
        newData := Pack(PlainTfhd(currentTrackId)) + newData;
      } else {
        assert [] + CleanTrafChildren(children, totalEncryptionOverhead)
               == CleanTrafChildren(children, totalEncryptionOverhead);
      }
      r := Some(Atom(TRAF, newData));
    }

    /** Returns the data offset; the sizes go into the object unless the box is too short to have any. */
    method ProcessTrun(trun: Atom) returns (dataOffset: int32)
      modifies this
      ensures match ReadTrun(trun.data)
              case None => dataOffset == 0 && State() == old(State())
              case Some(run) =>
                dataOffset == run.dataOffset && State() == old(State()).(trunSampleSizes := run.sizes)
    {
      var run := ParseTrun(trun.data);
      match run {
        case None => dataOffset := 0;
        case Some(read) =>
          trunSampleSizes := read.sizes;
          dataOffset := read.dataOffset;
      }
    }

    method ProcessMoof(moof: Atom) returns (r: Option<Atom>)
      modifies this
      ensures r == if ReadableMoof(moof) then Some(CleanMoof(moof, old(currentTrackId))) else None
      ensures r.Some? ==> State() == AfterMoof(old(State()), moof)
    {
      hide CleanMoofChildren, AfterMoofChildren, AfterTraf, CleanTraf, TotalOverhead, Lists, Parse;
      var listed := ChildrenOf(moof.data);
      if listed == None {
        return None;
      }
      var children := listed.value;
      trackInfos := [];
      totalEncryptionOverhead := 0;
      MoofOverheadStart(children);
      for i := 0 to |children|
        invariant forall j :: 0 <= j < i && children[j].atomType == TRAF ==> Lists(children[j].data)
        invariant totalEncryptionOverhead + TotalOverhead(children[i..]) == TotalOverhead(children)
        invariant State() == old(State()).(trackInfos := [], totalOverhead := totalEncryptionOverhead)
      {
        MoofOverheadStep(children, i);
        if children[i].atomType == TRAF {
          var overhead := Overhead(children[i]);
          if overhead == None {
            return None;
          }
          totalEncryptionOverhead := totalEncryptionOverhead + overhead.value;
        }
      }
      MoofOverheadEnd(children);
      var newData: seq<byte> := [];
      MoofStart(children, totalEncryptionOverhead, currentTrackId, State());
      for i := 0 to |children|
        invariant totalEncryptionOverhead == TotalOverhead(children) && currentTrackId == old(currentTrackId)
        invariant newData + PackAll(CleanMoofChildren(children[i..], totalEncryptionOverhead, currentTrackId))
                  == PackAll(CleanMoofChildren(children, totalEncryptionOverhead, currentTrackId))
        invariant AfterMoofChildren(State(), children[i..]) == AfterMoof(old(State()), moof)
      {
        MoofStep(children, i, totalEncryptionOverhead, currentTrackId, State(), newData);
        if children[i].atomType == TRAF {
          var traf := ProcessTraf(children[i]);
          if traf == None {
            return None;
          }
          newData := newData + Pack(traf.value);
        } else {
          newData := newData + Pack(children[i]);
        }
      }
      MoofEnd(children, totalEncryptionOverhead, currentTrackId, State(), newData);
      r := Some(Atom(MOOF, newData));
    }

    /** The bytes of one track fragment that cleaning will strip. */
    method Overhead(traf: Atom) returns (overhead: Option<nat>)
      ensures overhead == if Lists(traf.data) then Some(StrippedBytes(Parse(traf.data))) else None
    {
      var listed := ChildrenOf(traf.data);
      if listed == None {
        return None;
      }
      var children := listed.value;
      var stripped := 0;
      assert children[0..] == children;
      for i := 0 to |children|
        invariant stripped + StrippedBytes(children[i..]) == StrippedBytes(children)
      {
        assert children[i..][0] == children[i] && children[i..][1..] == children[i + 1..];
        if Stripped(children[i].atomType) {
          stripped := stripped + (|children[i].data| + 8);
        }
      }
      overhead := Some(stripped);
    }

    // ----- Media data -----

    /** `None` stands for a subsample map that does not fit its sample, which aborts the program. */
    method DecryptMdat(mdat: Atom) returns (r: Option<Atom>)
      requires mdat.atomType == MDAT
      ensures r == match DecryptedMdat(aes, State(), mdat.data)
                   case None => None
                   case Some(data) => Some(Atom(MDAT, data))
    {
      if trackInfos != [] {
        var multi := DecryptTracks(aes, encryptionScheme, trackInfos, mdat.data);
        return if multi == None then None else Some(Atom(MDAT, multi.value));
      }
      var currentKey := FallbackKey(keyMap);
      if currentKey == None || currentSampleInfo == [] {
        return Some(mdat);
      }
      var decrypted := DecryptInSequence(aes, State(), currentKey.value, currentSampleInfo, trunSampleSizes,
                                         defaultSampleSize, encryptionScheme, cryptByteBlock, skipByteBlock, constantIv,
                                           mdat.data);
      r := if decrypted == None then None else Some(Atom(MDAT, decrypted.value));
    }

    /** The segment index: the program lowers the size at a fixed place of the payload. */
    method ProcessSidx(sidx: Atom) returns (r: Atom)
      ensures r == ShiftedSidx(sidx, totalEncryptionOverhead)
    {
      var data := sidx.data;
      if |data| >= 36 {
        var current := U32(data[32..36]);
        var refType := current / 0x8000_0000;
        var lowered := current % 0x8000_0000 - totalEncryptionOverhead % 0x1_0000_0000;
        var referencedSize := if lowered > 0 then lowered else 0;
        data := data[..32] + ToBE(refType * 0x8000_0000 + referencedSize, 4) + data[36..];
      }
      r := Atom(SIDX, data);
    }

    // ----- Whole buffers -----

    /** The first `moov`, `moof`, `sidx` and `mdat`, in this order; `None` if one aborts. */
    method ProcessInOrder(atoms: seq<Atom>) returns (processed: Option<Processed>)
      modifies this
      ensures processed == InOrder(aes, old(State()), atoms)
    {
      hide AfterBox, AfterMoof, CleanBox, CleanMoof, DecryptedMdat, ReadableBox, ReadableMoof, ShiftedSidx;
      var p := Processed(None, None, None, None);
      var moov := Find(MOOV, atoms);
      if moov.Some? {
        var r := ProcessMoov(moov.value);
        if r == None {
          return None;
        }
        p := p.(moov := r);
      }
      var moof := Find(MOOF, atoms);
      if moof.Some? {
        var r := ProcessMoof(moof.value);
        if r == None {
          return None;
        }
        p := p.(moof := r);
      }
      var sidx := Find(SIDX, atoms);
      if sidx.Some? {
        var r := ProcessSidx(sidx.value);
        p := p.(sidx := Some(r));
      }
      var mdat := Find(MDAT, atoms);
      if mdat.Some? {
        FirstOfType(MDAT, atoms);
        var r := DecryptMdat(mdat.value);
        if r == None {
          return None;
        }
        p := p.(mdat := r);
      }
      processed := Some(p);
    }

    /** The batch form: the first box of each kind is processed, then everything is printed in file order. */
    method DecryptSegment(combined: seq<byte>, includeInit: bool) returns (out: Option<seq<byte>>)
      modifies this
      ensures out == Batch(aes, old(State()), combined, includeInit)
    {
      hide InOrder;
      var parser := new Mp4Parser(combined);
      var atoms := parser.ListAtoms();
      if atoms == None {
        return None;
      }
      var processed := ProcessInOrder(atoms.value);
      if processed == None {
        return None;
      }
      var bytes := PrintBoxes(processed.value, includeInit, atoms.value);
      out := Some(bytes);
    }

    /** Cleans an initialization segment and learns its settings. */
    method ProcessInitOnly(init: seq<byte>) returns (out: Option<seq<byte>>)
      modifies this
      ensures out == CleanedInit(init)
      ensures out.Some? ==> State() == AfterInit(old(State()), Parse(init))
    {
      hide AfterBox, CleanBox, ReadableBox;
      var parser := new Mp4Parser(init);
      var listed := parser.ListAtoms();
      if listed == None {
        return None;
      }
      var atoms := listed.value;
      var moovProcessed: Option<Atom> := None;
      var moov := Find(MOOV, atoms);
      if moov.Some? {
        moovProcessed := ProcessMoov(moov.value);
        if moovProcessed == None {
          return None;
        }
      }
      var bytes := PrintBoxes(Processed(moovProcessed, None, None, None), true, atoms);
      out := Some(bytes);
    }

    /** Learns the settings of every `moov` without printing; `false` if one aborts. */
    method InitFromSegment(init: seq<byte>) returns (ok: bool)
      modifies this
      ensures ok <==> ReadableInit(init)
      ensures ok ==> State() == AfterAllMoovs(old(State()), Parse(init))
    {
      hide Parse, AfterBox, CleanBox, ReadableBox, Lists;
      var parser := new Mp4Parser(init);
      var listed := parser.ListAtoms();
      if listed == None {
        return false;
      }
      var atoms := listed.value;
      assert atoms[0..] == atoms;
      for i := 0 to |atoms|
        invariant forall j :: 0 <= j < i && atoms[j].atomType == MOOV ==> ReadableBox(0, atoms[j])
        invariant AfterAllMoovs(State(), atoms[i..]) == AfterAllMoovs(old(State()), atoms)
      {
        assert atoms[i..][0] == atoms[i] && atoms[i..][1..] == atoms[i + 1..];
        if atoms[i].atomType == MOOV {
          var r := ProcessMoov(atoms[i]);
          if r == None {
            return false;
          }
        }
      }
      ok := true;
    }
  }

  method Find(t: Fourcc, atoms: seq<Atom>) returns (r: Option<Atom>)
    ensures r == FirstOf(t, atoms)
  {
    assert atoms[0..] == atoms;
    for i := 0 to |atoms|
      invariant FirstOf(t, atoms[i..]) == FirstOf(t, atoms)
    {
      assert atoms[i..][0] == atoms[i] && atoms[i..][1..] == atoms[i + 1..];
      if atoms[i].atomType == t {
        return Some(atoms[i]);
      }
    }
    r := None;
  }

  lemma {:induction false} FirstOfType(t: Fourcc, atoms: seq<Atom>)
    ensures FirstOf(t, atoms).Some? ==> FirstOf(t, atoms).value.atomType == t && FirstOf(t, atoms).value in atoms
    ensures FirstOf(t, atoms).None? <==> forall a <- atoms :: a.atomType != t
  {
    if atoms != [] {
      FirstOfType(t, atoms[1..]);
    }
  }

  // ----- The whole-buffer forms as functions -----

  function ShiftedSidx(sidx: Atom, overhead: nat): Atom {
    if |sidx.data| < 36 then Atom(SIDX, sidx.data)
    else
      var current := U32(sidx.data[32..36]);
      var lowered := current % 0x8000_0000 - overhead % 0x1_0000_0000;
      Atom(SIDX, sidx.data[..32]
                 + ToBE(current / 0x8000_0000 * 0x8000_0000 + (if lowered > 0 then lowered else 0), 4)
                 + sidx.data[36..])
  }

  /** The processed box of each kind, if the buffer has one. */
  datatype Processed = Processed(moov: Option<Atom>, moof: Option<Atom>, sidx: Option<Atom>, mdat: Option<Atom>)

  /** What is printed for a box: the processed box of its type, at every place of that type. */
  function Replacement(p: Processed, a: Atom): Atom {
    var found := if a.atomType == MOOV then p.moov
                 else if a.atomType == MOOF then p.moof
                 else if a.atomType == SIDX then p.sidx
                 else if a.atomType == MDAT then p.mdat
                 else None;
    if found.Some? then found.value else a
  }

  /** The first `moov`, `moof`, `sidx` and `mdat`, processed in that order wherever they stand in the file. */
  function InOrder(aes: Aes, st: State, atoms: seq<Atom>): Option<Processed> {
    var moov, moof, sidx, mdat := FirstOf(MOOV, atoms), FirstOf(MOOF, atoms), FirstOf(SIDX, atoms),
                                  FirstOf(MDAT, atoms);
    if moov.Some? && !ReadableBox(0, moov.value) then None
    else if moof.Some? && !ReadableMoof(moof.value) then None
    else
      var st1 := if moov.Some? then AfterBox(0, st, moov.value) else st;
      var st2 := if moof.Some? then AfterMoof(st1, moof.value) else st1;
      var media := if mdat.Some? then DecryptedMdat(aes, st2, mdat.value.data) else Some([]);
      if media == None then None
      else
        Some(Processed(
          if moov.Some? then Some(CleanBox(0, moov.value)) else None,
          if moof.Some? then Some(CleanMoof(moof.value, st1.currentTrackId)) else None,
          if sidx.Some? then Some(ShiftedSidx(sidx.value, st2.totalOverhead)) else None,
          if mdat.Some? then Some(Atom(MDAT, media.value)) else None))
  }

  /** Boxes in file order, each as it is printed. */
  function Printed(p: Processed, includeInit: bool, atoms: seq<Atom>): seq<byte> {
    if atoms == [] then []
    else
      var a, rest := atoms[0], Printed(p, includeInit, atoms[1..]);
      if !includeInit && (a.atomType == FTYP || a.atomType == MOOV) then rest else Pack(Replacement(p, a)) + rest
  }

  /** What is printed for a buffer without its initialization boxes is printed for the rest of it. */
  lemma {:induction false} PrintedWithoutInit(p: Processed, atoms: seq<Atom>)
    ensures Printed(p, false, atoms) == Printed(p, true, WithoutInit(atoms))
  {
    hide Code, Pack, Replacement;
    FileNames();
    if atoms != [] {
      PrintedWithoutInit(p, atoms[1..]);
      var rest := WithoutInit(atoms[1..]);
      if atoms[0].atomType == Code("ftyp") || atoms[0].atomType == Code("moov") {
        assert WithoutInit(atoms) == rest;
      } else {
        assert WithoutInit(atoms)[0] == atoms[0] && WithoutInit(atoms)[1..] == rest;
      }
    }
  }

  function WithoutInit(atoms: seq<Atom>): seq<Atom> {
    if atoms == [] then []
    else
      (if atoms[0].atomType == Code("ftyp") || atoms[0].atomType == Code("moov") then [] else [atoms[0]])
      + WithoutInit(atoms[1..])
  }

  method PrintBoxes(p: Processed, includeInit: bool, atoms: seq<Atom>) returns (bytes: seq<byte>)
    ensures bytes == Printed(p, includeInit, atoms)
  {
    bytes := [];
    assert atoms[0..] == atoms;
    for i := 0 to |atoms|
      invariant bytes + Printed(p, includeInit, atoms[i..]) == Printed(p, includeInit, atoms)
    {
      var atom := atoms[i];
      assert atoms[i..][0] == atom && atoms[i..][1..] == atoms[i + 1..];
      if !includeInit && (atom.atomType == FTYP || atom.atomType == MOOV) {
        continue;
      }
      AppendAssoc(bytes, Pack(Replacement(p, atom)), Printed(p, includeInit, atoms[i + 1..]));
      bytes := bytes + Pack(Replacement(p, atom));
    }
  }

  /** What the batch form returns for a buffer; `None` if it aborts. */
  function Batch(aes: Aes, st: State, combined: seq<byte>, includeInit: bool): Option<seq<byte>> {
    var listed := Listing(combined);
    if listed == None then None
    else
      var processed := InOrder(aes, st, listed.value);
      if processed == None then None else Some(Printed(processed.value, includeInit, listed.value))
  }

  function CleanedInit(init: seq<byte>): Option<seq<byte>> {
    var listed := Listing(init);
    if listed == None then None
    else
      match FirstOf(MOOV, listed.value)
      case None => Some(Printed(Processed(None, None, None, None), true, listed.value))
      case Some(moov) =>
        if ReadableBox(0, moov) then Some(Printed(Processed(Some(CleanBox(0, moov)), None, None, None), true,
                                                  listed.value))
        else None
  }

  /** Every box with the first `moov`, cleaned, at the place of every `moov`. */
  function InitBoxes(cleaned: Option<Atom>, atoms: seq<Atom>): (r: seq<Atom>)
    ensures |r| == |atoms|
    ensures forall i :: 0 <= i < |r| ==>
              r[i] == if atoms[i].atomType == Code("moov") && cleaned.Some? then cleaned.value else atoms[i]
  {
    seq(|atoms|, i requires 0 <= i < |atoms| =>
      if atoms[i].atomType == Code("moov") && cleaned.Some? then cleaned.value else atoms[i])
  }

  lemma {:induction false} InitPrinted(cleaned: Option<Atom>, atoms: seq<Atom>)
    ensures Printed(Processed(cleaned, None, None, None), true, atoms) == PackAll(InitBoxes(cleaned, atoms))
  {
    hide Code, Pack;
    FileNames();
    if atoms != [] {
      InitPrinted(cleaned, atoms[1..]);
      assert InitBoxes(cleaned, atoms)[1..] == InitBoxes(cleaned, atoms[1..]);
    }
  }

  /** A cleaned initialization segment has all boxes in their places, unchanged but for the `moov`, with or without one.
      */
  lemma InitKeepsBoxes(init: seq<byte>)
    requires Lists(init)
    ensures var atoms := Parse(init);
            match FirstOf(Code("moov"), atoms)
            case None => CleanedInit(init) == Some(PackAll(atoms))
            case Some(moov) =>
              CleanedInit(init)
              == if ReadableBox(0, moov) then Some(PackAll(InitBoxes(Some(CleanBox(0, moov)), atoms))) else None
  {
    hide Code, Printed, Parse, FirstOf, ReadableBox, CleanBox, PackAll;
    FileNames();
    var atoms := Parse(init);
    match FirstOf(MOOV, atoms)
    case None =>
      InitPrinted(None, atoms);
      assert InitBoxes(None, atoms) == atoms;
    case Some(moov) => InitPrinted(Some(CleanBox(0, moov)), atoms);
  }

  predicate ReadableInit(init: seq<byte>) {
    Lists(init) && forall a <- Parse(init) :: a.atomType == MOOV ==> ReadableBox(0, a)
  }

  function AfterInit(st: State, atoms: seq<Atom>): State {
    match FirstOf(MOOV, atoms)
    case None => st
    case Some(moov) => AfterBox(0, st, moov)
  }

  function AfterAllMoovs(st: State, atoms: seq<Atom>): State
    decreases |atoms|
  {
    if atoms == [] then st
    else AfterAllMoovs(if atoms[0].atomType == MOOV then AfterBox(0, st, atoms[0]) else st, atoms[1..])
  }

  // ----- Loop steps -----

  lemma BoxStart(level: nat, a: Atom, st: State)
    requires level < 5
    ensures var children := Parse(a.data);
            var st' := if level == 1 then st.(currentTrackId := TrackId(children, st.currentTrackId)) else st;
            && [] + PackAll(CleanChildren(level, children[0..])) == CleanBox(level, a).data
            && CleanBox(level, a).atomType == PATH[level]
            && AfterChildren(level, st', children[0..]) == AfterBox(level, st, a)
  {
    assert Parse(a.data)[0..] == Parse(a.data);
  }

  lemma BoxStep(level: nat, children: seq<Atom>, i: nat, st: State, before: seq<byte>)
    requires level < 5 && i < |children|
    ensures var c := children[i];
            var next := c.atomType == PATH[level + 1];
            var piece := if next then Pack(CleanBox(level + 1, c))
                         else if level == 0 && c.atomType == PSSH then []
                         else Pack(c);
            && before + PackAll(CleanChildren(level, children[i..]))
               == before + piece + PackAll(CleanChildren(level, children[i + 1..]))
            && AfterChildren(level, st, children[i..])
               == AfterChildren(level, if next then AfterBox(level + 1, st, c) else st, children[i + 1..])
    ensures before + [] == before
  {
    var c, rest := children[i], CleanChildren(level, children[i + 1..]);
    assert children[i..][0] == c && children[i..][1..] == children[i + 1..];
    PackAllStep(c, rest);
    PackAllStep(CleanBox(level + 1, c), rest);
    AppendAssoc(before, Pack(c), PackAll(rest));
    AppendAssoc(before, Pack(CleanBox(level + 1, c)), PackAll(rest));
  }

  lemma BoxEnd(level: nat, children: seq<Atom>, st: State, before: seq<byte>)
    requires level < 5
    ensures before + PackAll(CleanChildren(level, children[|children|..])) == before
    ensures AfterChildren(level, st, children[|children|..]) == st
  {
  }

  lemma TfhdKeeps(st: State, data: seq<byte>)
    ensures AfterTfhd(st, data).totalOverhead == st.totalOverhead
    ensures AfterTfhd(st, data).currentTrackId == st.currentTrackId
  {
  }

  lemma TrafStart(children: seq<Atom>, overhead: nat, scan: TrafScan)
    ensures [] + PackAll(CleanTrafChildren(children[0..], overhead)) == PackAll(CleanTrafChildren(children, overhead))
    ensures ScanTraf(scan, children[0..]) == ScanTraf(scan, children)
  {
    assert children[0..] == children;
  }

  lemma TrafStep(children: seq<Atom>, i: nat, overhead: nat, scan: TrafScan, before: seq<byte>)
    requires i < |children|
    ensures var c := children[i];
            var piece := if Stripped(c.atomType) then []
                         else Pack(if c.atomType == TRUN then CleanTrun(c, overhead) else c);
            && before + PackAll(CleanTrafChildren(children[i..], overhead))
               == before + piece + PackAll(CleanTrafChildren(children[i + 1..], overhead))
            && ScanTraf(scan, children[i..]) == ScanTraf(ScanBox(scan, c), children[i + 1..])
    ensures before + [] == before
  {
    var c, rest := children[i], CleanTrafChildren(children[i + 1..], overhead);
    var kept := if c.atomType == TRUN then CleanTrun(c, overhead) else c;
    assert children[i..][0] == c && children[i..][1..] == children[i + 1..];
    PackAllStep(kept, rest);
    AppendAssoc(before, Pack(kept), PackAll(rest));
  }

  lemma TrafEnd(children: seq<Atom>, overhead: nat, scan: TrafScan, before: seq<byte>)
    ensures before + PackAll(CleanTrafChildren(children[|children|..], overhead)) == before
    ensures ScanTraf(scan, children[|children|..]) == scan
  {
  }

  lemma TfhdFirst(children: seq<Atom>, overhead: nat, trackId: uint32)
    ensures PackAll([PlainTfhd(trackId)] + CleanTrafChildren(children, overhead))
            == Pack(PlainTfhd(trackId)) + PackAll(CleanTrafChildren(children, overhead))
  {
    PackAllStep(PlainTfhd(trackId), CleanTrafChildren(children, overhead));
  }

  lemma MoofOverheadStart(children: seq<Atom>)
    ensures TotalOverhead(children[0..]) == TotalOverhead(children)
  {
    assert children[0..] == children;
  }

  lemma MoofOverheadStep(children: seq<Atom>, i: nat)
    requires i < |children|
    ensures TotalOverhead(children[i..])
            == (if children[i].atomType == TRAF then StrippedBytes(Parse(children[i].data)) else 0)
               + TotalOverhead(children[i + 1..])
  {
    assert children[i..][0] == children[i] && children[i..][1..] == children[i + 1..];
  }

  lemma MoofOverheadEnd(children: seq<Atom>)
    ensures TotalOverhead(children[|children|..]) == 0
  {
  }

  lemma MoofStart(children: seq<Atom>, overhead: nat, trackId: uint32, st: State)
    ensures [] + PackAll(CleanMoofChildren(children[0..], overhead, trackId))
            == PackAll(CleanMoofChildren(children, overhead, trackId))
    ensures AfterMoofChildren(st, children[0..]) == AfterMoofChildren(st, children)
  {
    assert children[0..] == children;
  }

  lemma MoofStep(children: seq<Atom>, i: nat, overhead: nat, trackId: uint32, st: State, before: seq<byte>)
    requires i < |children|
    ensures var c := children[i];
            && before + PackAll(CleanMoofChildren(children[i..], overhead, trackId))
               == before + Pack(if c.atomType == TRAF then CleanTraf(c, overhead, trackId) else c)
                  + PackAll(CleanMoofChildren(children[i + 1..], overhead, trackId))
            && AfterMoofChildren(st, children[i..])
               == AfterMoofChildren(if c.atomType == TRAF then AfterTraf(st, Parse(c.data)) else st, children[i + 1..])
  {
    var c, rest := children[i], CleanMoofChildren(children[i + 1..], overhead, trackId);
    var cleaned := if c.atomType == TRAF then CleanTraf(c, overhead, trackId) else c;
    assert children[i..][0] == c && children[i..][1..] == children[i + 1..];
    PackAllStep(cleaned, rest);
    AppendAssoc(before, Pack(cleaned), PackAll(rest));
  }

  lemma MoofEnd(children: seq<Atom>, overhead: nat, trackId: uint32, st: State, before: seq<byte>)
    ensures before + PackAll(CleanMoofChildren(children[|children|..], overhead, trackId)) == before
    ensures AfterMoofChildren(st, children[|children|..]) == st
  {
  }

  /** The first `n` boxes of a buffer, or as many as there are. */
  function FirstFew(data: seq<byte>, n: nat): seq<Atom> {
    Parse(data)[..Min(n, |Parse(data)|)]
  }

  lemma FirstFewStep(data: seq<byte>, n: nat)
    requires n > 0
    ensures FirstFew(data, n)
            == match ReadFirst(data)
               case NoBox => []
               case Box(a, used) => [a] + FirstFew(data[used..], n - 1)
    ensures ReadFirst(data).NoBox? ==> FirstFew(data, n - 1) == []
  {
  }

  lemma StsdStart(stsd: Atom, st: State)
    requires |stsd.data| >= 8
    ensures var entries := FirstFew(stsd.data[8..], U32(stsd.data[4..8]));
            && CleanStsd(stsd) == Atom(STSD, stsd.data[..8] + PackAll(CleanEntries(entries)))
            && AfterBox(5, st, stsd) == AfterEntries(st, entries)
            && ReadableBox(5, stsd) == FewReadable(stsd.data[8..], 0, U32(stsd.data[4..8]))
  {
    hide CleanEntries, AfterEntries, PackAll;
  }

  /** One round of the loop over sample entries. */
  lemma StsdStep(rest: seq<byte>, n: nat, st: State, before: seq<byte>)
    requires n > 0
    ensures var r := ReadFirst(rest);
            if r.NoBox? then FirstFew(rest, n) == FirstFew(rest, n - 1)
            else
              var later := FirstFew(rest[r.used..], n - 1);
              && before + PackAll(CleanEntries(FirstFew(rest, n)))
                 == before + Pack(CleanEntry(r.atom)) + PackAll(CleanEntries(later))
              && AfterEntries(st, FirstFew(rest, n)) == AfterEntries(AfterEntry(st, r.atom), later)
  {
    hide FirstFew, CleanEntry, AfterEntry, ReadFirst, PackAll;
    FirstFewStep(rest, n);
    var r := ReadFirst(rest);
    if r.Box? {
      var later := FirstFew(rest[r.used..], n - 1);
      ConcatTail([r.atom], later);
      assert [r.atom][1..] + later == later;
      PackAllStep(CleanEntry(r.atom), CleanEntries(later));
      AppendAssoc(before, Pack(CleanEntry(r.atom)), PackAll(CleanEntries(later)));
    }
  }

  /** What is left to read of the sample entries can be read. */
  predicate FewReadable(s: seq<byte>, pos: nat, n: nat) {
    ListableFew(s, pos, n) && forall e <- FirstFew(s, n) :: ReadableEntry(e)
  }

  lemma FewReadableStep(s: seq<byte>, pos: nat, n: nat)
    requires n > 0
    ensures FewReadable(s, pos, n)
            <==> !Wraps(s, pos)
                 && match ReadFirst(s)
                    case NoBox => FewReadable(s, pos, n - 1)
                    case Box(a, used) => ReadableEntry(a) && FewReadable(s[used..], pos + used, n - 1)
  {
    hide FirstFew, ReadFirst, Wraps, ReadableEntry;
    FirstFewStep(s, n);
    var r := ReadFirst(s);
    if r.Box? {
      var later := FirstFew(s[r.used..], n - 1);
      assert forall e :: e in [r.atom] + later <==> e == r.atom || e in later;
    }
  }

  lemma FewReadableEnd(s: seq<byte>, pos: nat)
    ensures FewReadable(s, pos, 0)
  {
  }

  /** One level of `ReadableBox`. */
  lemma ReadableMeans(level: nat, a: Atom)
    requires level < 5
    ensures ReadableBox(level, a)
            <==> Listing(a.data).Some? && (level == 1 ==> ReadableTrak(Listing(a.data).value))
                 && forall c <- Listing(a.data).value :: c.atomType == PATH[level + 1] ==> ReadableBox(level + 1, c)
  {
  }

  lemma StsdEnd(rest: seq<byte>, st: State, before: seq<byte>)
    ensures before + PackAll(CleanEntries(FirstFew(rest, 0))) == before
    ensures AfterEntries(st, FirstFew(rest, 0)) == st
  {
    assert FirstFew(rest, 0) == [];
    assert before + [] == before;
  }

  lemma PackAllStep(a: Atom, rest: seq<Atom>)
    ensures PackAll([a] + rest) == Pack(a) + PackAll(rest)
  {
    assert ([a] + rest)[1..] == rest;
  }
}
