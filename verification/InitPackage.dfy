/** A written initialization segment, what the decrypter learns from its bytes, and the samples of a fragment behind it
    (src/drm/cenc.rs:52-62 and 190-402). */
module InitPackage {
  import opened Bytes
  import opened Mp4Atom
  import opened Cipher
  import opened Samples
  import opened SampleTables
  import opened DecrypterState
  import opened InitSegment
  import opened Fragment
  import opened MediaData
  import opened Decrypter
  import opened TrackKeys
  import opened Packager
  import opened Delivery
  import opened Streaming
  import opened Refinement
  import opened SeveralFragments

  // ----- The scheme -----

  /** The four letters that name a scheme (ISO/IEC 23001-7, section 4.2). */
  function SchemeLetters(s: EncScheme): (r: string)
    ensures |r| == 4 && IsAscii(r)
  {
    match s
    case Cenc => "cenc"
    case Cens => "cens"
    case Cbc1 => "cbc1"
    case Cbcs => "cbcs"
  }

  /** The payload of a `schm` box. */
  function PackSchm(flags: uint32, scheme: EncScheme, version: uint32): (r: seq<byte>)
    ensures |r| == 12
  {
    ToBE(flags, 4) + Ascii(SchemeLetters(scheme)) + ToBE(version, 4)
  }

  lemma SchemeCodes(s: EncScheme)
    ensures SchemeOf(Code(SchemeLetters(s))) == s
  {
    CodeValue(SchemeLetters(s));
  }

  /** Reading a written `schm` leaves its scheme and nothing else. */
  lemma SchmRoundTrip(st: State, flags: uint32, scheme: EncScheme, version: uint32, back: seq<byte>)
    ensures AfterSchm(st, PackSchm(flags, scheme, version) + back) == st.(scheme := scheme)
  {
    hide ToBE, SchemeOf;
    var data := PackSchm(flags, scheme, version) + back;
    assert data[4..8] == Ascii(SchemeLetters(scheme));
    SchemeCodes(scheme);
  }

  /** Every other name is taken for `cenc`. */
  lemma OtherSchemes(letters: string)
    requires |letters| == 4 && IsAscii(letters)
    requires letters != "cens" && letters != "cbc1" && letters != "cbcs"
    ensures SchemeOf(Code(letters)) == Cenc
  {
    CodesApart(letters, "cens");
    CodesApart(letters, "cbc1");
    CodesApart(letters, "cbcs");
    SchemeCodes(Cens);
    SchemeCodes(Cbc1);
    SchemeCodes(Cbcs);
    CodeValue("cens");
    CodeValue("cbc1");
    CodeValue("cbcs");
  }

  lemma CodesApart(a: string, b: string)
    requires |a| == 4 == |b| && IsAscii(a) && IsAscii(b) && a != b
    ensures Code(a) != Code(b)
  {
    CodeValue(a);
    CodeValue(b);
    assert a == [a[0], a[1], a[2], a[3]] && b == [b[0], b[1], b[2], b[3]];
  }

  // ----- A protected sample entry -----

  /** What a packager puts into a protected sample entry: its fixed fields, its boxes, those of its `sinf` and `schi`,
      the original format, the scheme and the encryption parameters. */
  datatype EntryInit = EntryInit(
    video: bool, fields: seq<byte>, boxes: seq<Atom>, sinf: seq<Atom>, schi: seq<Atom>, format: Fourcc,
    schmFlags: uint32, scheme: EncScheme, schmVersion: uint32, tenc: Tenc)

  /** Sample entries have 8 bytes of fields, visual ones 70 more and audio ones 20 (ISO/IEC 14496-12, section 12). */
  predicate WrittenEntry(e: EntryInit) {
    && |e.fields| == 8 + (if e.video then 70 else 20) && ValidTenc(e.tenc)
    && Sole(SINF, e.boxes) == Some(Atom(SINF, PackAll(e.sinf)))
    && Sole(FRMA, e.sinf) == Some(Atom(FRMA, ToBE(e.format, 4)))
    && Sole(SCHM, e.sinf) == Some(Atom(SCHM, PackSchm(e.schmFlags, e.scheme, e.schmVersion)))
    && Sole(SCHI, e.sinf) == Some(Atom(SCHI, PackAll(e.schi)))
    && Sole(TENC, e.schi) == Some(Atom(TENC, PackTenc(e.tenc)))
    && |EntryAtom(e).data| < 0x1_0000_0000
  }

  function EntryAtom(e: EntryInit): Atom {
    Atom(Code(if e.video then "encv" else "enca"), e.fields + PackAll(e.boxes))
  }

  /** What the entry says, read in a given state. */
  function LearnedFrom(st: State, e: EntryInit): State
    requires ValidTenc(e.tenc)
  {
    AfterTenc(st.(scheme := e.scheme), PackTenc(e.tenc))
  }

  lemma {:induction false} SchiRead(st: State, schi: seq<Atom>)
    ensures Lacks(TENC, schi) ==> AfterSchi(st, schi) == st
    ensures Sole(TENC, schi).Some? ==> AfterSchi(st, schi) == AfterTenc(st, Sole(TENC, schi).value.data)
    decreases |schi|
  {
    hide AfterTenc;
    if schi != [] {
      assert Lacks(TENC, schi) ==> schi[0] in schi && Lacks(TENC, schi[1..]);
      SchiRead(if schi[0].atomType == TENC then AfterTenc(st, schi[0].data) else st, schi[1..]);
    }
  }

  /** Scheme and parameters may stand in either order. */
  lemma SchemeApart(st: State, scheme: EncScheme, data: seq<byte>)
    ensures AfterTenc(st.(scheme := scheme), data) == AfterTenc(st, data).(scheme := scheme)
  {
  }

  /** What is left of a `sinf` to read. */
  lemma {:induction false} SinfRead(st: State, sinf: seq<Atom>, e: EntryInit)
    requires WrittenEntry(e) && Parse(PackAll(e.schi)) == e.schi
    requires Lacks(SCHM, sinf) || Sole(SCHM, sinf) == Sole(SCHM, e.sinf)
    requires Lacks(SCHI, sinf) || Sole(SCHI, sinf) == Sole(SCHI, e.sinf)
    ensures var s1 := if Lacks(SCHM, sinf) then st else st.(scheme := e.scheme);
            AfterSinf(st, sinf) == if Lacks(SCHI, sinf) then s1 else AfterTenc(s1, PackTenc(e.tenc))
    decreases |sinf|
  {
    hide AfterTenc, AfterSchm, Parse, PackTenc, PackSchm;
    if sinf != [] {
      var c, rest := sinf[0], sinf[1..];
      LacksFirst(SCHM, sinf);
      LacksFirst(SCHI, sinf);
      SchiRead(st, e.schi);
      SchmRoundTrip(st, e.schmFlags, e.scheme, e.schmVersion, []);
      var schm := PackSchm(e.schmFlags, e.scheme, e.schmVersion);
      assert schm + [] == schm;
      var next := if c.atomType == SCHM then st.(scheme := e.scheme)
                  else if c.atomType == SCHI then AfterTenc(st, PackTenc(e.tenc)) else st;
      SinfRead(next, rest, e);
      SchemeApart(st, e.scheme, PackTenc(e.tenc));
    }
  }

  lemma LacksFirst(t: Fourcc, boxes: seq<Atom>)
    requires boxes != []
    ensures Lacks(t, boxes) <==> boxes[0].atomType != t && Lacks(t, boxes[1..])
    ensures boxes[0].atomType == t && Sole(t, boxes).Some? ==> Sole(t, boxes).value == boxes[0] && Lacks(t, boxes[1..])
    ensures boxes[0].atomType != t ==> Sole(t, boxes) == Sole(t, boxes[1..])
  {
    assert boxes == [boxes[0]] + boxes[1..];
  }

  lemma {:induction false} EntryChildrenRead(st: State, boxes: seq<Atom>)
    ensures Lacks(SINF, boxes) ==> AfterEntryChildren(st, boxes) == st
    ensures Sole(SINF, boxes).Some? ==>
              AfterEntryChildren(st, boxes) == AfterSinf(st, Parse(Sole(SINF, boxes).value.data))
    decreases |boxes|
  {
    hide AfterSinf, Parse;
    if boxes != [] {
      LacksFirst(SINF, boxes);
      EntryChildrenRead(if boxes[0].atomType == SINF then AfterSinf(st, Parse(boxes[0].data)) else st, boxes[1..]);
    }
  }

  /** The boxes inside an entry are read as they were written. */
  lemma EntryParses(e: EntryInit)
    requires WrittenEntry(e)
    ensures FixedSize(EntryAtom(e).atomType) == |e.fields| && EntryAtom(e).data[|e.fields|..] == PackAll(e.boxes)
    ensures Parse(PackAll(e.boxes)) == e.boxes && Parse(PackAll(e.sinf)) == e.sinf && Parse(PackAll(e.schi)) == e.schi
    ensures Lists(PackAll(e.boxes)) && Lists(PackAll(e.sinf)) && Lists(PackAll(e.schi))
  {
    hide Parse, PackAll, Listable, Sole, PackSchm, PackTenc;
    EntryCodes();
    PackedFit(e.boxes);
    InsideMoof(e.boxes, Sole(SINF, e.boxes).value);
    PackedFit(e.sinf);
    InsideMoof(e.sinf, Sole(SCHI, e.sinf).value);
    PackedFit(e.schi);
    FitPrintable(e.boxes);
    FitPrintable(e.sinf);
    FitPrintable(e.schi);
  }

  lemma EntryCodes()
    ensures FixedSize(Code("encv")) == 78 && FixedSize(Code("enca")) == 28
  {
    CodeValue("encv");
    CodeValue("enca");
  }

  /** The fixed fields assumed for every kind of entry: 8 bytes and 70 more for visual entries, 20 more for audio ones,
      and 16 in all for the others. */
  lemma FixedFields(letters: string)
    requires |letters| == 4 && IsAscii(letters)
    ensures FixedSize(Code(letters))
            == if letters in ["encv", "mp4v", "avc1", "hvc1", "hev1"] then 8 + 70
               else if letters in ["enca", "mp4a"] then 8 + 20
               else 16
  {
    hide Code;
    CodeValue(letters);
    assert letters == [letters[0], letters[1], letters[2], letters[3]];
  }

  lemma EntryRead(st: State, e: EntryInit)
    requires WrittenEntry(e)
    ensures AfterEntry(st, EntryAtom(e)) == LearnedFrom(st, e) && ReadableEntry(EntryAtom(e))
  {
    hide Parse, PackAll, Lists, AfterTenc, AfterEntryChildren, FixedSize, PackSchm, PackTenc, AfterSinf, Code;
    EntryParses(e);
    EntryChildrenRead(st, e.boxes);
    SinfThere(e);
    SinfRead(st, e.sinf, e);
    forall c <- e.boxes | c.atomType == SINF ensures ReadableSinf(c) {
      OnlyOne(SINF, e.boxes, c);
      forall d <- e.sinf | d.atomType == SCHI ensures Lists(d.data) {
        OnlyOne(SCHI, e.sinf, d);
      }
    }
  }

  lemma SinfThere(e: EntryInit)
    requires WrittenEntry(e)
    ensures !Lacks(SCHM, e.sinf) && !Lacks(SCHI, e.sinf)
  {
    hide Sole, PackSchm, PackTenc, PackAll;
    assert Sole(SCHM, e.sinf).value in e.sinf && Sole(SCHI, e.sinf).value in e.sinf;
  }

  lemma {:induction false} OnlyOne(t: Fourcc, boxes: seq<Atom>, c: Atom)
    requires Sole(t, boxes).Some? && c in boxes && c.atomType == t
    ensures Sole(t, boxes).value == c
    decreases |boxes|
  {
    LacksFirst(t, boxes);
    assert c == boxes[0] || c in boxes[1..];
    if boxes[0].atomType != t {
      OnlyOne(t, boxes[1..], c);
    }
  }

  // ----- What cleaning leaves of it -----

  lemma {:induction false} FrmaRead(sinf: seq<Atom>, found: Option<Fourcc>)
    ensures Lacks(FRMA, sinf) ==> FrmaCodec(sinf, found) == found
    ensures Sole(FRMA, sinf).Some? && |Sole(FRMA, sinf).value.data| == 4 ==>
              FrmaCodec(sinf, found) == Some(U32(Sole(FRMA, sinf).value.data))
    decreases |sinf|
  {
    if sinf != [] {
      var c := sinf[0];
      LacksFirst(FRMA, sinf);
      assert |c.data| == 4 ==> c.data[..4] == c.data;
      FrmaRead(sinf[1..], if c.atomType == FRMA && |c.data| >= 4 then Some(U32(c.data[..4])) else found);
    }
  }

  lemma {:induction false} CodecRead(boxes: seq<Atom>, found: Option<Fourcc>)
    ensures Lacks(SINF, boxes) ==> EntryCodec(boxes, found) == found
    ensures Sole(SINF, boxes).Some? ==>
              EntryCodec(boxes, found) == FrmaCodec(Parse(Sole(SINF, boxes).value.data), None)
    decreases |boxes|
  {
    hide FrmaCodec, Parse;
    if boxes != [] {
      LacksFirst(SINF, boxes);
      CodecRead(boxes[1..], if boxes[0].atomType == SINF then FrmaCodec(Parse(boxes[0].data), None) else found);
    }
  }

  /** The boxes that are none of the four of protection. */
  function Clear(boxes: seq<Atom>): seq<Atom> {
    if boxes == [] then []
    else
      (if boxes[0].atomType in {Code("sinf"), Code("schi"), Code("tenc"), Code("schm")} then [] else [boxes[0]])
      + Clear(boxes[1..])
  }

  lemma {:induction false} ClearIsUnprotected(boxes: seq<Atom>)
    ensures Clear(boxes) == Unprotected(boxes)
  {
    ProtectionNames();
    if boxes != [] {
      ClearIsUnprotected(boxes[1..]);
    }
  }

  /** A written entry is cleaned to one of its original format, with the same fields and the boxes that have nothing to
      do with protection. */
  lemma EntryCleaned(e: EntryInit)
    requires WrittenEntry(e)
    ensures CleanEntry(EntryAtom(e)) == Atom(e.format, e.fields + PackAll(Clear(e.boxes)))
  {
    hide Parse, PackAll, FixedSize, FrmaCodec, EntryCodec, Unprotected, Clear, PackSchm, PackTenc, Code, Listable;
    EntryParses(e);
    CodecRead(e.boxes, None);
    FrmaRead(e.sinf, None);
    ClearIsUnprotected(e.boxes);
    Pow256Values();
    FromBEToBEFits(e.format, 4);
    assert EntryAtom(e).data[..|e.fields|] == e.fields;
  }

  // ----- A track -----

  /** What a packager puts into a `trak`: the identifier in its `tkhd`, the boxes on every level down to the `stsd`, and
      there one protected entry among entries that are clear. */
  datatype TrackInit = TrackInit(
    id: uint32, tkhdVersion: byte, tkhdFlags: seq<byte>, times: seq<byte>, tkhdRest: seq<byte>, trak: seq<Atom>,
    mdia: seq<Atom>, minf: seq<Atom>, stbl: seq<Atom>, stsdFlags: uint32, front: seq<Atom>, entry: EntryInit,
    back: seq<Atom>)

  /** Times have 4 bytes each in version 0 and 8 in version 1 (ISO/IEC 14496-12, section 8.3.2). */
  function PackTkhd(t: TrackInit): seq<byte> {
    [t.tkhdVersion] + t.tkhdFlags + t.times + ToBE(t.id, 4) + t.tkhdRest
  }

  function EntriesOf(t: TrackInit): seq<Atom> {
    t.front + ([EntryAtom(t.entry)] + t.back)
  }

  function PackStsd(t: TrackInit): seq<byte> {
    ToBE(t.stsdFlags, 4) + ToBE(|EntriesOf(t)|, 4) + PackAll(EntriesOf(t))
  }

  /** An entry without `sinf`. */
  predicate ClearEntry(a: Atom) {
    var fixed := FixedSize(a.atomType);
    |a.data| >= fixed ==> Lists(a.data[fixed..]) && Lacks(SINF, Parse(a.data[fixed..]))
  }

  predicate WrittenTrak(t: TrackInit) {
    && t.id > 0 && (t.tkhdVersion == 0 || t.tkhdVersion == 1) && |t.tkhdFlags| == 3
    && |t.times| == (if t.tkhdVersion == 0 then 8 else 16)
    && Sole(TKHD, t.trak) == Some(Atom(TKHD, PackTkhd(t)))
    && Sole(MDIA, t.trak) == Some(Atom(MDIA, PackAll(t.mdia)))
    && Sole(MINF, t.mdia) == Some(Atom(MINF, PackAll(t.minf)))
    && Sole(STBL, t.minf) == Some(Atom(STBL, PackAll(t.stbl)))
    && Sole(STSD, t.stbl) == Some(Atom(STSD, PackStsd(t)))
    && WrittenEntry(t.entry) && (forall a <- t.front + t.back :: ClearEntry(a))
    && |PackAll(t.trak)| < 0x1_0000_0000
  }

  function TrakOf(t: TrackInit): Atom {
    Atom(TRAK, PackAll(t.trak))
  }

  lemma {:induction false} ClearEntriesRead(st: State, entries: seq<Atom>)
    requires forall a <- entries :: ClearEntry(a)
    ensures AfterEntries(st, entries) == st && forall a <- entries :: ReadableEntry(a)
    decreases |entries|
  {
    hide FixedSize, Lists, Parse;
    if entries != [] {
      var a := entries[0];
      assert a in entries;
      if |a.data| >= FixedSize(a.atomType) {
        EntryChildrenRead(st, Parse(a.data[FixedSize(a.atomType)..]));
      }
      assert AfterEntry(st, a) == st;
      ClearEntriesRead(st, entries[1..]);
    }
  }

  lemma {:induction false} EntriesConcat(st: State, a: seq<Atom>, b: seq<Atom>)
    ensures AfterEntries(st, a + b) == AfterEntries(AfterEntries(st, a), b)
    decreases |a|
  {
    hide AfterEntry;
    if a == [] {
      assert a + b == b;
    } else {
      ConcatTail(a, b);
      EntriesConcat(AfterEntry(st, a[0]), a[1..], b);
    }
  }

  /** A listing can be cut short. */
  lemma {:induction false} FewOfMany(s: seq<byte>, pos: nat, n: nat)
    requires Listable(s, pos)
    ensures ListableFew(s, pos, n)
    decreases n
  {
    hide Wraps;
    if n > 0 && ReadFirst(s).Box? {
      FewOfMany(s[ReadFirst(s).used..], pos + ReadFirst(s).used, n - 1);
    }
  }

  lemma StsdRead(st: State, t: TrackInit)
    requires WrittenTrak(t) && |PackStsd(t)| < 0x1_0000_0000
    ensures AfterBox(5, st, Atom(STSD, PackStsd(t))) == LearnedFrom(st, t.entry)
    ensures ReadableBox(5, Atom(STSD, PackStsd(t)))
  {
    hide Parse, PackAll, Sole, ClearEntry, Listable, ListableFew, AfterEntries, AfterEntry, ReadableEntry, WrittenEntry,
      EntryAtom, LearnedFrom, ToBE, FromBE, PackTkhd;
    EntryTenc(t.entry);
    var es, e, data := EntriesOf(t), EntryAtom(t.entry), PackStsd(t);
    EntryCount(es);
    Pow256Values();
    FromBEToBEFits(|es|, 4);
    assert data[4..8] == ToBE(|es|, 4) && data[8..] == PackAll(es);
    PackedFit(es);
    FitPrintable(es);
    FewOfMany(PackAll(es), 0, |es|);
    forall a <- t.front ensures ClearEntry(a) { assert a in t.front + t.back; }
    forall a <- t.back ensures ClearEntry(a) { assert a in t.front + t.back; }
    ClearEntriesRead(st, t.front);
    ClearEntriesRead(LearnedFrom(st, t.entry), t.back);
    EntryRead(st, t.entry);
    EntriesConcat(st, t.front, [e] + t.back);
    EntriesConcat(st, [e], t.back);
    OneEntry(st, e);
    assert es[..|es|] == es;
    forall a <- es ensures ReadableEntry(a) {
      assert a in t.front || a == e || a in t.back;
    }
  }

  lemma EntryTenc(e: EntryInit)
    requires WrittenEntry(e)
    ensures ValidTenc(e.tenc)
  {
  }

  lemma OneEntry(st: State, e: Atom)
    ensures AfterEntries(st, [e]) == AfterEntry(st, e)
  {
    hide AfterEntry;
    assert [e][1..] == [];
  }

  lemma {:induction false} EntryCount(es: seq<Atom>)
    ensures 8 * |es| <= |PackAll(es)|
  {
    if es != [] {
      EntryCount(es[1..]);
    }
  }

  /** A container whose next box on the path occurs once. */
  lemma {:induction false} ContainerRead(level: nat, st: State, boxes: seq<Atom>)
    requires level < 5
    ensures Lacks(PATH[level + 1], boxes) ==> AfterChildren(level, st, boxes) == st
    ensures Sole(PATH[level + 1], boxes).Some? ==>
              AfterChildren(level, st, boxes) == AfterBox(level + 1, st, Sole(PATH[level + 1], boxes).value)
    decreases |boxes|
  {
    hide AfterBox;
    if boxes != [] {
      LacksFirst(PATH[level + 1], boxes);
      ContainerRead(level, if boxes[0].atomType == PATH[level + 1] then AfterBox(level + 1, st, boxes[0]) else st,
                    boxes[1..]);
    }
  }

  /** Between `trak` and `stsd`. */
  lemma InnerRead(level: nat, st: State, boxes: seq<Atom>, inner: Atom)
    requires 1 < level < 5 && Sole(PATH[level + 1], boxes) == Some(inner) && |PackAll(boxes)| < 0x1_0000_0000
    ensures var a := Atom(PATH[level], PackAll(boxes));
            && AfterBox(level, st, a) == AfterBox(level + 1, st, inner) && |inner.data| < 0x1_0000_0000
            && (ReadableBox(level + 1, inner) ==> ReadableBox(level, a))
  {
    hide Parse, PackAll, Listable, Sole, AfterChildren;
    PackedFit(boxes);
    FitPrintable(boxes);
    InsideMoof(boxes, inner);
    ContainerRead(level, st, boxes);
    forall c <- boxes | c.atomType == PATH[level + 1] ensures c == inner {
      OnlyOne(PATH[level + 1], boxes, c);
    }
  }

  lemma {:induction false} FirstIsSole(t: Fourcc, boxes: seq<Atom>)
    requires Sole(t, boxes).Some?
    ensures FirstOf(t, boxes) == Sole(t, boxes)
  {
    if boxes[0].atomType != t {
      FirstIsSole(t, boxes[1..]);
    }
  }

  lemma TkhdRead(t: TrackInit, current: uint32)
    requires WrittenTrak(t)
    ensures TrackId(t.trak, current) == t.id && ReadableTrak(t.trak)
  {
    hide PackAll, ClearEntry, WrittenEntry, ToBE, FromBE, PackStsd;
    FirstIsSole(TKHD, t.trak);
    var data := PackTkhd(t);
    var at := if t.tkhdVersion == 0 then 12 else 20;
    assert data[0] == t.tkhdVersion && data[at..at + 4] == ToBE(t.id, 4);
    Pow256Values();
    FromBEToBEFits(t.id, 4);
  }

  lemma TrakRead(st: State, t: TrackInit)
    requires WrittenTrak(t)
    ensures AfterBox(1, st, TrakOf(t)) == LearnedFrom(st.(currentTrackId := t.id), t.entry)
    ensures ReadableBox(1, TrakOf(t))
  {
    hide Parse, PackAll, Sole, Listable, ClearEntry, WrittenEntry, AfterChildren, AfterBox, ReadableBox, LearnedFrom,
      PackTkhd, PackStsd, TrackId, ReadableTrak;
    var s1 := st.(currentTrackId := t.id);
    var mdia, minf, stbl := Atom(MDIA, PackAll(t.mdia)), Atom(MINF, PackAll(t.minf)), Atom(STBL, PackAll(t.stbl));
    InsideMoof(t.trak, mdia) by {
      assert Sole(MDIA, t.trak).value in t.trak;
    }
    InnerRead(2, s1, t.mdia, minf);
    InnerRead(3, s1, t.minf, stbl);
    InnerRead(4, s1, t.stbl, Atom(STSD, PackStsd(t)));
    StsdRead(s1, t);
    TkhdRead(t, st.currentTrackId);
    OuterRead(st, t, mdia);
  }

  lemma OuterRead(st: State, t: TrackInit, mdia: Atom)
    requires |PackAll(t.trak)| < 0x1_0000_0000 && Sole(MDIA, t.trak) == Some(mdia)
    requires TrackId(t.trak, st.currentTrackId) == t.id && ReadableTrak(t.trak) && ReadableBox(2, mdia)
    ensures AfterBox(1, st, TrakOf(t)) == AfterBox(2, st.(currentTrackId := t.id), mdia) && ReadableBox(1, TrakOf(t))
  {
    hide Parse, PackAll, Listable, Sole, AfterChildren, TrackId, ReadableTrak;
    PackedFit(t.trak);
    FitPrintable(t.trak);
    ContainerRead(1, st.(currentTrackId := t.id), t.trak);
    forall c <- t.trak | c.atomType == MDIA ensures c == mdia {
      OnlyOne(MDIA, t.trak, c);
    }
  }

  // ----- A whole initialization segment -----

  /** The boxes of a `moov`, and its tracks in order. */
  datatype MoovInit = MoovInit(boxes: seq<Atom>, tracks: seq<TrackInit>)

  function TraksOf(tracks: seq<TrackInit>): seq<Atom> {
    if tracks == [] then [] else [TrakOf(tracks[0])] + TraksOf(tracks[1..])
  }

  predicate WrittenMoov(m: MoovInit) {
    && m.tracks != [] && OfType(TRAK, m.boxes) == TraksOf(m.tracks) && |PackAll(m.boxes)| < 0x1_0000_0000
    && (forall t <- m.tracks :: WrittenTrak(t))
    && forall i, j :: 0 <= i < j < |m.tracks| ==> m.tracks[i].id != m.tracks[j].id
  }

  function MoovOf(m: MoovInit): Atom {
    Atom(MOOV, PackAll(m.boxes))
  }

  /** The tracks one after the other. */
  function LearnedFromAll(st: State, tracks: seq<TrackInit>): State
    requires forall t <- tracks :: ValidTenc(t.entry.tenc)
    decreases |tracks|
  {
    if tracks == [] then st
    else LearnedFromAll(LearnedFrom(st.(currentTrackId := tracks[0].id), tracks[0].entry), tracks[1..])
  }

  lemma {:induction false} FirstTrak(boxes: seq<Atom>, tracks: seq<TrackInit>)
    requires boxes != [] && boxes[0].atomType == TRAK && OfType(TRAK, boxes) == TraksOf(tracks)
    ensures tracks != [] && boxes[0] == TrakOf(tracks[0]) && OfType(TRAK, boxes[1..]) == TraksOf(tracks[1..])
  {
    assert OfType(TRAK, boxes) == [boxes[0]] + OfType(TRAK, boxes[1..]) && tracks != [];
    assert TraksOf(tracks) == [TrakOf(tracks[0])] + TraksOf(tracks[1..]);
    assert OfType(TRAK, boxes)[1..] == OfType(TRAK, boxes[1..]) && TraksOf(tracks)[1..] == TraksOf(tracks[1..]);
  }

  lemma TrakTenc(t: TrackInit)
    requires WrittenTrak(t)
    ensures ValidTenc(t.entry.tenc) && t.id > 0
  {
  }

  lemma {:induction false} MoovChildrenRead(st: State, boxes: seq<Atom>, tracks: seq<TrackInit>)
    requires OfType(TRAK, boxes) == TraksOf(tracks)
    requires forall t <- tracks :: WrittenTrak(t) && ValidTenc(t.entry.tenc)
    ensures AfterChildren(0, st, boxes) == LearnedFromAll(st, tracks)
    ensures forall c <- boxes :: c.atomType == TRAK ==> ReadableBox(1, c)
    decreases |boxes|
  {
    hide WrittenTrak, AfterBox, ReadableBox, LearnedFrom, PackAll, ValidTenc;
    if boxes == [] {
      assert tracks == [];
    } else if boxes[0].atomType == TRAK {
      FirstTrak(boxes, tracks);
      var t := tracks[0];
      TrakRead(st, t);
      MoovChildrenRead(LearnedFrom(st.(currentTrackId := t.id), t.entry), boxes[1..], tracks[1..]);
    } else {
      assert OfType(TRAK, boxes) == OfType(TRAK, boxes[1..]);
      MoovChildrenRead(st, boxes[1..], tracks);
    }
  }

  lemma TracksValid(m: MoovInit)
    requires WrittenMoov(m)
    ensures forall t <- m.tracks :: WrittenTrak(t) && ValidTenc(t.entry.tenc) && t.id > 0
  {
    hide WrittenTrak, PackAll, OfType, ValidTenc;
    forall t <- m.tracks ensures ValidTenc(t.entry.tenc) && t.id > 0 {
      TrakTenc(t);
    }
  }

  /** A written `moov` is read, and tells what its tracks say one after the other. */
  lemma MoovRead(st: State, m: MoovInit)
    requires WrittenMoov(m)
    ensures (forall t <- m.tracks :: ValidTenc(t.entry.tenc))
            && AfterBox(0, st, MoovOf(m)) == LearnedFromAll(st, m.tracks)
    ensures ReadableBox(0, MoovOf(m))
  {
    hide WrittenTrak, PackAll, OfType, TraksOf, Parse, Listable, AfterChildren, LearnedFromAll, ValidTenc;
    TracksValid(m);
    PackedFit(m.boxes);
    FitPrintable(m.boxes);
    MoovChildrenRead(st, m.boxes, m.tracks);
  }

  /** The settings and the key identifier of a track stand under its own identifier. */
  predicate Has(st: State, t: TrackInit) {
    && t.id in st.trackSettings && st.trackSettings[t.id] == SettingsOf(t.entry.tenc)
    && t.id in st.extractedKids && st.extractedKids[t.id] == t.entry.tenc.kid
  }

  /** The same is known of track `id`. */
  predicate SameOf(a: State, b: State, id: uint32) {
    && (id in a.trackSettings <==> id in b.trackSettings)
    && (id in a.trackSettings ==> a.trackSettings[id] == b.trackSettings[id])
    && (id in a.extractedKids <==> id in b.extractedKids)
    && (id in a.extractedKids ==> a.extractedKids[id] == b.extractedKids[id])
  }

  lemma StillHas(a: State, b: State, t: TrackInit)
    requires Has(a, t) && SameOf(b, a, t.id)
    ensures Has(b, t)
  {
  }

  lemma SameOfTwice(a: State, b: State, c: State, id: uint32)
    requires SameOf(a, b, id) && SameOf(b, c, id)
    ensures SameOf(a, c, id)
  {
  }

  /** What the tracks leave in the state: settings and key identifier of each, and nothing else about tracks. */
  lemma {:induction false} TracksLearned(st: State, tracks: seq<TrackInit>)
    requires forall t <- tracks :: ValidTenc(t.entry.tenc) && t.id > 0
    requires forall i, j :: 0 <= i < j < |tracks| ==> tracks[i].id != tracks[j].id
    ensures var after := LearnedFromAll(st, tracks);
            && after.keyMap == st.keyMap
            && (forall k :: 0 <= k < |tracks| ==> Has(after, tracks[k]))
            && (forall id: uint32 | (forall k :: 0 <= k < |tracks| ==> tracks[k].id != id) :: SameOf(after, st, id))
    decreases |tracks|
  {
    hide ValidTenc, SettingsOf, LearnedFrom, Has, SameOf;
    if tracks == [] {
      assert forall id: uint32 :: SameOf(st, st, id) by {
        forall id: uint32 ensures SameOf(st, st, id) {
          SameOfItself(st, id);
        }
      }
    } else {
      var t, rest, after := tracks[0], tracks[1..], LearnedFromAll(st, tracks);
      assert t in tracks && forall i :: 0 <= i < |rest| ==> rest[i] == tracks[i + 1];
      var next := LearnedFrom(st.(currentTrackId := t.id), t.entry);
      OneTrackLearned(st, t);
      TracksLearned(next, rest);
      StillHas(next, after, t);
      forall k | 0 < k < |tracks| ensures Has(after, tracks[k]) {
        assert tracks[k] == rest[k - 1];
      }
      forall id: uint32 | forall k :: 0 <= k < |tracks| ==> tracks[k].id != id ensures SameOf(after, st, id) {
        assert forall k :: 0 <= k < |rest| ==> rest[k].id == tracks[k + 1].id != id;
        SameOfTwice(after, next, st, id);
      }
    }
  }

  lemma SameOfItself(st: State, id: uint32)
    ensures SameOf(st, st, id)
  {
  }

  lemma OneTrackLearned(st: State, t: TrackInit)
    requires ValidTenc(t.entry.tenc) && t.id > 0
    ensures var after := LearnedFrom(st.(currentTrackId := t.id), t.entry);
            && after.keyMap == st.keyMap && after.scheme == t.entry.scheme
            && after.defaultIvSize == SettingsOf(t.entry.tenc).ivSize
            && after.constantIv == (if t.entry.tenc.ivSize == 0 then Some(t.entry.tenc.constantIv) else st.constantIv)
            && Has(after, t) && forall id: uint32 | id != t.id :: SameOf(after, st, id)
  {
    hide AfterTenc, PackTenc, SettingsOf;
    var s1 := st.(currentTrackId := t.id, scheme := t.entry.scheme);
    TencRoundTrip(s1, t.entry.tenc, []);
    assert PackTenc(t.entry.tenc) + [] == PackTenc(t.entry.tenc);
    var after := AfterTenc(s1, PackTenc(t.entry.tenc));
    forall id: uint32 | id != t.id ensures SameOf(after, st, id) {
      OthersStay(after.trackSettings, st.trackSettings, t.id, id);
      OthersStay(after.extractedKids, st.extractedKids, t.id, id);
    }
  }

  lemma OthersStay<V>(a: map<uint32, V>, b: map<uint32, V>, but: uint32, id: uint32)
    requires a - {but} == b - {but} && id != but
    ensures (id in a <==> id in b) && (id in a ==> a[id] == b[id])
  {
    assert id in a <==> id in a - {but};
    assert id in b <==> id in b - {but};
    assert id in a ==> (a - {but})[id] == a[id];
    assert id in b ==> (b - {but})[id] == b[id];
  }

  // ----- Where vectors come from -----

  /** The vectors of a track's `senc`, as its own entry says. A constant vector is for `cbcs` only; under another scheme
      the program reads vectors of 16 bytes instead. */
  function SourceOf(e: EntryInit): IvSource {
    if e.tenc.ivSize > 0 then PerSample(e.tenc.ivSize)
    else if e.scheme == Cbcs then Constant(e.tenc.constantIv)
    else PerSample(16)
  }

  /** All tracks have one scheme and one source of vectors. */
  predicate Alike(tracks: seq<TrackInit>) {
    forall i, j :: 0 <= i < |tracks| && 0 <= j < |tracks| ==>
      tracks[i].entry.scheme == tracks[j].entry.scheme && SourceOf(tracks[i].entry) == SourceOf(tracks[j].entry)
  }

  /** The state holds what the tracks say, as far as vectors are concerned. */
  lemma {:induction false} VectorsLearned(st: State, tracks: seq<TrackInit>)
    requires (forall t <- tracks :: ValidTenc(t.entry.tenc) && t.id > 0) && tracks != []
    ensures var after, last := LearnedFromAll(st, tracks), tracks[|tracks| - 1].entry;
            && after.scheme == last.scheme && after.defaultIvSize == SettingsOf(last.tenc).ivSize
            && (last.tenc.ivSize == 0 ==> after.constantIv == Some(last.tenc.constantIv))
            && ((forall t <- tracks :: t.entry.tenc.ivSize > 0) ==> after.constantIv == st.constantIv)
    decreases |tracks|
  {
    hide SettingsOf, LearnedFrom;
    var t, rest := tracks[0], tracks[1..];
    assert t in tracks;
    OneTrackLearned(st, t);
    if rest != [] {
      VectorsLearned(LearnedFrom(st.(currentTrackId := t.id), t.entry), rest);
      assert rest[|rest| - 1] == tracks[|tracks| - 1];
    }
  }

  /** The decrypter keeps one scheme and one source of vectors for all tracks: it knows them for every track if and only
      if the tracks agree. */
  lemma SourcesExactly(keyMap: map<seq<byte>, Key>, tracks: seq<TrackInit>)
    requires (forall t <- tracks :: ValidTenc(t.entry.tenc) && t.id > 0) && tracks != []
    ensures var after := LearnedFromAll(Fresh(keyMap), tracks);
            (forall t <- tracks :: after.scheme == t.entry.scheme && VectorSource(after) == SourceOf(t.entry))
            <==> Alike(tracks)
  {
    hide SettingsOf, LearnedFromAll;
    var after, n := LearnedFromAll(Fresh(keyMap), tracks), |tracks|;
    var last := tracks[n - 1];
    VectorsLearned(Fresh(keyMap), tracks);
    LastSettings(last.entry.tenc);
    assert last in tracks;
    if Alike(tracks) {
      forall t <- tracks ensures after.scheme == t.entry.scheme && VectorSource(after) == SourceOf(t.entry) {
        var i :| 0 <= i < n && tracks[i] == t;
        assert t.entry.scheme == last.entry.scheme && SourceOf(t.entry) == SourceOf(last.entry);
        if last.entry.tenc.ivSize > 0 && last.entry.scheme == Cbcs {
          forall u <- tracks ensures u.entry.tenc.ivSize > 0 {
            var j :| 0 <= j < n && tracks[j] == u;
            assert u.entry.scheme == last.entry.scheme && SourceOf(u.entry) == SourceOf(last.entry);
          }
        }
      }
    }
  }

  lemma LastSettings(t: Tenc)
    requires ValidTenc(t)
    ensures SettingsOf(t).ivSize == if t.ivSize > 0 then t.ivSize else 16
  {
  }

  // ----- From the initialization segment to the samples -----

  /** How a track is encrypted, as its own entry says, under the key given for its identifier. Without a pattern
      (version 0) the program assumes 1:9, which `cenc` and `cbc1` do not use. */
  function SetupOf(keyMap: map<seq<byte>, Key>, t: TrackInit): Setup
    requires t.entry.tenc.kid in keyMap
  {
    var tenc := t.entry.tenc;
    Setup(t.entry.scheme, SourceOf(t.entry), keyMap[tenc.kid], if tenc.version > 0 then tenc.crypt else 1,
          if tenc.version > 0 then tenc.skip else 9, if tenc.ivSize == 0 then Some(tenc.constantIv) else None)
  }

  /** A track of a fragment is that of a `trak`: it has its identifier and is encrypted as that says. Schemes with a
      pattern need a `tenc` that has one, and the key identifier must be given and not be zero. */
  predicate Belongs(keyMap: map<seq<byte>, Key>, t: Track, k: TrackInit) {
    && t.tfhd.trackId == k.id && k.entry.tenc.kid in keyMap && k.entry.tenc.kid != seq(16, _ => 0)
    && t.setup == SetupOf(keyMap, k)
    && (k.entry.scheme == Cens || k.entry.scheme == Cbcs ==> k.entry.tenc.version > 0)
  }

  predicate Behind(keyMap: map<seq<byte>, Key>, m: MoovInit, p: Package) {
    forall t <- p.tracks :: exists k <- m.tracks :: Belongs(keyMap, t, k)
  }

  /** A written `moov` whose tracks can be read together. */
  predicate ReadyMoov(m: MoovInit) {
    WrittenMoov(m) && Alike(m.tracks)
  }

  /** The decrypter knows every track of a fragment that belongs to the initialization segment. */
  lemma TrackKnown(keyMap: map<seq<byte>, Key>, m: MoovInit, t: Track, k: TrackInit)
    requires ReadyMoov(m) && k in m.tracks && Belongs(keyMap, t, k)
    ensures Knows(AfterBox(0, Fresh(keyMap), MoovOf(m)), t)
  {
    hide WrittenTrak, PackAll, OfType, TraksOf, LearnedFromAll, AfterBox, VectorSource, ValidTenc, Belongs, SettingsOf,
      Knows, SourceOf, Alike;
    MoovRead(Fresh(keyMap), m);
    TracksValid(m);
    TracksLearned(Fresh(keyMap), m.tracks);
    SourcesExactly(keyMap, m.tracks);
    var i :| 0 <= i < |m.tracks| && m.tracks[i] == k;
    KnownFrom(keyMap, AfterBox(0, Fresh(keyMap), MoovOf(m)), t, k);
  }

  lemma KnownFrom(keyMap: map<seq<byte>, Key>, st: State, t: Track, k: TrackInit)
    requires Belongs(keyMap, t, k) && ValidTenc(k.entry.tenc) && st.keyMap == keyMap
    requires st.scheme == k.entry.scheme && VectorSource(st) == SourceOf(k.entry)
    requires k.id in st.trackSettings && st.trackSettings[k.id] == SettingsOf(k.entry.tenc)
    requires k.id in st.extractedKids && st.extractedKids[k.id] == k.entry.tenc.kid
    ensures Knows(st, t)
  {
    hide VectorSource, ValidTenc, SwappedGuid, AllZero, SourceOf;
    KidLength(k.entry.tenc);
    ZeroKid(k.entry.tenc.kid);
  }

  lemma KidLength(t: Tenc)
    requires ValidTenc(t)
    ensures |t.kid| == 16
  {
  }

  lemma AllKnown(keyMap: map<seq<byte>, Key>, m: MoovInit, p: Package)
    requires ReadyMoov(m) && WrittenPackage(p) && Behind(keyMap, m, p)
    ensures Packaged(AfterBox(0, Fresh(keyMap), MoovOf(m)), p)
  {
    hide ReadyMoov, Written, Knows, Belongs, AfterBox, OfType, PackAll;
    forall t <- p.tracks ensures PackagedTrack(AfterBox(0, Fresh(keyMap), MoovOf(m)), t) {
      var k :| k in m.tracks && Belongs(keyMap, t, k);
      TrackKnown(keyMap, m, t, k);
    }
  }

  /** The plain samples of every track stand in `out` where its run says. */
  predicate Delivered(p: Package, payload: int, out: seq<byte>) {
    forall k :: 0 <= k < |p.tracks| ==>
      PlaceOf(p, payload, k) >= 0 && Holds(out, PlaceOf(p, payload, k), Joined(p.tracks[k].plain))
  }

  /** End to end, from the bytes of the initialization segment on: with the keys its key identifiers name, the streaming
      form turns a fragment and its media data into the cleaned fragment and media data with the plain samples in their
      places. */
  lemma SamplesFromInit(aes: Aes, keyMap: map<seq<byte>, Key>, init: seq<Atom>, m: MoovInit, p: Package, payload: int,
                        data: seq<byte>)
    returns (out: seq<byte>)
    requires Inverts(aes) && ReadyMoov(m) && OfType(MOOV, init) == [MoovOf(m)] && |PackAll(init)| < 0x1_0000_0000
    requires WrittenPackage(p) && Behind(keyMap, m, p) && LaidOut(aes, p, payload, data) && |data| + 8 < 0x1_0000_0000
    ensures |out| == |data| && Delivered(p, payload, out)
    ensures var current := m.tracks[|m.tracks| - 1].id;
            StreamedWhole(aes, keyMap, PackAll(init), PackAll([MoofOf(p), Atom(MDAT, data)]), false)
            == Some(PackAll([CleanMoof(MoofOf(p), current), Atom(MDAT, out)]))
  {
    hide ReadyMoov, WrittenPackage, Behind, LaidOut, Packaged, AfterBox, OfType, PackAll, Delivered, AfterMoof,
      DecryptedMdat, StreamAll, Primed, CleanMoof, Inverts;
    var st := AfterBox(0, Fresh(keyMap), MoovOf(m));
    AllKnown(keyMap, m, p);
    PlainSamplesComeOut(aes, st, p, payload, data);
    out := DecryptedMdat(aes, AfterMoof(st, MoofOf(p)), data).value;
    DeliveredAll(p, payload, data, out);
    PrimedFrom(keyMap, init, m);
    FragmentStreamed(aes, st, p, data);
    CurrentTrack(keyMap, m);
    var o := StreamAll(aes, st, PackAll([MoofOf(p), Atom(MDAT, data)]));
    assert [] + o.out == o.out;
  }

  lemma DeliveredAll(p: Package, payload: int, data: seq<byte>, out: seq<byte>)
    requires forall k :: 0 <= k < |p.tracks| ==>
               PlaceOf(p, payload, k) >= 0 && Holds(out, PlaceOf(p, payload, k), Joined(p.tracks[k].plain))
    ensures Delivered(p, payload, out)
  {
  }

  lemma {:induction false} SoleMoov(st: State, init: seq<Atom>, moov: Atom)
    requires OfType(MOOV, init) == [moov]
    ensures AfterAllMoovs(st, init) == AfterBox(0, st, moov) && forall a <- init :: a.atomType == MOOV ==> a == moov
    decreases |init|
  {
    hide AfterBox;
    if init == [] {
    } else if init[0].atomType == MOOV {
      assert OfType(MOOV, init) == [init[0]] + OfType(MOOV, init[1..]);
      assert OfType(MOOV, init)[0] == init[0] && OfType(MOOV, init)[1..] == OfType(MOOV, init[1..]) == [];
      NothingOfType(MOOV, init[1..]);
      NoMoov(AfterBox(0, st, moov), init[1..]);
    } else {
      assert OfType(MOOV, init) == OfType(MOOV, init[1..]);
      SoleMoov(st, init[1..], moov);
    }
  }

  lemma {:induction false} NothingOfType(t: Fourcc, boxes: seq<Atom>)
    requires OfType(t, boxes) == []
    ensures forall a <- boxes :: a.atomType != t
    decreases |boxes|
  {
    if boxes != [] {
      assert |OfType(t, boxes)| == (if boxes[0].atomType == t then 1 else 0) + |OfType(t, boxes[1..])|;
      NothingOfType(t, boxes[1..]);
    }
  }

  lemma PrimedFrom(keyMap: map<seq<byte>, Key>, init: seq<Atom>, m: MoovInit)
    requires ReadyMoov(m) && OfType(MOOV, init) == [MoovOf(m)] && |PackAll(init)| < 0x1_0000_0000
    ensures Primed(keyMap, PackAll(init), false) == Some((AfterBox(0, Fresh(keyMap), MoovOf(m)), []))
  {
    hide WrittenTrak, PackAll, OfType, Parse, Listable, AfterBox, ReadableBox, Alike, CleanedInit;
    PackedFit(init);
    FitPrintable(init);
    SoleMoov(Fresh(keyMap), init, MoovOf(m));
    MoovRead(Fresh(keyMap), m);
  }

  lemma FragmentStreamed(aes: Aes, st: State, p: Package, data: seq<byte>)
    requires Packaged(st, p) && |data| + 8 < 0x1_0000_0000
    requires DecryptedMdat(aes, AfterMoof(st, MoofOf(p)), data).Some?
    ensures var o := StreamAll(aes, st, PackAll([MoofOf(p), Atom(MDAT, data)]));
            var out := DecryptedMdat(aes, AfterMoof(st, MoofOf(p)), data).value;
            !o.Aborted? && o.out == PackAll([CleanMoof(MoofOf(p), st.currentTrackId), Atom(MDAT, out)])
  {
    hide Parse, Listable, AfterMoof, DecryptedMdat, StreamAll, CleanMoof, Fold, PackagedTrack, OfType, TrafsOf, Pack;
    var moof, mdat := MoofOf(p), Atom(MDAT, data);
    var out := DecryptedMdat(aes, AfterMoof(st, moof), data).value;
    PlainFragment(st, p, st.currentTrackId);
    FoldFragment(aes, st, moof, mdat, []);
    NothingFolded(aes, AfterMoof(st, moof));
    assert [moof, mdat] + [] == [moof, mdat];
    assert AllFit([moof, mdat]);
    WholeFold(aes, st, PackAll([moof, mdat]), [moof, mdat]);
    TwoPacked(CleanMoof(moof, st.currentTrackId), Atom(MDAT, out));
  }

  lemma TwoPacked(a: Atom, b: Atom)
    ensures PackAll([a, b]) == Pack(a) + Pack(b)
  {
    hide Pack;
    assert [a, b][1..] == [b] && [b][1..] == [];
    assert Pack(b) + [] == Pack(b);
    assert PackAll([b]) == Pack(b) + PackAll([]);
  }

  lemma CurrentTrack(keyMap: map<seq<byte>, Key>, m: MoovInit)
    requires ReadyMoov(m)
    ensures AfterBox(0, Fresh(keyMap), MoovOf(m)).currentTrackId == m.tracks[|m.tracks| - 1].id
  {
    hide WrittenTrak, PackAll, OfType, TraksOf, LearnedFromAll, AfterBox, ValidTenc, Alike;
    MoovRead(Fresh(keyMap), m);
    LastCurrent(Fresh(keyMap), m.tracks);
  }

  lemma {:induction false} LastCurrent(st: State, tracks: seq<TrackInit>)
    requires (forall t <- tracks :: ValidTenc(t.entry.tenc)) && tracks != []
    ensures LearnedFromAll(st, tracks).currentTrackId == tracks[|tracks| - 1].id
    decreases |tracks|
  {
    hide PackTenc, ValidTenc;
    assert tracks[0] in tracks;
    var next := LearnedFrom(st.(currentTrackId := tracks[0].id), tracks[0].entry);
    assert next.currentTrackId == tracks[0].id;
    if |tracks| > 1 {
      LastCurrent(next, tracks[1..]);
    }
  }
}
