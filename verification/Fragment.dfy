/** Cleaning a movie fragment and collecting what its media data needs (src/drm/cenc.rs:408-667). */
module Fragment {
  import opened Bytes
  import opened Mp4Atom
  import opened Samples
  import opened SampleTables
  import opened DecrypterState
  import opened InitSegment

  // ----- Cleaning -----

  /** Box types that only matter while samples are encrypted. */
  predicate Stripped(t: Fourcc) {
    t == SENC || t == SAIZ || t == SAIO
  }

  function StrippedBytes(children: seq<Atom>): nat {
    if children == [] then 0
    else (if Stripped(children[0].atomType) then |children[0].data| + 8 else 0) + StrippedBytes(children[1..])
  }

  /** How much shorter a whole fragment becomes. */
  function TotalOverhead(children: seq<Atom>): nat {
    if children == [] then 0
    else
      (if children[0].atomType == TRAF then StrippedBytes(Parse(children[0].data)) else 0)
      + TotalOverhead(children[1..])
  }

  function CleanTrun(trun: Atom, overhead: nat): Atom {
    Atom(TRUN, ShiftTrun(trun.data, overhead))
  }

  function CleanTrafChildren(children: seq<Atom>, overhead: nat): seq<Atom> {
    if children == [] then []
    else
      var c, rest := children[0], CleanTrafChildren(children[1..], overhead);
      if Stripped(c.atomType) then rest
      else if c.atomType == TRUN then [CleanTrun(c, overhead)] + rest
      else [c] + rest
  }

  predicate HasTfhd(children: seq<Atom>) {
    exists c <- children :: c.atomType == TFHD
  }

  /** A minimal `tfhd` naming the current track. */
  function PlainTfhd(trackId: uint32): Atom {
    Atom(TFHD, [0, 0, 0, 0] + ToBE(trackId, 4))
  }

  /** Does the program put a `tfhd` in front of a `traf` that lacks one? */
  predicate NeedsTfhd(children: seq<Atom>, trackId: uint32) {
    !HasTfhd(children) && trackId > 0
  }

  function TrafBoxes(children: seq<Atom>, overhead: nat, trackId: uint32): seq<Atom> {
    (if NeedsTfhd(children, trackId) then [PlainTfhd(trackId)] else []) + CleanTrafChildren(children, overhead)
  }

  function CleanTraf(traf: Atom, overhead: nat, trackId: uint32): Atom {
    Atom(TRAF, PackAll(TrafBoxes(Parse(traf.data), overhead, trackId)))
  }

  function CleanMoofChildren(children: seq<Atom>, overhead: nat, trackId: uint32): (r: seq<Atom>)
    ensures |r| == |children|
    ensures forall i :: 0 <= i < |r| ==>
              r[i] == if children[i].atomType == TRAF then CleanTraf(children[i], overhead, trackId) else children[i]
  {
    if children == [] then []
    else
      var c := children[0];
      [if c.atomType == TRAF then CleanTraf(c, overhead, trackId) else c]
      + CleanMoofChildren(children[1..], overhead, trackId)
  }

  function CleanMoof(moof: Atom, trackId: uint32): Atom {
    var children := Parse(moof.data);
    Atom(MOOF, PackAll(CleanMoofChildren(children, TotalOverhead(children), trackId)))
  }

  // ----- Conservation of offsets -----

  /** Size of a fragment's boxes when all of them, and all boxes in its track fragments, have 32-bit headers. */
  function PlainSize(children: seq<Atom>): nat {
    if children == [] then 0
    else
      8 + (if children[0].atomType == TRAF then |PackAll(Parse(children[0].data))| else |children[0].data|)
      + PlainSize(children[1..])
  }

  /** Bytes added by the `tfhd` boxes the program makes up. */
  function Added(children: seq<Atom>, trackId: uint32): nat {
    if children == [] then 0
    else
      (if children[0].atomType == TRAF && NeedsTfhd(Parse(children[0].data), trackId) then 16 else 0)
      + Added(children[1..], trackId)
  }

  lemma {:induction false} StrippedSize(children: seq<Atom>, overhead: nat)
    ensures |PackAll(CleanTrafChildren(children, overhead))| + StrippedBytes(children) == |PackAll(children)|
  {
    if children != [] {
      StrippedSize(children[1..], overhead);
      var c, rest := children[0], CleanTrafChildren(children[1..], overhead);
      assert ([CleanTrun(c, overhead)] + rest)[1..] == rest && ([c] + rest)[1..] == rest;
    }
  }

  lemma TrafSize(traf: Atom, overhead: nat, trackId: uint32)
    ensures var children := Parse(traf.data);
            |CleanTraf(traf, overhead, trackId).data| + StrippedBytes(children)
            == |PackAll(children)| + if NeedsTfhd(children, trackId) then 16 else 0
  {
    var children := Parse(traf.data);
    var body := CleanTrafChildren(children, overhead);
    StrippedSize(children, overhead);
    PackAllConcat([PlainTfhd(trackId)], body);
    assert PackAll([PlainTfhd(trackId)]) == Pack(PlainTfhd(trackId)) + [];
    assert [] + body == body;
  }

  lemma {:induction false} MoofSize(children: seq<Atom>, overhead: nat, trackId: uint32)
    ensures |PackAll(CleanMoofChildren(children, overhead, trackId))| + TotalOverhead(children)
            == PlainSize(children) + Added(children, trackId)
  {
    if children != [] {
      MoofSize(children[1..], overhead, trackId);
      TrafSize(children[0], overhead, trackId);
      assert CleanMoofChildren(children, overhead, trackId)[1..] == CleanMoofChildren(children[1..], overhead, trackId);
    }
  }

  lemma {:induction false} PlainSizeBound(children: seq<Atom>)
    ensures PlainSize(children) <= |PackAll(children)|
  {
    if children != [] {
      PlainSizeBound(children[1..]);
      PackedLength(children[0].data);
    }
  }

  /** Every byte of `data` belongs to a box with a 32-bit header. */
  predicate Tight(data: seq<byte>) {
    |PackAll(Parse(data))| == |data|
  }

  predicate TightFragment(moof: Atom) {
    Tight(moof.data) && forall c <- Parse(moof.data) :: c.atomType == TRAF ==> Tight(c.data)
  }

  lemma {:induction false} TightSize(children: seq<Atom>)
    ensures PlainSize(children) == |PackAll(children)| <==> forall c <- children :: c.atomType == TRAF ==> Tight(c.data)
  {
    if children != [] {
      TightSize(children[1..]);
      PlainSizeBound(children[1..]);
      PackedLength(children[0].data);
    }
  }

  /** Stripping shortens the printed fragment by exactly the overhead if and only if the bytes that printing loses
      (wide headers, stray bytes) are as many as the bytes it adds (made-up `tfhd` boxes). */
  lemma FragmentShrinks(moof: Atom, trackId: uint32)
    ensures var children := Parse(moof.data);
            && PlainSize(children) <= |moof.data|
            && |Pack(CleanMoof(moof, trackId))| + TotalOverhead(children)
               == |Pack(moof)| - (|moof.data| - PlainSize(children)) + Added(children, trackId)
            && (|Pack(CleanMoof(moof, trackId))| == |Pack(moof)| - TotalOverhead(children)
                <==> |moof.data| - PlainSize(children) == Added(children, trackId))
            && (|moof.data| == PlainSize(children) <==> TightFragment(moof))
  {
    var children := Parse(moof.data);
    MoofSize(children, TotalOverhead(children), trackId);
    PlainSizeBound(children);
    PackedLength(moof.data);
    TightSize(children);
  }

  /** The boxes of a `traf` that stay. */
  function TrafKept(children: seq<Atom>): seq<Atom> {
    if children == [] then []
    else if Stripped(children[0].atomType) then TrafKept(children[1..])
    else [children[0]] + TrafKept(children[1..])
  }

  lemma {:induction false} TrafCorrespond(children: seq<Atom>, overhead: nat)
    ensures var kept, cleaned := TrafKept(children), CleanTrafChildren(children, overhead);
            && |cleaned| == |kept|
            && forall i :: 0 <= i < |kept| ==>
                 && !Stripped(kept[i].atomType)
                 && cleaned[i] == if kept[i].atomType == TRUN then CleanTrun(kept[i], overhead) else kept[i]
    decreases |children|
  {
    if children != [] {
      TrafCorrespond(children[1..], overhead);
    }
  }

  /** The boxes that are none of the three tables about encryption. */
  function NoTables(boxes: seq<Atom>): seq<Atom> {
    if boxes == [] then []
    else
      (if boxes[0].atomType in {Code("senc"), Code("saiz"), Code("saio")} then [] else [boxes[0]])
        + NoTables(boxes[1..])
  }

  /** They are the ones that stay, and no table is left. */
  lemma {:induction false} TablesGone(children: seq<Atom>, overhead: nat)
    ensures TrafKept(children) == NoTables(children)
    ensures forall c <- CleanTrafChildren(children, overhead) ::
              c.atomType != Code("senc") && c.atomType != Code("saiz") && c.atomType != Code("saio")
  {
    FragmentNames();
    if children != [] {
      TablesGone(children[1..], overhead);
    }
  }

  /** Where a run that stays is found in the cleaned fragment: the made-up `tfhd`, if there is one, stands before it. */
  function CleanedRun(moof: Atom, trackId: uint32, t: nat, r: nat): nat
    requires t < |Parse(moof.data)|
  {
    r + if NeedsTfhd(Parse(Parse(moof.data)[t].data), trackId) then 1 else 0
  }

  /** A run with a data offset, number `r` of the boxes that stay in track fragment `t`, whose lowered offset fits 32
      bits. */
  predicate MovableRun(moof: Atom, t: nat, r: nat) {
    && t < |Parse(moof.data)| && Parse(moof.data)[t].atomType == TRAF
    && r < |TrafKept(Parse(Parse(moof.data)[t].data))|
    && var trun := TrafKept(Parse(Parse(moof.data)[t].data))[r];
       && trun.atomType == TRUN && |trun.data| >= 12 && HasFlag(U32(trun.data[..4]), DATA_OFFSET)
       && ReadTrun(trun.data).value.dataOffset - TotalOverhead(Parse(moof.data)) >= -0x8000_0000
  }

  /** Conservation: cleaning keeps the sizes of every run, and moves it relative to the end of the fragment by exactly
      the bytes added less the bytes lost; so every run keeps its place if and only if these are as many. */
  lemma OffsetConservation(moof: Atom, trackId: uint32, t: nat, r: nat)
    requires MovableRun(moof, t, r) && |CleanMoof(moof, trackId).data| < 0x1_0000_0000
    ensures var cleaned := CleanMoof(moof, trackId);
            var before := TrafKept(Parse(Parse(moof.data)[t].data))[r];
            var lost, added := |moof.data| - PlainSize(Parse(moof.data)), Added(Parse(moof.data), trackId);
            && t < |Parse(cleaned.data)|
            && CleanedRun(moof, trackId, t, r) < |Parse(Parse(cleaned.data)[t].data)|
            && var after := Parse(Parse(cleaned.data)[t].data)[CleanedRun(moof, trackId, t, r)];
               && after.atomType == TRUN && |after.data| == |before.data|
               && ReadTrun(after.data).value.sizes == ReadTrun(before.data).value.sizes
               && var was := |Pack(moof)| - ReadTrun(before.data).value.dataOffset;
                  var now := |Pack(cleaned)| - ReadTrun(after.data).value.dataOffset;
                  now == was + added - lost && (now == was <==> lost == added)
  {
    hide Parse, Pack, ReadTrun, ShiftTrun, HasFlag, PackAll, TrafKept, CleanTrafChildren, Added, TotalOverhead,
      PlainSize;
    var children := Parse(moof.data);
    var overhead := TotalOverhead(children);
    var traf := children[t];
    var boxes := Parse(traf.data);
    FragmentShrinks(moof, trackId);
    CleanedFragment(moof, trackId, t);
    TrafCorrespond(boxes, overhead);
    ShiftedTrun(TrafKept(boxes)[r].data, overhead);
  }

  /** In a fragment of plain boxes with nothing added, every run keeps its place. */
  lemma PlainConservation(moof: Atom, trackId: uint32, t: nat, r: nat)
    requires MovableRun(moof, t, r) && |moof.data| < 0x1_0000_0000
    requires TightFragment(moof) && Added(Parse(moof.data), trackId) == 0
    ensures var cleaned := CleanMoof(moof, trackId);
            var before := TrafKept(Parse(Parse(moof.data)[t].data))[r];
            && t < |Parse(cleaned.data)| && CleanedRun(moof, trackId, t, r) < |Parse(Parse(cleaned.data)[t].data)|
            && var after := Parse(Parse(cleaned.data)[t].data)[CleanedRun(moof, trackId, t, r)];
               && |after.data| >= 8
               && |Pack(cleaned)| - ReadTrun(after.data).value.dataOffset
                  == |Pack(moof)| - ReadTrun(before.data).value.dataOffset
  {
    hide MovableRun, TightFragment;
    FragmentShrinks(moof, trackId);
    OffsetConservation(moof, trackId, t, r);
    RunIsLong(moof, t, r);
  }

  lemma RunIsLong(moof: Atom, t: nat, r: nat)
    requires MovableRun(moof, t, r)
    ensures |TrafKept(Parse(Parse(moof.data)[t].data))[r].data| >= 12
  {
  }

  /** A track fragment of one run and nothing else. */
  function LoneRun(trun: Atom): Atom {
    Atom(MOOF, PackAll([Atom(TRAF, PackAll([trun]))]))
  }

  /** A fragment on which it fails: the made-up `tfhd` moves the run by 16 bytes. */
  lemma MadeUpTfhdMoves(trun: Atom, trackId: uint32)
    requires trun.atomType == TRUN && |trun.data| == 12 && HasFlag(U32(trun.data[..4]), DATA_OFFSET) && trackId > 0
    ensures var moof := LoneRun(trun);
            var cleaned := CleanMoof(moof, trackId);
            && MovableRun(moof, 0, 0) && TightFragment(moof)
            && |Parse(cleaned.data)| > 0 && |Parse(Parse(cleaned.data)[0].data)| > 1
            && var after := Parse(Parse(cleaned.data)[0].data)[1];
               && after.atomType == TRUN && |after.data| == 12
               && |Pack(cleaned)| - ReadTrun(after.data).value.dataOffset
                  == |Pack(moof)| - ReadTrun(trun.data).value.dataOffset + 16
  {
    hide Parse, Pack, ReadTrun, HasFlag, PackAll, CleanMoof, MovableRun, NeedsTfhd;
    var moof := LoneRun(trun);
    LoneRunParts(trun, trackId);
    FragmentShrinks(moof, trackId);
    OffsetConservation(moof, trackId, 0, 0);
  }

  lemma LoneRunParts(trun: Atom, trackId: uint32)
    requires trun.atomType == TRUN && |trun.data| == 12 && HasFlag(U32(trun.data[..4]), DATA_OFFSET) && trackId > 0
    ensures var moof := LoneRun(trun);
            var traf := Atom(TRAF, PackAll([trun]));
            && Parse(moof.data) == [traf] && Parse(traf.data) == [trun] && TrafKept([trun]) == [trun]
            && MovableRun(moof, 0, 0) && TightFragment(moof)
            && |moof.data| == 28 && PlainSize([traf]) == 28 && Added([traf], trackId) == 16
            && NeedsTfhd([trun], trackId)
            && |CleanMoof(moof, trackId).data| < 0x1_0000_0000
  {
    hide Parse, Pack, HasFlag;
    var traf := Atom(TRAF, PackAll([trun]));
    PackOne(trun);
    PackOne(traf);
    PackedFit([trun]);
    PackedFit([traf]);
    NoOverhead(trun, traf);
    MoofSize([traf], 0, trackId);
    assert !HasTfhd([trun]);
  }

  lemma PackOne(a: Atom)
    ensures |PackAll([a])| == |a.data| + 8
  {
    assert [a][1..] == [];
  }

  lemma NoOverhead(trun: Atom, traf: Atom)
    requires trun.atomType == TRUN && Parse(traf.data) == [trun]
    ensures StrippedBytes([trun]) == 0 && TotalOverhead([traf]) == 0
  {
  }

  lemma {:induction false} PartSize(atoms: seq<Atom>, i: nat)
    requires i < |atoms|
    ensures |atoms[i].data| + 8 <= |PackAll(atoms)|
  {
    if i > 0 {
      PartSize(atoms[1..], i - 1);
    }
  }

  /** The cleaned fragment, and each cleaned track fragment in it, parse into the boxes they were printed from. */
  lemma CleanedFragment(moof: Atom, trackId: uint32, t: nat)
    requires |CleanMoof(moof, trackId).data| < 0x1_0000_0000
    requires t < |Parse(moof.data)| && Parse(moof.data)[t].atomType == TRAF
    ensures var children := Parse(moof.data);
            var overhead := TotalOverhead(children);
            && Parse(CleanMoof(moof, trackId).data) == CleanMoofChildren(children, overhead, trackId)
            && Parse(CleanTraf(children[t], overhead, trackId).data)
               == TrafBoxes(Parse(children[t].data), overhead, trackId)
  {
    var children := Parse(moof.data);
    var cleaned := CleanMoofChildren(children, TotalOverhead(children), trackId);
    PackedFit(cleaned);
    PartSize(cleaned, t);
    PackedFit(TrafBoxes(Parse(children[t].data), TotalOverhead(children), trackId));
  }

  // ----- A second pass -----

  lemma {:induction false} NothingStripped(children: seq<Atom>)
    requires forall c <- children :: !Stripped(c.atomType)
    ensures StrippedBytes(children) == 0 && TrafKept(children) == children
  {
    if children != [] {
      NothingStripped(children[1..]);
    }
  }

  lemma {:induction false} CleanTrafTwice(children: seq<Atom>, overhead: nat)
    ensures CleanTrafChildren(CleanTrafChildren(children, overhead), 0) == CleanTrafChildren(children, overhead)
    ensures forall c <- CleanTrafChildren(children, overhead) :: !Stripped(c.atomType)
    ensures HasTfhd(CleanTrafChildren(children, overhead)) <==> HasTfhd(children)
  {
    if children != [] {
      CleanTrafTwice(children[1..], overhead);
      var c, rest := children[0], CleanTrafChildren(children[1..], overhead);
      ShiftTwice(c.data, overhead);
      assert ([CleanTrun(c, overhead)] + rest)[1..] == rest && ([c] + rest)[1..] == rest;
      assert HasTfhd(children) <==> c.atomType == TFHD || HasTfhd(children[1..]);
    }
  }

  lemma TrafBoxesTwice(children: seq<Atom>, overhead: nat, trackId: uint32)
    ensures TrafBoxes(TrafBoxes(children, overhead, trackId), 0, trackId) == TrafBoxes(children, overhead, trackId)
    ensures StrippedBytes(TrafBoxes(children, overhead, trackId)) == 0
  {
    CleanTrafTwice(children, overhead);
    var body := CleanTrafChildren(children, overhead);
    NothingStripped(body);
    if NeedsTfhd(children, trackId) {
      var tfhd := PlainTfhd(trackId);
      assert ([tfhd] + body)[1..] == body;
      assert ([tfhd] + body)[0] == tfhd;
      assert tfhd in [tfhd] + body;
    } else {
      assert [] + body == body;
    }
  }

  lemma {:induction false} NoOverheadLeft(cleaned: seq<Atom>)
    requires forall i :: 0 <= i < |cleaned| && cleaned[i].atomType == TRAF ==>
               StrippedBytes(Parse(cleaned[i].data)) == 0
    ensures TotalOverhead(cleaned) == 0
  {
    if cleaned != [] {
      NoOverheadLeft(cleaned[1..]);
    }
  }

  /** Cleaning a cleaned fragment changes nothing. */
  lemma FragmentTwice(moof: Atom, trackId: uint32)
    requires |CleanMoof(moof, trackId).data| < 0x1_0000_0000
    ensures CleanMoof(CleanMoof(moof, trackId), trackId) == CleanMoof(moof, trackId)
  {
    var children := Parse(moof.data);
    var overhead := TotalOverhead(children);
    var cleaned := CleanMoofChildren(children, overhead, trackId);
    PackedFit(cleaned);
    forall i | 0 <= i < |cleaned| && cleaned[i].atomType == TRAF
      ensures StrippedBytes(Parse(cleaned[i].data)) == 0 && CleanTraf(cleaned[i], 0, trackId) == cleaned[i]
    {
      CleanedFragment(moof, trackId, i);
      TrafBoxesTwice(Parse(children[i].data), overhead, trackId);
    }
    NoOverheadLeft(cleaned);
    assert CleanMoofChildren(cleaned, 0, trackId) == cleaned;
  }

  // ----- What the decrypter learns -----

  function AfterTfhd(st: State, data: seq<byte>): State {
    if |data| < 8 then st
    else
      var flags := U32(data[..4]);
      var offset := 8 + (if HasFlag(flags, 0x1) then 8 else 0) + FieldSize(flags, 0x2) + FieldSize(flags, 0x8);
      if HasFlag(flags, 0x10) && offset + 4 <= |data| then st.(defaultSampleSize := U32(data[offset..offset + 4]))
      else st
  }

  /** The fields of a track fragment header (ISO/IEC 14496-12, section 8.8.7), the optional ones with their flags. */
  datatype Tfhd = Tfhd(flags: uint32, trackId: uint32, baseOffset: nat, description: uint32, duration: uint32,
                       size: uint32, sampleFlags: uint32)

  function PackTfhd(t: Tfhd): (r: seq<byte>)
    ensures |r| >= 8
  {
    ToBE(t.flags, 4) + ToBE(t.trackId, 4)
    + ((if HasFlag(t.flags, 0x1) then ToBE(t.baseOffset, 8) else [])
       + (Field(t.flags, 0x2, t.description)
          + (Field(t.flags, 0x8, t.duration) + (Field(t.flags, 0x10, t.size) + Field(t.flags, 0x20, t.sampleFlags)))))
  }

  /** Reading a written `tfhd`, whichever of its optional fields it has, gives its track identifier and its default
      sample size back; without that field the size learned before stays. */
  lemma TfhdRoundTrip(st: State, t: Tfhd, back: seq<byte>)
    ensures var data := PackTfhd(t) + back;
            && |data| >= 8 && U32(data[4..8]) == t.trackId
            && AfterTfhd(st, data) == if HasFlag(t.flags, 0x10) then st.(defaultSampleSize := t.size) else st
  {
    hide HasFlag, ToBE, FromBE, PackTfhd;
    var data := PackTfhd(t) + back;
    TfhdParts(t, back);
    Pow256Values();
    FromBEToBEFits(t.flags, 4);
    FromBEToBEFits(t.trackId, 4);
    FromBEToBEFits(t.size, 4);
  }

  lemma Regrouped<T>(head: seq<T>, base: seq<T>, a: seq<T>, b: seq<T>, c: seq<T>, rest: seq<T>, back: seq<T>)
    ensures head + (base + (a + (b + (c + rest)))) + back == (head + base + a + b) + c + (rest + back)
  {
    AppendAssoc(b, c, rest);
    AppendAssoc(a, b + c, rest);
    AppendAssoc(a, b, c);
    AppendAssoc(base, a + b + c, rest);
    AppendAssoc(head, base + (a + b + c), rest);
    AppendAssoc(head + (base + (a + b + c)), rest, back);
    assert head + (base + (a + b + c)) == head + base + a + b + c;
  }

  /** Where the fields stand. */
  lemma TfhdParts(t: Tfhd, back: seq<byte>)
    ensures var data := PackTfhd(t) + back;
            var offset := 8 + (if HasFlag(t.flags, 0x1) then 8 else 0) + FieldSize(t.flags, 0x2)
                          + FieldSize(t.flags, 0x8);
            && |data| >= 8 && data[..4] == ToBE(t.flags, 4) && data[4..8] == ToBE(t.trackId, 4)
            && (HasFlag(t.flags, 0x10) ==> offset + 4 <= |data| && data[offset..offset + 4] == ToBE(t.size, 4))
  {
    hide HasFlag, ToBE;
    var head := ToBE(t.flags, 4) + ToBE(t.trackId, 4);
    var base := if HasFlag(t.flags, 0x1) then ToBE(t.baseOffset, 8) else [];
    var a, b, c := Field(t.flags, 0x2, t.description), Field(t.flags, 0x8, t.duration), Field(t.flags, 0x10, t.size);
    var rest := Field(t.flags, 0x20, t.sampleFlags);
    Regrouped(head, base, a, b, c, rest, back);
    var front := head + base + a + b;
    HoldsInside(front, c, rest + back);
    HoldsMeans(front + c + (rest + back), |front|, c);
    var data := PackTfhd(t) + back;
    assert data[..8] == head && data[..4] == head[..4] && data[4..8] == head[4..8];
  }

  lemma {:induction false} HeaderKept(children: seq<Atom>, overhead: nat)
    ensures FirstOf(TFHD, CleanTrafChildren(children, overhead)) == FirstOf(TFHD, children)
    ensures HasTfhd(children) <==> FirstOf(TFHD, children).Some?
  {
    if children != [] {
      HeaderKept(children[1..], overhead);
      var c, rest := children[0], CleanTrafChildren(children[1..], overhead);
      assert ([c] + rest)[1..] == rest && ([CleanTrun(c, overhead)] + rest)[1..] == rest;
      assert children == [c] + children[1..];
    }
  }

  /** A cleaned track fragment has its own header, or if it has none a written one, without optional fields, for the
      current track, or no header if no track is current. */
  lemma TrafHeader(children: seq<Atom>, overhead: nat, trackId: uint32)
    ensures FirstOf(TFHD, TrafBoxes(children, overhead, trackId))
            == if FirstOf(TFHD, children).Some? then FirstOf(TFHD, children)
               else if trackId != 0 then Some(Atom(TFHD, PackTfhd(Tfhd(0, trackId, 0, 0, 0, 0, 0))))
               else None
  {
    HeaderKept(children, overhead);
    var boxes := TrafBoxes(children, overhead, trackId);
    if NeedsTfhd(children, trackId) {
      assert boxes[0] == PlainTfhd(trackId);
      BareTfhd(trackId);
    } else {
      assert boxes == CleanTrafChildren(children, overhead);
    }
  }

  lemma BareTfhd(trackId: uint32)
    ensures PackTfhd(Tfhd(0, trackId, 0, 0, 0, 0, 0)) == [0, 0, 0, 0] + ToBE(trackId, 4)
  {
    assert ToBE(0, 4) == [0, 0, 0, 0];
  }

  /** A walk over the boxes of one `traf`. */
  datatype TrafScan = TrafScan(st: State, trackId: uint32, dataOffset: int32, sampleInfo: seq<SampleInfo>,
                               defaultSize: uint32)

  function ScanBox(scan: TrafScan, c: Atom): TrafScan {
    if c.atomType == TFHD then
      var st := AfterTfhd(scan.st, c.data);
      scan.(st := st, defaultSize := st.defaultSampleSize,
            trackId := if |c.data| >= 8 then U32(c.data[4..8]) else scan.trackId)
    else if c.atomType == TRUN then
      match ReadTrun(c.data)
      case None => scan.(dataOffset := 0)
      case Some(run) => scan.(st := scan.st.(trunSampleSizes := run.sizes), dataOffset := run.dataOffset)
    else if c.atomType == SENC then
      scan.(sampleInfo := ReadSenc(c.data, VectorSource(scan.st)))
    else
      scan
  }

  function ScanTraf(scan: TrafScan, children: seq<Atom>): TrafScan
    decreases |children|
  {
    if children == [] then scan else ScanTraf(ScanBox(scan, children[0]), children[1..])
  }

  function TrackOf(scan: TrafScan): TrackInfo {
    var st := scan.st;
    var known := scan.trackId in st.trackSettings;
    TrackInfo(
      scan.dataOffset, st.trunSampleSizes, scan.sampleInfo, KeyForTrack(st, scan.trackId), scan.defaultSize,
      if known then st.trackSettings[scan.trackId].crypt else st.crypt,
      if known then st.trackSettings[scan.trackId].skip else st.skip,
      if known then st.trackSettings[scan.trackId].constantIv else st.constantIv)
  }

  function AfterTraf(st: State, children: seq<Atom>): State {
    var scan := ScanTraf(TrafScan(st, 0, 0, [], 0), children);
    scan.st.(trackInfos := scan.st.trackInfos + [TrackOf(scan)], currentSampleInfo := scan.sampleInfo)
  }

  function AfterMoofChildren(st: State, children: seq<Atom>): State
    decreases |children|
  {
    if children == [] then st
    else AfterMoofChildren(if children[0].atomType == TRAF then AfterTraf(st, Parse(children[0].data)) else st,
                           children[1..])
  }

  /** Processing a fragment goes through: no listing on the way aborts. */
  predicate ReadableMoof(moof: Atom) {
    Lists(moof.data) && forall c <- Parse(moof.data) :: c.atomType == TRAF ==> Lists(c.data)
  }

  function AfterMoof(st: State, moof: Atom): State {
    var children := Parse(moof.data);
    AfterMoofChildren(st.(trackInfos := [], totalOverhead := TotalOverhead(children)), children)
  }

  /** Only the last readable `trun` of a track fragment leaves its sizes behind. */
  lemma {:induction false} LastRunWins(scan: TrafScan, children: seq<Atom>, k: nat)
    requires k < |children| && children[k].atomType == TRUN && ReadTrun(children[k].data).Some?
    requires forall i :: k < i < |children| && children[i].atomType == TRUN ==> ReadTrun(children[i].data).None?
    ensures ScanTraf(scan, children).st.trunSampleSizes == ReadTrun(children[k].data).value.sizes
    decreases |children|
  {
    var next := ScanBox(scan, children[0]);
    if k > 0 {
      LastRunWins(next, children[1..], k - 1);
    } else {
      forall i | 0 <= i < |children[1..]| && children[1..][i].atomType == TRUN
        ensures ReadTrun(children[1..][i].data).None?
      {
        assert children[1..][i] == children[i + 1];
      }
      SizesStay(next, children[1..]);
    }
  }

  lemma {:induction false} SizesStay(scan: TrafScan, children: seq<Atom>)
    requires forall i :: 0 <= i < |children| && children[i].atomType == TRUN ==> ReadTrun(children[i].data).None?
    ensures ScanTraf(scan, children).st.trunSampleSizes == scan.st.trunSampleSizes
    decreases |children|
  {
    if children != [] {
      SizesStay(ScanBox(scan, children[0]), children[1..]);
    }
  }

  /** A fragment yields one track per track fragment, and nothing of the tracks before it stays. */
  lemma {:induction false} OneTrackPerTraf(st: State, children: seq<Atom>)
    ensures var after := AfterMoofChildren(st, children);
            && |after.trackInfos| == |st.trackInfos| + TrafCount(children)
            && after.trackInfos[..|st.trackInfos|] == st.trackInfos
            && after.currentTrackId == st.currentTrackId && after.totalOverhead == st.totalOverhead
            && after.keyMap == st.keyMap
            && after.currentSampleInfo
               == if TrafCount(children) == 0 then st.currentSampleInfo
                  else after.trackInfos[|after.trackInfos| - 1].sampleInfo
    decreases |children|
  {
    if children != [] {
      if children[0].atomType == TRAF {
        ScanKeeps(TrafScan(st, 0, 0, [], 0), Parse(children[0].data));
        OneTrackPerTraf(AfterTraf(st, Parse(children[0].data)), children[1..]);
      } else {
        OneTrackPerTraf(st, children[1..]);
      }
    }
  }

  /** What a whole fragment leaves behind: its own tracks and no others, and the overhead by which the index is then
      lowered. That is what the printed fragment has lost, if and only if printing loses as much as it adds. */
  lemma FragmentLearned(st: State, moof: Atom)
    ensures var after := AfterMoof(st, moof);
            && |after.trackInfos| == TrafCount(Parse(moof.data))
            && after.keyMap == st.keyMap && after.currentTrackId == st.currentTrackId
            && (after.trackInfos != [] ==>
                  after.currentSampleInfo == after.trackInfos[|after.trackInfos| - 1].sampleInfo)
            && (|Pack(CleanMoof(moof, st.currentTrackId))| == |Pack(moof)| - after.totalOverhead
                <==> |moof.data| - PlainSize(Parse(moof.data)) == Added(Parse(moof.data), st.currentTrackId))
  {
    hide Parse, Pack, CleanMoof, PlainSize, Added, AfterMoofChildren, TotalOverhead, TrafCount;
    var children := Parse(moof.data);
    OneTrackPerTraf(st.(trackInfos := [], totalOverhead := TotalOverhead(children)), children);
    FragmentShrinks(moof, st.currentTrackId);
  }

  function TrafCount(children: seq<Atom>): nat {
    if children == [] then 0 else (if children[0].atomType == TRAF then 1 else 0) + TrafCount(children[1..])
  }

  lemma {:induction false} ScanKeeps(scan: TrafScan, children: seq<Atom>)
    ensures var after := ScanTraf(scan, children).st;
            && after.trackInfos == scan.st.trackInfos && after.currentTrackId == scan.st.currentTrackId
            && after.totalOverhead == scan.st.totalOverhead && after.keyMap == scan.st.keyMap
    decreases |children|
  {
    if children != [] {
      ScanKeeps(ScanBox(scan, children[0]), children[1..]);
    }
  }

  // ----- Runs and tracks -----

  /** The run a track fragment with a single readable `trun` describes. */
  function SoleRun(boxes: seq<Atom>): (run: Option<TrunRead>) {
    if boxes == [] then None
    else if boxes[0].atomType == TRUN then if HasRun(boxes[1..]) then None else ReadTrun(boxes[0].data)
    else SoleRun(boxes[1..])
  }

  predicate HasRun(boxes: seq<Atom>) {
    exists c <- boxes :: c.atomType == TRUN
  }

  /** The runs of a fragment, one for each track fragment; `None` if some track fragment has not exactly one readable
      run. */
  function SoleRuns(children: seq<Atom>): Option<seq<TrunRead>> {
    if children == [] then Some([])
    else
      var rest := SoleRuns(children[1..]);
      if children[0].atomType != TRAF then rest
      else
        var run := SoleRun(Parse(children[0].data));
        if run == None || rest == None then None else Some([run.value] + rest.value)
  }

  lemma {:induction false} ScanSoleRun(scan: TrafScan, boxes: seq<Atom>)
    requires SoleRun(boxes).Some?
    ensures ScanTraf(scan, boxes).dataOffset == SoleRun(boxes).value.dataOffset
    ensures ScanTraf(scan, boxes).st.trunSampleSizes == SoleRun(boxes).value.sizes
    decreases |boxes|
  {
    hide ReadTrun, ReadSenc, AfterTfhd, VectorSource;
    var next := ScanBox(scan, boxes[0]);
    if boxes[0].atomType == TRUN {
      ScanNoRun(next, boxes[1..]);
    } else {
      ScanSoleRun(next, boxes[1..]);
    }
  }

  lemma {:induction false} ScanNoRun(scan: TrafScan, boxes: seq<Atom>)
    requires !HasRun(boxes)
    ensures ScanTraf(scan, boxes).dataOffset == scan.dataOffset
    ensures ScanTraf(scan, boxes).st.trunSampleSizes == scan.st.trunSampleSizes
    decreases |boxes|
  {
    hide ReadTrun, ReadSenc, VectorSource;
    if boxes != [] {
      assert boxes[0] in boxes && forall c <- boxes[1..] :: c in boxes;
      ScanNoRun(ScanBox(scan, boxes[0]), boxes[1..]);
    }
  }

  /** Only the last `trun` places the samples; if it cannot be read the offset is 0. */
  lemma {:induction false} LastRunPlaces(scan: TrafScan, boxes: seq<Atom>, k: nat)
    requires k < |boxes| && boxes[k].atomType == TRUN && !HasRun(boxes[k + 1..])
    ensures ScanTraf(scan, boxes).dataOffset
            == match ReadTrun(boxes[k].data)
               case None => 0
               case Some(run) => run.dataOffset
    decreases |boxes|
  {
    hide ReadTrun, ReadSenc, AfterTfhd, VectorSource, HasRun;
    var next := ScanBox(scan, boxes[0]);
    if k > 0 {
      assert boxes[1..][k..] == boxes[k + 1..];
      LastRunPlaces(next, boxes[1..], k - 1);
    } else {
      ScanNoRun(next, boxes[1..]);
    }
  }

  /** With one run in each track fragment, each track has the offset and the sizes of its run, in order. */
  lemma {:induction false} TracksAreRuns(st: State, children: seq<Atom>)
    requires SoleRuns(children).Some?
    ensures var tracks := AfterMoofChildren(st, children).trackInfos;
            var runs, n := SoleRuns(children).value, |st.trackInfos|;
            && |tracks| == n + |runs| && tracks[..n] == st.trackInfos
            && forall k :: 0 <= k < |runs| ==>
                 tracks[n + k].dataOffset == runs[k].dataOffset && tracks[n + k].sampleSizes == runs[k].sizes
    decreases |children|
  {
    hide ScanTraf, SoleRun, Parse;
    if children != [] {
      if children[0].atomType == TRAF {
        var boxes := Parse(children[0].data);
        var scan := TrafScan(st, 0, 0, [], 0);
        ScanSoleRun(scan, boxes);
        ScanKeeps(scan, boxes);
        var next := AfterTraf(st, boxes);
        TracksAreRuns(next, children[1..]);
        var n, tracks, runs := |st.trackInfos|, AfterMoofChildren(st, children).trackInfos, SoleRuns(children).value;
        assert tracks[..n + 1][n] == tracks[n] && tracks[..n + 1][..n] == tracks[..n];
        forall k | 0 <= k < |runs|
          ensures tracks[n + k].dataOffset == runs[k].dataOffset && tracks[n + k].sampleSizes == runs[k].sizes
        {
          if k > 0 {
            assert tracks[n + 1 + (k - 1)].dataOffset == SoleRuns(children[1..]).value[k - 1].dataOffset;
          }
        }
      } else {
        TracksAreRuns(st, children[1..]);
      }
    }
  }
}
