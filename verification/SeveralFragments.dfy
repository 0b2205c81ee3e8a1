/** What the batch form does with a buffer that holds several boxes of a kind it processes
    (src/drm/cenc.rs:119-142). */
module SeveralFragments {
  import opened Bytes
  import opened Mp4Atom
  import opened Cipher
  import opened DecrypterState
  import opened InitSegment
  import opened Fragment
  import opened MediaData
  import opened Decrypter
  import opened Streaming
  import opened Refinement

  /** The kinds of boxes that are processed rather than copied. */
  predicate Special(t: Fourcc) {
    t == MOOV || t == MOOF || t == SIDX || t == MDAT
  }

  /** The state in which fragments are cleaned, and the one in which media data is decrypted. */
  function AfterFirstMoov(st: State, atoms: seq<Atom>): State {
    var moov := FirstOf(MOOV, atoms);
    if moov.Some? then AfterBox(0, st, moov.value) else st
  }

  function AfterFirstMoof(st: State, atoms: seq<Atom>): State {
    var moof := FirstOf(MOOF, atoms);
    if moof.Some? then AfterMoof(AfterFirstMoov(st, atoms), moof.value) else AfterFirstMoov(st, atoms)
  }

  /** What processing makes of one box itself. Media data that cannot be decrypted stays. */
  function Own(aes: Aes, st: State, atoms: seq<Atom>, a: Atom): Atom {
    if a.atomType == MOOV then CleanBox(0, a)
    else if a.atomType == MOOF then CleanMoof(a, AfterFirstMoov(st, atoms).currentTrackId)
    else if a.atomType == SIDX then ShiftedSidx(a, AfterFirstMoof(st, atoms).totalOverhead)
    else if a.atomType == MDAT then
      match DecryptedMdat(aes, AfterFirstMoof(st, atoms), a.data)
      case None => a
      case Some(data) => Atom(MDAT, data)
    else a
  }

  /** The first box of the kind of `a`, for kinds that are processed. */
  function Leader(atoms: seq<Atom>, a: Atom): Atom {
    var first := FirstOf(a.atomType, atoms);
    if Special(a.atomType) && first.Some? then first.value else a
  }

  /** Every box is printed as the processed form of the first of its kind. */
  lemma ReplacedByLeader(aes: Aes, st: State, atoms: seq<Atom>, a: Atom)
    requires InOrder(aes, st, atoms).Some? && a in atoms
    ensures Replacement(InOrder(aes, st, atoms).value, a) == Own(aes, st, atoms, Leader(atoms, a))
  {
    hide FirstOf, AfterBox, CleanBox, AfterMoof, CleanMoof, ReadableBox, ReadableMoof, DecryptedMdat, ShiftedSidx;
    FirstOfType(a.atomType, atoms);
  }

  /** So every box comes out as its own processed form if and only if the boxes of each processed kind have the form of
      the first of them. */
  lemma EachBoxItself(aes: Aes, st: State, atoms: seq<Atom>)
    requires InOrder(aes, st, atoms).Some?
    ensures (forall a <- atoms :: Replacement(InOrder(aes, st, atoms).value, a) == Own(aes, st, atoms, a))
            <==> forall a <- atoms :: Own(aes, st, atoms, a) == Own(aes, st, atoms, Leader(atoms, a))
    ensures AtMostOnce(atoms) ==>
              forall a <- atoms :: Replacement(InOrder(aes, st, atoms).value, a) == Own(aes, st, atoms, a)
  {
    hide Own, Replacement, InOrder, Leader;
    forall a <- atoms
      ensures Replacement(InOrder(aes, st, atoms).value, a) == Own(aes, st, atoms, Leader(atoms, a))
    {
      ReplacedByLeader(aes, st, atoms, a);
    }
    if AtMostOnce(atoms) {
      forall a <- atoms ensures Leader(atoms, a) == a {
        LeadsItself(atoms, a);
      }
    }
  }

  /** No processed kind occurs twice. */
  predicate AtMostOnce(atoms: seq<Atom>) {
    forall i, j :: 0 <= i < j < |atoms| && Special(atoms[i].atomType) ==> atoms[i].atomType != atoms[j].atomType
  }

  lemma LeadsItself(atoms: seq<Atom>, a: Atom)
    requires AtMostOnce(atoms) && a in atoms
    ensures Leader(atoms, a) == a
  {
    hide FirstOf;
    FirstOfType(a.atomType, atoms);
    var i :| 0 <= i < |atoms| && atoms[i] == a;
    if Special(a.atomType) && FirstOf(a.atomType, atoms).Some? {
      var j :| 0 <= j < |atoms| && atoms[j] == FirstOf(a.atomType, atoms).value;
      assert i == j;
    }
  }

  // ----- Later boxes are lost -----

  /** Two buffers that differ only in processed boxes which are not the first of their kind. */
  predicate SameLeaders(atoms: seq<Atom>, others: seq<Atom>) {
    && |atoms| == |others|
    && (forall i :: 0 <= i < |atoms| ==> atoms[i].atomType == others[i].atomType)
    && (forall i :: 0 <= i < |atoms| && !Special(atoms[i].atomType) ==> atoms[i] == others[i])
    && (forall t: Fourcc :: Special(t) ==> FirstOf(t, atoms) == FirstOf(t, others))
  }

  lemma {:induction false} SamePrinted(p: Processed, includeInit: bool, atoms: seq<Atom>, others: seq<Atom>)
    requires |atoms| == |others|
    requires forall i :: 0 <= i < |atoms| ==>
               atoms[i].atomType == others[i].atomType && Replacement(p, atoms[i]) == Replacement(p, others[i])
    ensures Printed(p, includeInit, atoms) == Printed(p, includeInit, others)
    decreases |atoms|
  {
    hide Replacement;
    if atoms != [] {
      SamePrinted(p, includeInit, atoms[1..], others[1..]);
    }
  }

  /** Nothing of a later fragment, its media data or a later index reaches the output. */
  lemma LaterFragmentsLost(aes: Aes, st: State, s: seq<byte>, t: seq<byte>, includeInit: bool)
    requires Lists(s) && Lists(t) && SameLeaders(Parse(s), Parse(t))
    ensures Batch(aes, st, s, includeInit) == Batch(aes, st, t, includeInit)
  {
    hide FirstOf, Printed, Parse, Lists, AfterBox, CleanBox, AfterMoof, CleanMoof, ReadableBox, ReadableMoof,
      DecryptedMdat, ShiftedSidx;
    var atoms, others := Parse(s), Parse(t);
    assert Special(MOOV) && Special(MOOF) && Special(SIDX) && Special(MDAT);
    assert InOrder(aes, st, atoms) == InOrder(aes, st, others);
    if InOrder(aes, st, atoms).Some? {
      var p := InOrder(aes, st, atoms).value;
      forall i | 0 <= i < |atoms| ensures Replacement(p, atoms[i]) == Replacement(p, others[i]) {
        if Special(atoms[i].atomType) {
          FirstOfType(atoms[i].atomType, atoms);
          assert atoms[i] in atoms;
        }
      }
      SamePrinted(p, includeInit, atoms, others);
    }
  }

  // ----- Two fragments -----

  /** Two fragments with their media data, one behind the other. */
  function TwoFragments(moof: Atom, mdat: Atom, moof2: Atom, mdat2: Atom): seq<byte> {
    PackAll([moof, mdat, moof2, mdat2])
  }

  lemma TwoListed(moof: Atom, mdat: Atom, moof2: Atom, mdat2: Atom)
    requires AllFit([moof, mdat, moof2, mdat2])
    ensures Listing(TwoFragments(moof, mdat, moof2, mdat2)) == Some([moof, mdat, moof2, mdat2])
  {
    ListedBack([moof, mdat, moof2, mdat2]);
  }

  /** What both forms make of one fragment and its media data in a given state. */
  function FragmentBytes(aes: Aes, st: State, moof: Atom, mdat: Atom): Option<seq<byte>> {
    if !ReadableMoof(moof) then None
    else
      match DecryptedMdat(aes, AfterMoof(st, moof), mdat.data)
      case None => None
      case Some(data) => Some(Pack(CleanMoof(moof, st.currentTrackId)) + Pack(Atom(MDAT, data)))
  }

  /** The batch form prints the first fragment twice, where the stream sends each fragment's own processed form. */
  lemma SecondFragmentLost(aes: Aes, st: State, moof: Atom, mdat: Atom, moof2: Atom, mdat2: Atom, includeInit: bool)
    requires moof.atomType == MOOF == moof2.atomType && mdat.atomType == MDAT == mdat2.atomType
    requires AllFit([moof, mdat, moof2, mdat2])
    ensures var first := FragmentBytes(aes, st, moof, mdat);
            && Batch(aes, st, TwoFragments(moof, mdat, moof2, mdat2), includeInit)
               == (if first == None then None else Some(first.value + first.value))
            && (first.Some? ==>
                  var second := FragmentBytes(aes, AfterMoof(st, moof), moof2, mdat2);
                  var o := StreamAll(aes, st, TwoFragments(moof, mdat, moof2, mdat2));
                  if second == None then o.Aborted? else !o.Aborted? && o.out == first.value + second.value)
  {
    hide Parse, Lists, Pack, AfterMoof, CleanMoof, ReadableMoof, DecryptedMdat, FirstOf, StreamAll, Fold, Printed,
      Emit, PackAll;
    var atoms := [moof, mdat, moof2, mdat2];
    TwoListed(moof, mdat, moof2, mdat2);
    FirstOfNone(MOOV, atoms);
    FirstOfNone(SIDX, atoms);
    FirstOfAt(MOOF, atoms, 0);
    FirstOfAt(MDAT, atoms, 1);
    if InOrder(aes, st, atoms).Some? {
      PrintedTwice(InOrder(aes, st, atoms).value, includeInit, atoms);
    }
    if FragmentBytes(aes, st, moof, mdat).Some? {
      FoldFragment(aes, st, moof, mdat, [moof2, mdat2]);
      FoldFragment(aes, AfterMoof(st, moof), moof2, mdat2, []);
      assert [moof, mdat] + [moof2, mdat2] == atoms && [moof2, mdat2] + [] == [moof2, mdat2];
      NothingFolded(aes, AfterMoof(AfterMoof(st, moof), moof2));
      WholeFold(aes, st, TwoFragments(moof, mdat, moof2, mdat2), atoms);
    }
  }

  lemma PrintedTwice(p: Processed, includeInit: bool, atoms: seq<Atom>)
    requires |atoms| == 4 && p.moof.Some? && p.mdat.Some?
    requires forall i :: 0 <= i < 4 ==> atoms[i].atomType == if i % 2 == 0 then MOOF else MDAT
    ensures var first := Pack(p.moof.value) + Pack(p.mdat.value); Printed(p, includeInit, atoms) == first + first
  {
    hide Pack, Printed;
    var x, y := Pack(p.moof.value), Pack(p.mdat.value);
    forall i | 0 <= i < 4 ensures Printed(p, includeInit, [atoms[i]]) == if i % 2 == 0 then x else y {
      PrintOne(p, includeInit, atoms[i]);
    }
    assert atoms == [atoms[0]] + ([atoms[1]] + ([atoms[2]] + [atoms[3]]));
    PrintedConcat(p, includeInit, [atoms[2]], [atoms[3]]);
    PrintedConcat(p, includeInit, [atoms[1]], [atoms[2]] + [atoms[3]]);
    PrintedConcat(p, includeInit, [atoms[0]], [atoms[1]] + ([atoms[2]] + [atoms[3]]));
    AppendAssoc(x, y, x + y);
  }

  lemma FoldFragment(aes: Aes, st: State, moof: Atom, mdat: Atom, rest: seq<Atom>)
    requires moof.atomType == MOOF && mdat.atomType == MDAT
    ensures var bytes, later := FragmentBytes(aes, st, moof, mdat), Fold(aes, AfterMoof(st, moof), rest);
            Fold(aes, st, [moof, mdat] + rest)
            == if bytes == None || later == None then None else Some((later.value.0, bytes.value + later.value.1))
  {
    hide Pack, AfterMoof, CleanMoof, ReadableMoof, DecryptedMdat, Fold;
    assert [moof, mdat] + rest == [moof] + ([mdat] + rest);
    FoldStep(aes, st, moof, [mdat] + rest);
    FoldStep(aes, AfterMoof(st, moof), mdat, rest);
    var bytes, later := FragmentBytes(aes, st, moof, mdat), Fold(aes, AfterMoof(st, moof), rest);
    if bytes.Some? && later.Some? {
      AppendAssoc(Pack(CleanMoof(moof, st.currentTrackId)),
                  Pack(Atom(MDAT, DecryptedMdat(aes, AfterMoof(st, moof), mdat.data).value)), later.value.1);
    }
  }

  lemma NothingFolded(aes: Aes, st: State)
    ensures Fold(aes, st, []) == Some((st, [])) && forall bytes: seq<byte> :: bytes + [] == bytes
  {
  }

  /** Printed boxes are streamed as a fold over them. */
  lemma WholeFold(aes: Aes, st: State, s: seq<byte>, boxes: seq<Atom>)
    requires AllFit(boxes) && s == PackAll(boxes)
    ensures match Fold(aes, st, boxes)
            case None => StreamAll(aes, st, s).Aborted?
            case Some((st', out)) => StreamAll(aes, st, s) == Running(st', out, [])
  {
    hide Fold, StreamAll, Parse;
    RoundTrip(boxes);
    PrintedIsWhole(boxes);
    WholeAlone(aes, st, s);
  }

  lemma {:induction false} PrintedIsWhole(boxes: seq<Atom>)
    requires AllFit(boxes)
    ensures WholeBoxes(PackAll(boxes))
  {
    hide Pack;
    if boxes != [] {
      var a, rest := boxes[0], boxes[1..];
      assert forall i :: 0 <= i < |rest| ==> rest[i] == boxes[i + 1];
      PackHeader(a, PackAll(rest));
      ReadPacked(a, PackAll(rest));
      PrintedIsWhole(rest);
    }
  }
}
