/** The streaming form and the batch form agree on an ordinary segment (src/drm/cenc.rs:119-170 and 1193-1375). */
module Refinement {
  import opened Bytes
  import opened Mp4Atom
  import opened Cipher
  import opened DecrypterState
  import opened InitSegment
  import opened Fragment
  import opened MediaData
  import opened Decrypter
  import opened Streaming

  // ----- Listing the boxes of two buffers in a row -----

  /** The buffer is nothing but complete boxes, none of which claims to reach to the end of the file. */
  predicate WholeBoxes(s: seq<byte>)
    decreases |s|
  {
    s == [] || (ReadFirst(s).Box? && U32(s[..4]) != 0 && WholeBoxes(s[ReadFirst(s).used..]))
  }

  lemma {:induction false} ParseConcat(s: seq<byte>, t: seq<byte>)
    requires WholeBoxes(s)
    ensures Parse(s + t) == Parse(s) + Parse(t)
    decreases |s|
  {
    if s == [] {
      assert s + t == t;
      assert Parse(s) == [];
      assert [] + Parse(t) == Parse(t);
    } else {
      ReadMore(s, t);
      var r := ReadFirst(s);
      assert (s + t)[r.used..] == s[r.used..] + t;
      ParseConcat(s[r.used..], t);
      AppendAssoc([r.atom], Parse(s[r.used..]), Parse(t));
    }
  }

  /** Listing both goes through exactly when it does on the first and, from its end on, on the second. */
  lemma {:induction false} ListableConcat(s: seq<byte>, t: seq<byte>, pos: nat)
    requires WholeBoxes(s)
    ensures Listable(s + t, pos) <==> Listable(s, pos) && Listable(t, pos + |s|)
    decreases |s|
  {
    hide Wraps;
    if s == [] {
      assert s + t == t;
      NothingWraps(s, pos);
    } else {
      ReadMore(s, t);
      WrapsMore(s, t, pos);
      var r := ReadFirst(s);
      assert (s + t)[r.used..] == s[r.used..] + t;
      ListableConcat(s[r.used..], t, pos + r.used);
    }
  }

  lemma NothingWraps(s: seq<byte>, pos: nat)
    requires s == []
    ensures !Wraps(s, pos)
  {
  }

  lemma WrapsMore(s: seq<byte>, t: seq<byte>, pos: nat)
    requires ReadFirst(s).Box?
    ensures Wraps(s + t, pos) <==> Wraps(s, pos)
  {
    assert (s + t)[..4] == s[..4];
    if U32(s[..4]) == 1 {
      assert (s + t)[8..16] == s[8..16];
    }
  }

  // ----- First boxes -----

  lemma {:induction false} FirstOfAt(t: Fourcc, atoms: seq<Atom>, i: nat)
    requires i < |atoms| && atoms[i].atomType == t
    requires forall k :: 0 <= k < i ==> atoms[k].atomType != t
    ensures FirstOf(t, atoms) == Some(atoms[i])
  {
    if i > 0 {
      FirstOfAt(t, atoms[1..], i - 1);
    }
  }

  lemma {:induction false} FirstOfNone(t: Fourcc, atoms: seq<Atom>)
    requires forall a <- atoms :: a.atomType != t
    ensures FirstOf(t, atoms) == None
  {
    if atoms != [] {
      FirstOfNone(t, atoms[1..]);
    }
  }

  lemma {:induction false} OnlyMoov(st: State, atoms: seq<Atom>, m: nat)
    requires m < |atoms| && atoms[m].atomType == MOOV
    requires forall k :: 0 <= k < |atoms| && k != m ==> atoms[k].atomType != MOOV
    ensures AfterAllMoovs(st, atoms) == AfterBox(0, st, atoms[m])
    decreases |atoms|
  {
    if m > 0 {
      OnlyMoov(st, atoms[1..], m - 1);
    } else {
      NoMoov(AfterBox(0, st, atoms[0]), atoms[1..]);
    }
  }

  lemma {:induction false} NoMoov(st: State, atoms: seq<Atom>)
    requires forall k :: 0 <= k < |atoms| ==> atoms[k].atomType != MOOV
    ensures AfterAllMoovs(st, atoms) == st
    decreases |atoms|
  {
    if atoms != [] {
      NoMoov(st, atoms[1..]);
    }
  }

  // ----- Printing and folding in parts -----

  lemma {:induction false} PrintedConcat(p: Processed, includeInit: bool, a: seq<Atom>, b: seq<Atom>)
    ensures Printed(p, includeInit, a + b) == Printed(p, includeInit, a) + Printed(p, includeInit, b)
  {
    if a == [] {
      assert a + b == b;
    } else {
      assert (a + b)[1..] == a[1..] + b;
      PrintedConcat(p, includeInit, a[1..], b);
      AppendAssoc(Pack(Replacement(p, a[0])), Printed(p, includeInit, a[1..]), Printed(p, includeInit, b));
    }
  }

  /** Boxes that both forms copy. */
  predicate Plain(t: Fourcc) {
    t != FTYP && t != MOOV && t != MOOF && t != MDAT && t != SIDX
  }

  lemma {:induction false} FoldPlain(aes: Aes, st: State, boxes: seq<Atom>, p: Processed, includeInit: bool)
    requires forall a <- boxes :: Plain(a.atomType)
    ensures Fold(aes, st, boxes) == Some((st, Printed(p, includeInit, boxes)))
    decreases |boxes|
  {
    if boxes != [] {
      FoldPlain(aes, st, boxes[1..], p, includeInit);
    }
  }

  lemma {:induction false} FoldConcat(aes: Aes, st: State, a: seq<Atom>, b: seq<Atom>)
    ensures Fold(aes, st, a + b)
            == match Fold(aes, st, a)
               case None => None
               case Some((st', out)) =>
                 match Fold(aes, st', b)
                 case None => None
                 case Some((st'', rest)) => Some((st'', out + rest))
    decreases |a|
  {
    hide Emit;
    if a == [] {
      assert a + b == b;
      var f := Fold(aes, st, b);
      if f.Some? {
        assert [] + f.value.1 == f.value.1;
      }
    } else {
      assert (a + b)[0] == a[0] && (a + b)[1..] == a[1..] + b;
      var e := Emit(aes, st, a[0]);
      if e.Some? {
        FoldConcat(aes, e.value.0, a[1..], b);
        var f := Fold(aes, e.value.0, a[1..]);
        if f.Some? {
          var g := Fold(aes, f.value.0, b);
          if g.Some? {
            AppendAssoc(e.value.1, f.value.1, g.value.1);
          }
        }
      }
    }
  }

  /** One fragment and its media data, in between boxes that are copied. */
  lemma FoldSegment(aes: Aes, st: State, a: seq<Atom>, moof: Atom, b: seq<Atom>, mdat: Atom, c: seq<Atom>, p: Processed,
                    includeInit: bool)
    requires moof.atomType == MOOF && mdat.atomType == MDAT
    requires forall x <- a + b + c :: Plain(x.atomType)
    requires p.moof == Some(CleanMoof(moof, st.currentTrackId)) && ReadableMoof(moof)
    requires var media := DecryptedMdat(aes, AfterMoof(st, moof), mdat.data);
             media.Some? ==> p.mdat == Some(Atom(MDAT, media.value))
    ensures var boxes := a + ([moof] + (b + ([mdat] + c)));
            match DecryptedMdat(aes, AfterMoof(st, moof), mdat.data)
            case None => Fold(aes, st, boxes) == None
            case Some(_) => Fold(aes, st, boxes) == Some((AfterMoof(st, moof), Printed(p, includeInit, boxes)))
  {
    hide DecryptedMdat, AfterMoof, CleanMoof, ReadableMoof;
    var st2 := AfterMoof(st, moof);
    forall x <- a ensures Plain(x.atomType) { assert x in a + b + c; }
    forall x <- b ensures Plain(x.atomType) { assert x in a + b + c; }
    forall x <- c ensures Plain(x.atomType) { assert x in a + b + c; }
    FoldPlain(aes, st, a, p, includeInit);
    FoldPlain(aes, st2, b, p, includeInit);
    FoldPlain(aes, st2, c, p, includeInit);
    FoldOne(aes, st, moof);
    FoldOne(aes, st2, mdat);
    PrintOne(p, includeInit, moof);
    PrintOne(p, includeInit, mdat);
    FoldConcat(aes, st2, [mdat], c);
    PrintedConcat(p, includeInit, [mdat], c);
    FoldConcat(aes, st2, b, [mdat] + c);
    PrintedConcat(p, includeInit, b, [mdat] + c);
    FoldConcat(aes, st, [moof], b + ([mdat] + c));
    PrintedConcat(p, includeInit, [moof], b + ([mdat] + c));
    FoldConcat(aes, st, a, [moof] + (b + ([mdat] + c)));
    PrintedConcat(p, includeInit, a, [moof] + (b + ([mdat] + c)));
  }

  lemma FoldOne(aes: Aes, st: State, box: Atom)
    ensures Fold(aes, st, [box]) == Emit(aes, st, box)
  {
    hide Emit;
    assert [box][1..] == [];
    var e := Emit(aes, st, box);
    if e.Some? {
      assert e.value.1 + [] == e.value.1;
    }
  }

  lemma PrintOne(p: Processed, includeInit: bool, a: Atom)
    requires a.atomType != FTYP && a.atomType != MOOV
    ensures Printed(p, includeInit, [a]) == Pack(Replacement(p, a))
  {
    assert [a][1..] == [];
    assert Pack(Replacement(p, a)) + [] == Pack(Replacement(p, a));
  }

  /** An initialization segment prints the same alone and in front of a segment. */
  lemma {:induction false} PrintedInit(p: Processed, atoms: seq<Atom>)
    requires forall a <- atoms :: a.atomType == FTYP || a.atomType == MOOV
    ensures Printed(p, true, atoms) == Printed(Processed(p.moov, None, None, None), true, atoms)
    ensures Printed(p, false, atoms) == []
  {
    if atoms != [] {
      PrintedInit(p, atoms[1..]);
    }
  }

  // ----- Ordinary input -----

  /** An initialization segment of whole boxes: `ftyp` boxes and one `moov`, number `m`. */
  predicate OrdinaryInit(init: seq<byte>, m: nat) {
    var boxes := Parse(init);
    && WholeBoxes(init) && m < |boxes| && boxes[m].atomType == MOOV
    && forall k :: 0 <= k < |boxes| && k != m ==> boxes[k].atomType == FTYP
  }

  /** A segment in which the parser finds one fragment, number `i`, before one media data box, number `j`; the rest is
      copied. */
  predicate OrdinarySegment(segment: seq<byte>, i: nat, j: nat) {
    var boxes := Parse(segment);
    && i < j < |boxes| && boxes[i].atomType == MOOF && boxes[j].atomType == MDAT
    && forall k :: 0 <= k < |boxes| && k != i && k != j ==> Plain(boxes[k].atomType)
  }

  lemma FirstBoxes(initBoxes: seq<Atom>, boxes: seq<Atom>, m: nat, i: nat, j: nat)
    requires m < |initBoxes| && initBoxes[m].atomType == MOOV
    requires forall k :: 0 <= k < |initBoxes| && k != m ==> initBoxes[k].atomType == FTYP
    requires i < j < |boxes| && boxes[i].atomType == MOOF && boxes[j].atomType == MDAT
    requires forall k :: 0 <= k < |boxes| && k != i && k != j ==> Plain(boxes[k].atomType)
    ensures var all := initBoxes + boxes;
            && FirstOf(MOOV, all) == Some(initBoxes[m]) && FirstOf(MOOF, all) == Some(boxes[i])
            && FirstOf(MDAT, all) == Some(boxes[j]) && FirstOf(SIDX, all) == None
            && FirstOf(MOOV, initBoxes) == Some(initBoxes[m])
  {
    var all := initBoxes + boxes;
    var n := |initBoxes|;
    hide FirstOf;
    FirstOfAt(MOOV, initBoxes, m);
    FirstOfAt(MOOV, all, m);
    forall k | 0 <= k < n + j ensures all[k].atomType != MDAT && (k < n + i ==> all[k].atomType != MOOF) {
      assert k >= n ==> all[k] == boxes[k - n];
    }
    FirstOfAt(MOOF, all, n + i);
    FirstOfAt(MDAT, all, n + j);
    forall a <- all ensures a.atomType != SIDX {
      var k :| 0 <= k < |all| && all[k] == a;
      if k >= n {
        assert all[k] == boxes[k - n];
      }
    }
    FirstOfNone(SIDX, all);
  }

  lemma SplitSegment(boxes: seq<Atom>, i: nat, j: nat)
    requires i < j < |boxes|
    ensures boxes == boxes[..i] + ([boxes[i]] + (boxes[i + 1..j] + ([boxes[j]] + boxes[j + 1..])))
  {
  }

  /** Everything the streaming form sends, joined; `None` if it aborts. */
  function StreamedWhole(aes: Aes, keyMap: map<seq<byte>, Key>, init: seq<byte>, segment: seq<byte>,
                         includeInit: bool): Option<seq<byte>>
  {
    var primed := Primed(keyMap, init, includeInit);
    if primed.None? then None
    else
      var o := StreamAll(aes, primed.value.0, segment);
      if o.Aborted? then None else Some(primed.value.1 + o.out)
  }

  /** What a fold over the segment's boxes sends in all, behind what priming sent. */
  function Folded(aes: Aes, primed: Option<(State, seq<byte>)>, boxes: seq<Atom>): Option<seq<byte>> {
    if primed == None then None
    else
      var folded := Fold(aes, primed.value.0, boxes);
      if folded == None then None else Some(primed.value.1 + folded.value.1)
  }

  /** What the batch form computes when listing the joined buffer goes through: a fold over the segment's boxes. */
  lemma BatchIsFold(aes: Aes, keyMap: map<seq<byte>, Key>, init: seq<byte>, segment: seq<byte>, includeInit: bool,
                    m: nat, i: nat, j: nat)
    requires OrdinaryInit(init, m) && OrdinarySegment(segment, i, j) && Lists(init + segment)
    ensures Batch(aes, Fresh(keyMap), init + segment, includeInit)
            == Folded(aes, Primed(keyMap, init, includeInit), Parse(segment))
  {
    hide DecryptedMdat, AfterMoof, CleanMoof, AfterBox, CleanBox, Fold, Printed, WholeBoxes, Parse, Listable,
      ReadableBox, ReadableMoof;
    var initBoxes, boxes := Parse(init), Parse(segment);
    ParseConcat(init, segment);
    ListableConcat(init, segment, 0);
    FirstBoxes(initBoxes, boxes, m, i, j);
    OnlyMoov(Fresh(keyMap), initBoxes, m);
    var moov, moof, mdat := initBoxes[m], boxes[i], boxes[j];
    assert ReadableBox(0, moov) <==> forall a <- initBoxes :: a.atomType == MOOV ==> ReadableBox(0, a);
    if ReadableBox(0, moov) {
      var st := AfterBox(0, Fresh(keyMap), moov);
      var media := DecryptedMdat(aes, AfterMoof(st, moof), mdat.data);
      var p := Processed(Some(CleanBox(0, moov)), Some(CleanMoof(moof, st.currentTrackId)), None,
                         if media.Some? then Some(Atom(MDAT, media.value)) else None);
      if ReadableMoof(moof) {
        SegmentParts(aes, st, boxes, i, j, p, includeInit);
        PrintedConcat(p, includeInit, initBoxes, boxes);
        PrintedInit(p, initBoxes);
      } else {
        UnreadableSegment(aes, st, boxes, i, p, includeInit);
      }
    }
  }

  /** A fragment that cannot be read aborts the fold over the segment. */
  lemma UnreadableSegment(aes: Aes, st: State, boxes: seq<Atom>, i: nat, p: Processed, includeInit: bool)
    requires i < |boxes| && boxes[i].atomType == MOOF && !ReadableMoof(boxes[i])
    requires forall k :: 0 <= k < i ==> Plain(boxes[k].atomType)
    ensures Fold(aes, st, boxes) == None
  {
    hide Printed, ReadableMoof;
    assert boxes == boxes[..i] + boxes[i..];
    forall x <- boxes[..i] ensures Plain(x.atomType) {
    }
    FoldPlain(aes, st, boxes[..i], p, includeInit);
    FoldConcat(aes, st, boxes[..i], boxes[i..]);
    assert boxes[i..][0] == boxes[i];
  }

  // ----- Where the stream reads other boxes than the parser -----

  /** The last box the parser lists claims to reach to the end of the file. */
  predicate EndsEndless(s: seq<byte>)
    decreases |s|
  {
    ReadFirst(s).Box? && (U32(s[..4]) == 0 || EndsEndless(s[ReadFirst(s).used..]))
  }

  lemma BoxReads(s: seq<byte>)
    requires ReadFirst(s).Box?
    ensures U32(s[..4]) == 0 ==> ReadHeader(s).ToEnd? && ReadFirst(s).used == |s| && ReadFirst(s).atom.data == s[8..]
    ensures U32(s[..4]) != 0 ==>
              match ReadHeader(s)
              case Head(headerLen, boxType, bodyLen) =>
                headerLen + bodyLen <= |s|
                && ReadFirst(s) == Box(Atom(boxType, s[headerLen..headerLen + bodyLen]), headerLen + bodyLen)
              case _ => false
  {
  }

  /** One listed box, not to the end of the file, as both readers take it. */
  lemma ListedStep(aes: Aes, st: State, s: seq<byte>)
    requires ReadFirst(s).Box? && U32(s[..4]) != 0
    ensures var r := ReadFirst(s);
            var e, rest := Emit(aes, st, r.atom), s[r.used..];
            && StreamAll(aes, st, s)
               == (if e.None? then Aborted([]) else After(e.value.1, StreamAll(aes, e.value.0, rest)))
            && Parse(s) == [r.atom] + Parse(rest) && Covered(s) == r.used + Covered(rest)
            && SeenBoxes(s).1 == SeenBoxes(rest).1 && EndsEndless(s) == EndsEndless(rest)
            && s[Covered(s)..] == rest[Covered(rest)..]
  {
    hide Emit, ReadHeader, ReadFirst, After;
    BoxReads(s);
    Suffix(s, ReadFirst(s).used, Covered(s[ReadFirst(s).used..]));
  }

  lemma FoldStep(aes: Aes, st: State, box: Atom, rest: seq<Atom>)
    ensures Fold(aes, st, [box] + rest)
            == var e := Emit(aes, st, box);
               if e.None? then None
               else
                 var f := Fold(aes, e.value.0, rest);
                 if f.None? then None else Some((f.value.0, e.value.1 + f.value.1))
  {
    hide Emit;
    assert ([box] + rest)[1..] == rest;
  }

  lemma NoneListed(aes: Aes, st: State, s: seq<byte>)
    requires ReadFirst(s).NoBox?
    ensures Parse(s) == [] && Covered(s) == 0 && s[0..] == s && Fold(aes, st, []) == Some((st, [])) && !EndsEndless(s)
  {
  }

  /** Without such a box the stream first makes of the listed boxes what the fold does, and then goes on behind them. */
  lemma {:induction false} StreamOverListed(aes: Aes, st: State, s: seq<byte>)
    requires !EndsEndless(s)
    ensures match Fold(aes, st, Parse(s))
            case None => StreamAll(aes, st, s).Aborted?
            case Some((st', out)) => StreamAll(aes, st, s) == After(out, StreamAll(aes, st', s[Covered(s)..]))
    ensures SeenBoxes(s).1 == SeenBoxes(s[Covered(s)..]).1
    decreases |s|
  {
    hide Emit, ReadHeader, ReadFirst, After, StreamAll, Parse, SeenBoxes, Covered, Fold, EndsEndless;
    var r := ReadFirst(s);
    if r.NoBox? {
      NoneListed(aes, st, s);
      AfterTwice([], [], StreamAll(aes, st, s));
    } else {
      EndlessMeans(s);
      ListedStep(aes, st, s);
      var rest := s[r.used..];
      FoldStep(aes, st, r.atom, Parse(rest));
      var e := Emit(aes, st, r.atom);
      StreamOverListed(aes, if e.Some? then e.value.0 else st, rest);
      if e.Some? {
        var f := Fold(aes, e.value.0, Parse(rest));
        if f.Some? {
          AfterTwice(e.value.1, f.value.1, StreamAll(aes, f.value.0, s[Covered(s)..]));
        } else {
          AbortsAfter(e.value.1, StreamAll(aes, e.value.0, rest));
        }
      }
    }
  }

  lemma EndlessMeans(s: seq<byte>)
    ensures EndsEndless(s) ==> ReadFirst(s).Box?
    ensures ReadFirst(s).Box? ==> |s| >= 8 && (U32(s[..4]) == 0 ==> EndsEndless(s))
  {
  }

  lemma AbortsAfter(front: seq<byte>, o: Outcome)
    ensures After(front, o).Aborted? == o.Aborted? && After(front, o).PassThrough? == o.PassThrough?
    ensures After(front, o).out == front + o.out
  {
  }

  /** The bytes of a box with size 0. */
  predicate SizelessBox(s: seq<byte>, box: Atom) {
    |s| == |box.data| + 8 && U32(s[..4]) == 0 && U32(s[4..8]) == box.atomType && s[8..] == box.data
  }

  /** With such a box the stream makes of the boxes before it what the fold does, and then sends the rest as it is. */
  lemma {:induction false} StreamEndless(aes: Aes, st: State, s: seq<byte>)
    requires EndsEndless(s)
    ensures SeenBoxes(s).1 && Covered(s) == |s| && Parse(s) != []
    ensures var n := |Parse(s)| - 1;
            var length := |Parse(s)[n].data| + 8;
            && length <= |s| && SizelessBox(s[|s| - length..], Parse(s)[n])
            && match Fold(aes, st, Parse(s)[..n])
               case None => StreamAll(aes, st, s).Aborted?
               case Some((st', out)) => StreamAll(aes, st, s) == PassThrough(st', out + s[|s| - length..])
    decreases |s|
  {
    hide Emit, ReadHeader, ReadFirst, StreamAll, Parse, SeenBoxes, Covered, Fold, EndsEndless, SizelessBox;
    var r := ReadFirst(s);
    EndlessMeans(s);
    if U32(s[..4]) == 0 {
      EndHere(aes, st, s);
    } else {
      ListedStep(aes, st, s);
      var rest := s[r.used..];
      var boxes := Parse(rest);
      var n := |boxes| - 1;
      var e := Emit(aes, st, r.atom);
      StreamEndless(aes, if e.Some? then e.value.0 else st, rest);
      var length := |boxes[n].data| + 8;
      Suffix(s, r.used, |rest| - length);
      assert Parse(s)[..n + 1] == [r.atom] + boxes[..n];
      FoldStep(aes, st, r.atom, boxes[..n]);
      if e.Some? {
        var f := Fold(aes, e.value.0, boxes[..n]);
        if f.Some? {
          AppendAssoc(e.value.1, f.value.1, s[|s| - length..]);
        }
      }
    }
  }

  lemma EndHere(aes: Aes, st: State, s: seq<byte>)
    requires ReadFirst(s).Box? && U32(s[..4]) == 0
    ensures Parse(s) == [ReadFirst(s).atom] && Covered(s) == |s| && SizelessBox(s, ReadFirst(s).atom)
    ensures s[0..] == s && Fold(aes, st, []) == Some((st, [])) && Parse(s)[..0] == [] && [] + s == s
    ensures StreamAll(aes, st, s) == PassThrough(st, s) && SeenBoxes(s).1
  {
    assert s[|s|..] == [];
    assert Parse(s[|s|..]) == [];
  }

  /** The stream meets complete boxes of type `sidx` only, and no box without end. */
  predicate OnlySidx(s: seq<byte>) {
    !SeenBoxes(s).1 && forall b <- SeenBoxes(s).0 :: b.atomType == SIDX
  }

  lemma EmitLength(aes: Aes, st: State, box: Atom)
    ensures box.atomType == SIDX ==> Emit(aes, st, box) == Some((st, []))
    ensures box.atomType != SIDX && Emit(aes, st, box).Some? ==> |Emit(aes, st, box).value.1| >= 8
  {
  }

  /** Exactly then it sends nothing. */
  lemma {:induction false} SilentExactly(aes: Aes, st: State, s: seq<byte>)
    ensures !StreamAll(aes, st, s).Aborted? && StreamAll(aes, st, s).out == [] <==> OnlySidx(s)
    decreases |s|
  {
    hide Emit;
    var h := ReadHeader(s);
    if h.Head? && h.headerLen + h.bodyLen <= |s| {
      var n := h.headerLen + h.bodyLen;
      var box := Atom(h.boxType, s[h.headerLen..n]);
      EmitLength(aes, st, box);
      assert SeenBoxes(s).0[0] == box && SeenBoxes(s).0[1..] == SeenBoxes(s[n..]).0;
      assert SeenBoxes(s).0 == [box] + SeenBoxes(s[n..]).0;
      if box.atomType == SIDX {
        SilentExactly(aes, st, s[n..]);
      }
    }
  }

  /** The listed boxes alone. */
  lemma {:induction false} CoveredPart(s: seq<byte>)
    requires !EndsEndless(s)
    ensures WholeBoxes(s[..Covered(s)]) && Parse(s[..Covered(s)]) == Parse(s)
    decreases |s|
  {
    var r := ReadFirst(s);
    var front := s[..Covered(s)];
    if r.NoBox? {
      assert front == [];
    } else {
      CoveredPart(s[r.used..]);
      FirstAlone(s, Covered(s));
      assert front[r.used..] == s[r.used..][..Covered(s[r.used..])];
    }
  }

  lemma FirstAlone(s: seq<byte>, n: nat)
    requires ReadFirst(s).Box? && U32(s[..4]) != 0 && ReadFirst(s).used <= n <= |s|
    ensures ReadFirst(s[..n]) == ReadFirst(s) && U32(s[..n][..4]) == U32(s[..4])
  {
    var t := s[..n];
    assert t[..4] == s[..4] && t[4..8] == s[4..8];
    if U32(s[..4]) == 1 {
      assert t[8..16] == s[8..16];
    }
  }

  /** The stream sends nothing but what the parser lists: it meets no box without end, and where the parser stops it
      sees no complete box, unless it is a `sidx`, which it drops. */
  predicate SeenAlike(segment: seq<byte>) {
    !SeenBoxes(segment).1 && OnlySidx(segment[Covered(segment)..])
  }

  /** The stream aborts on the boxes that the parser lists. */
  predicate AbortsEarly(aes: Aes, keyMap: map<seq<byte>, Key>, init: seq<byte>, segment: seq<byte>, includeInit: bool) {
    StreamedWhole(aes, keyMap, init, segment[..Covered(segment)], includeInit) == None
  }

  /** Without a box to the end of the file. */
  lemma AgreePlain(aes: Aes, keyMap: map<seq<byte>, Key>, init: seq<byte>, segment: seq<byte>, includeInit: bool,
                   m: nat, i: nat, j: nat)
    requires OrdinaryInit(init, m) && OrdinarySegment(segment, i, j) && !EndsEndless(segment)
    ensures var batch := Batch(aes, Fresh(keyMap), init + segment, includeInit);
            var sent := StreamedWhole(aes, keyMap, init, segment, includeInit);
            if AbortsEarly(aes, keyMap, init, segment, includeInit) then batch == None && sent == None
            else Lists(init + segment) ==> batch.Some? && (batch == sent <==> SeenAlike(segment))
  {
    hide Batch, Primed, Fold, StreamAll, Parse, Lists, SeenBoxes, WholeBoxes, EndsEndless, Covered, OrdinaryInit;
    var primed := Primed(keyMap, init, includeInit);
    if Lists(init + segment) {
      BatchIsFold(aes, keyMap, init, segment, includeInit, m, i, j);
    } else {
      UnlistedBatch(aes, Fresh(keyMap), init + segment, includeInit);
    }
    if primed.Some? {
      var st, first := primed.value.0, primed.value.1;
      var front, tail := segment[..Covered(segment)], segment[Covered(segment)..];
      StreamOverListed(aes, st, segment);
      CoveredPart(segment);
      WholeAlone(aes, st, front);
      var f := Fold(aes, st, Parse(segment));
      if f.Some? {
        SilentExactly(aes, f.value.0, tail);
        var o := StreamAll(aes, f.value.0, tail);
        AppendAssoc(first, f.value.1, o.out);
        assert (first + f.value.1) + o.out == first + f.value.1 <==> o.out == [];
      }
    }
  }

  lemma WholeAlone(aes: Aes, st: State, s: seq<byte>)
    requires WholeBoxes(s)
    ensures match Fold(aes, st, Parse(s))
            case None => StreamAll(aes, st, s).Aborted?
            case Some((st', out)) => StreamAll(aes, st, s) == Running(st', out, [])
  {
    hide Fold, StreamAll, Parse;
    WholeIsGood(s);
    StreamIsFoldOfSeen(aes, st, s);
    WholeIsCovered(s);
    assert s[|s|..] == [];
  }

  lemma {:induction false} WholeIsGood(s: seq<byte>)
    requires WholeBoxes(s)
    ensures GoodHeaders(s) && !EndsEndless(s)
    decreases |s|
  {
    if s != [] {
      BoxReads(s);
      WholeIsGood(s[ReadFirst(s).used..]);
    }
  }

  /** The last box, of size 0, is printed as the bytes it came as: it fills a multiple of 4 GiB, and decryption changes
      nothing if it is the media data. */
  predicate LastAsSent(aes: Aes, st: State, segment: seq<byte>, i: nat, j: nat)
    requires OrdinarySegment(segment, i, j)
  {
    var boxes := Parse(segment);
    var last := boxes[|boxes| - 1];
    WrapsToZero(last) && (j == |boxes| - 1 ==>
                            DecryptedMdat(aes, AfterMoof(st, boxes[i]), last.data) == Some(last.data))
  }

  /** Its own header goes out, where the batch form prints one with the size. */
  lemma EndlessExactly(aes: Aes, st: State, segment: seq<byte>, i: nat, j: nat)
    requires OrdinarySegment(segment, i, j) && EndsEndless(segment)
    ensures var o, f := StreamAll(aes, st, segment), Fold(aes, st, Parse(segment));
            if o.Aborted? then f == None
            else f.Some? && f.value.1 == o.out <==> LastAsSent(aes, st, segment, i, j)
    ensures |segment| < 0x1_0000_0000 ==> !LastAsSent(aes, st, segment, i, j)
  {
    hide Fold, StreamAll, Parse, SeenBoxes, EndsEndless, Covered, Emit, U32, DecryptedMdat, AfterMoof,
      SizelessBox;
    var boxes := Parse(segment);
    var n := |boxes| - 1;
    StreamEndless(aes, st, segment);
    assert boxes == boxes[..n] + [boxes[n]];
    FoldConcat(aes, st, boxes[..n], [boxes[n]]);
    var f := Fold(aes, st, boxes[..n]);
    if f.Some? {
      var rest := segment[|segment| - |boxes[n].data| - 8..];
      FoldOne(aes, f.value.0, boxes[n]);
      LastEmitted(aes, st, segment, i, j, f.value.0);
      OwnBytes(aes, f.value.0, boxes[n], rest);
      var e := Emit(aes, f.value.0, boxes[n]);
      if e.Some? {
        SameFront(f.value.1, e.value.1, rest);
      }
    }
  }

  /** What the last box is, and the state in which it is processed. */
  lemma LastEmitted(aes: Aes, st: State, segment: seq<byte>, i: nat, j: nat, before: State)
    requires OrdinarySegment(segment, i, j)
    requires var boxes := Parse(segment);
             Fold(aes, st, boxes[..|boxes| - 1]).Some? && Fold(aes, st, boxes[..|boxes| - 1]).value.0 == before
    ensures var boxes := Parse(segment);
            if j == |boxes| - 1 then boxes[j].atomType == MDAT && before == AfterMoof(st, boxes[i])
            else Plain(boxes[|boxes| - 1].atomType)
  {
    hide Fold, Parse, Emit, AfterMoof;
    var boxes := Parse(segment);
    if j == |boxes| - 1 {
      var a, moof, b := boxes[..i], boxes[i], boxes[i + 1..j];
      assert boxes[..j] == a + ([moof] + b);
      forall x <- a ensures Plain(x.atomType) {
      }
      forall x <- b ensures Plain(x.atomType) {
      }
      var p := Processed(None, None, None, None);
      FoldPlain(aes, st, a, p, true);
      FoldConcat(aes, st, a, [moof] + b);
      FoldStep(aes, st, moof, b);
      MoofEmitted(aes, st, moof);
      FoldPlain(aes, AfterMoof(st, moof), b, p, true);
    }
  }

  lemma MoofEmitted(aes: Aes, st: State, moof: Atom)
    requires moof.atomType == MOOF
    ensures Emit(aes, st, moof).Some? ==> Emit(aes, st, moof).value.0 == AfterMoof(st, moof)
  {
  }

  /** A processed last box is printed as the bytes with size 0 it came as exactly in that case. */
  lemma OwnBytes(aes: Aes, st: State, box: Atom, rest: seq<byte>)
    requires SizelessBox(rest, box) && (Plain(box.atomType) || box.atomType == MDAT)
    ensures Emit(aes, st, box).Some? && Emit(aes, st, box).value.1 == rest
            <==> WrapsToZero(box) && (box.atomType == MDAT ==> DecryptedMdat(aes, st, box.data) == Some(box.data))
  {
    hide DecryptedMdat, Pack, ReadableMoof;
    if box.atomType == MDAT {
      var media := DecryptedMdat(aes, st, box.data);
      if media.Some? {
        NoLonger(aes, st, box.data);
        PackedAsSizeless(box, media.value, rest);
      }
    } else {
      PackedAsSizeless(box, box.data, rest);
    }
  }

  lemma PackedAsSizeless(box: Atom, data: seq<byte>, rest: seq<byte>)
    requires SizelessBox(rest, box)
    ensures Pack(Atom(box.atomType, data)) == rest <==> data == box.data && WrapsToZero(box)
  {
    hide Pack;
    var a := Atom(box.atomType, data);
    PackHeader(a, []);
    assert Pack(a) + [] == Pack(a);
    if data == box.data && WrapsToZero(box) {
      SizelessHeader(a, rest);
      PackParts(a);
      assert rest == rest[..4] + rest[4..8] + rest[8..];
    } else if data != box.data && |data| == |box.data| {
      assert Pack(a)[8..] == data;
    }
  }

  lemma PackParts(a: Atom)
    ensures Pack(a) == ToBE(|a.data| + 8, 4) + ToBE(a.atomType, 4) + a.data
  {
  }

  lemma SizelessHeader(a: Atom, rest: seq<byte>)
    requires SizelessBox(rest, a) && WrapsToZero(a)
    ensures rest[..4] == ToBE(|a.data| + 8, 4) && rest[4..8] == ToBE(a.atomType, 4)
  {
    hide ToBE, FromBE;
    Pow256Values();
    ToBEFromBE(rest[..4]);
    ToBEFromBE(rest[4..8]);
    ToBEMod(|a.data| + 8, 4);
  }

  /** The segment ends in such a box. */
  predicate PrintedAsSent(aes: Aes, primed: Option<(State, seq<byte>)>, segment: seq<byte>, i: nat, j: nat)
    requires OrdinarySegment(segment, i, j)
  {
    EndsEndless(segment) && primed.Some? && LastAsSent(aes, primed.value.0, segment, i, j)
  }

  lemma AgreeEndless(aes: Aes, keyMap: map<seq<byte>, Key>, init: seq<byte>, segment: seq<byte>, includeInit: bool,
                     m: nat, i: nat, j: nat)
    requires OrdinaryInit(init, m) && OrdinarySegment(segment, i, j) && EndsEndless(segment)
    ensures var batch := Batch(aes, Fresh(keyMap), init + segment, includeInit);
            var sent := StreamedWhole(aes, keyMap, init, segment, includeInit);
            && (AbortsEarly(aes, keyMap, init, segment, includeInit) <==> sent == None)
            && (sent == None ==> batch == None)
            && (sent.Some? && !Lists(init + segment) ==> batch == None)
            && (sent.Some? && Lists(init + segment) ==>
                  (batch == sent <==> PrintedAsSent(aes, Primed(keyMap, init, includeInit), segment, i, j)))
    ensures SeenBoxes(segment).1
    ensures |segment| < 0x1_0000_0000 ==> !PrintedAsSent(aes, Primed(keyMap, init, includeInit), segment, i, j)
  {
    hide Batch, Primed, Fold, StreamAll, Parse, Lists, SeenBoxes, EndsEndless, OrdinaryInit, OrdinarySegment,
      LastAsSent;
    var primed := Primed(keyMap, init, includeInit);
    StreamEndless(aes, Fresh(keyMap), segment);
    assert segment[..|segment|] == segment;
    if Lists(init + segment) {
      BatchIsFold(aes, keyMap, init, segment, includeInit, m, i, j);
    } else {
      UnlistedBatch(aes, Fresh(keyMap), init + segment, includeInit);
    }
    if primed.Some? {
      var st, first := primed.value.0, primed.value.1;
      EndlessExactly(aes, st, segment, i, j);
      var o, f := StreamAll(aes, st, segment), Fold(aes, st, Parse(segment));
      if f.Some? {
        SameFront(first, f.value.1, o.out);
      }
    }
  }

  lemma SameFront(front: seq<byte>, a: seq<byte>, b: seq<byte>)
    ensures front + a == front + b <==> a == b
  {
    assert (front + a)[|front|..] == a && (front + b)[|front|..] == b;
  }

  lemma NoLonger(aes: Aes, st: State, data: seq<byte>)
    requires DecryptedMdat(aes, st, data).Some?
    ensures |DecryptedMdat(aes, st, data).value| <= |data|
  {
    hide InSequence, RunJobs, AllJobs, SequencePos;
    if st.trackInfos == [] && FallbackKey(st.keyMap).Some? && st.currentSampleInfo != [] {
      StartsAtZero(st, |data|);
      InSequenceExactly(aes, st, FallbackKey(st.keyMap).value, data, 0);
    }
  }

  lemma StartsAtZero(st: State, n: nat)
    ensures SequencePos(st, n, 0) == 0
  {
  }

  // ----- The theorem -----

  /** Streaming refines batch: on an ordinary initialization segment and segment both forms send the same bytes, with
      and without the initialization segment, and abort alike, if and only if one of these holds: the stream aborts on
      the boxes the parser lists; listing the joined buffer goes through and the stream sees nothing else to send; or
      the listing aborts and so does the stream. All headers good suffices for the second. In a buffer that fits the
      memory, only an unfinished box at the very end can make the listing abort, by a 64-bit size with which its end
      wraps. A box to the end of the file is printed with its size, which is zero again only for multiples of 4 GiB. */
  lemma StreamingRefinesBatch(aes: Aes, keyMap: map<seq<byte>, Key>, init: seq<byte>, segment: seq<byte>,
                              includeInit: bool, m: nat, i: nat, j: nat)
    requires OrdinaryInit(init, m) && OrdinarySegment(segment, i, j)
    ensures Batch(aes, Fresh(keyMap), init + segment, includeInit)
            == StreamedWhole(aes, keyMap, init, segment, includeInit)
            <==> AbortsEarly(aes, keyMap, init, segment, includeInit)
                 || if Lists(init + segment) then
                      SeenAlike(segment) || PrintedAsSent(aes, Primed(keyMap, init, includeInit), segment, i, j)
                    else StreamedWhole(aes, keyMap, init, segment, includeInit) == None
    ensures |segment| < 0x1_0000_0000 ==> !PrintedAsSent(aes, Primed(keyMap, init, includeInit), segment, i, j)
    ensures GoodHeaders(segment) ==> SeenAlike(segment)
    ensures |init| + |segment| < ADDRESSES ==>
              (Lists(init + segment) <==> !Wraps(segment[Covered(segment)..], |init| + Covered(segment)))
  {
    hide StreamedWhole, Batch, OrdinarySegment, OrdinaryInit, Wraps, Lists, AbortsEarly, SeenAlike, SeenBoxes,
      EndsEndless, LastAsSent, Primed;
    if !Lists(init + segment) {
      UnlistedBatch(aes, Fresh(keyMap), init + segment, includeInit);
    }
    if EndsEndless(segment) {
      AgreeEndless(aes, keyMap, init, segment, includeInit, m, i, j);
      EndlessUnlike(segment);
    } else {
      AgreePlain(aes, keyMap, init, segment, includeInit, m, i, j);
    }
    if GoodHeaders(segment) {
      GoodIsAlike(segment);
    }
    if |init| + |segment| < ADDRESSES {
      OnlyTheEnd(init, segment, m);
    }
  }

  lemma EndlessUnlike(segment: seq<byte>)
    requires SeenBoxes(segment).1
    ensures !SeenAlike(segment)
  {
  }

  lemma {:induction false} TailGood(s: seq<byte>)
    requires GoodHeaders(s)
    ensures GoodHeaders(s[Covered(s)..]) && Parse(s[Covered(s)..]) == []
    decreases |s|
  {
    hide GoodHeader, ReadHeader, ReadFirst;
    GoodHeaderReads(s);
    var r := ReadFirst(s);
    if r.Box? {
      TailGood(s[r.used..]);
      Suffix(s, r.used, Covered(s[r.used..]));
    } else {
      assert s[0..] == s;
    }
  }

  lemma GoodIsAlike(s: seq<byte>)
    requires GoodHeaders(s)
    ensures SeenAlike(s)
  {
    hide GoodHeaders, SeenBoxes, Parse, Covered;
    SeenIsParsed(s);
    TailGood(s);
    SeenIsParsed(s[Covered(s)..]);
  }

  lemma UnlistedBatch(aes: Aes, st: State, combined: seq<byte>, includeInit: bool)
    requires !Lists(combined)
    ensures Batch(aes, st, combined, includeInit) == None
  {
    hide Lists;
  }

  lemma OnlyTheEnd(init: seq<byte>, segment: seq<byte>, m: nat)
    requires OrdinaryInit(init, m) && |init| + |segment| < ADDRESSES
    ensures Lists(init + segment) <==> !Wraps(segment[Covered(segment)..], |init| + Covered(segment))
  {
    hide Wraps, Parse, Listable, WholeBoxes, Covered;
    ListableConcat(init, segment, 0);
    ListableExactly(segment, |init|);
    ListableExactly(init, 0);
    WholeIsCovered(init);
  }

  lemma {:induction false} WholeIsCovered(s: seq<byte>)
    requires WholeBoxes(s)
    ensures Covered(s) == |s| && forall pos: nat :: !Wraps(s[Covered(s)..], pos)
    decreases |s|
  {
    if s != [] {
      WholeIsCovered(s[ReadFirst(s).used..]);
    }
  }

  /** So for every way to cut the segment into chunks, a run that is not disturbed sends what the batch form returns if
      and only if the stream sees nothing else to send, or prints a box to the end of the file as it came. */
  lemma RunRefinesBatch(aes: Aes, keyMap: map<seq<byte>, Key>, init: seq<byte>, items: seq<Item>, includeInit: bool,
                        m: nat, i: nat, j: nat, sent: seq<byte>, end: End)
    requires keyMap != map[] && !AnyBroken(items) && OrdinaryInit(init, m) && OrdinarySegment(Received(items), i, j)
    requires Sends(aes, keyMap, init, items, includeInit, sent, end)
    ensures var batch := Batch(aes, Fresh(keyMap), init + Received(items), includeInit);
            var primed, segment := Primed(keyMap, init, includeInit), Received(items);
            && (batch.Some? ==>
                  (end == Finished && sent == batch.value
                   <==> SeenAlike(segment) || PrintedAsSent(aes, primed, segment, i, j)))
            && (batch.None? && SeenAlike(Received(items)) ==> end == Dead || !Lists(init + Received(items)))
  {
    hide OrdinaryInit, OrdinarySegment, Primed, StreamAll, Batch, Lists, SeenAlike, PrintedAsSent, AbortsEarly;
    var segment := Received(items);
    StreamingRefinesBatch(aes, keyMap, init, segment, includeInit, m, i, j);
    if Batch(aes, Fresh(keyMap), init + segment, includeInit).Some? {
      NotEarly(aes, keyMap, init, segment, includeInit, m, i, j);
    }
  }

  /** Where the batch form returns anything, the listing goes through and the stream gets past the listed boxes. */
  lemma NotEarly(aes: Aes, keyMap: map<seq<byte>, Key>, init: seq<byte>, segment: seq<byte>, includeInit: bool,
                 m: nat, i: nat, j: nat)
    requires OrdinaryInit(init, m) && OrdinarySegment(segment, i, j)
    requires Batch(aes, Fresh(keyMap), init + segment, includeInit).Some?
    ensures Lists(init + segment) && !AbortsEarly(aes, keyMap, init, segment, includeInit)
  {
    hide StreamedWhole, Batch, OrdinarySegment, OrdinaryInit, Lists, AbortsEarly, SeenAlike, EndsEndless;
    if !Lists(init + segment) {
      UnlistedBatch(aes, Fresh(keyMap), init + segment, includeInit);
    }
    if EndsEndless(segment) {
      AgreeEndless(aes, keyMap, init, segment, includeInit, m, i, j);
    } else {
      AgreePlain(aes, keyMap, init, segment, includeInit, m, i, j);
    }
  }

  // ----- Segments on which the two forms differ -----

  /** The first 16 bytes of a `free` box that announces 2^64 - 1 bytes. */
  const WRAPPING: seq<byte> :=
    [0, 0, 0, 1, 0x66, 0x72, 0x65, 0x65, 0xff, 0xff, 0xff, 0xff, 0xff, 0xff, 0xff, 0xff]

  lemma WrappingHeader(pos: nat)
    requires pos > 0
    ensures Wraps(WRAPPING, pos) && !Listable(WRAPPING, pos)
    ensures ReadFirst(WRAPPING).NoBox? && Parse(WRAPPING) == [] && GoodHeaders(WRAPPING)
    ensures forall aes, st :: StreamAll(aes, st, WRAPPING) == Running(st, [], WRAPPING)
  {
    var w := WRAPPING;
    var one, size := w[..4], w[8..16];
    assert one == [0, 0, 0, 1];
    assert U32(one) == 1 by {
      assert one[..3] == [0, 0, 0] && one[..3][..2] == [0, 0] && [0, 0][..1] == [0] && [0][..0] == [];
      assert FromBE(one[..3]) == 0;
    }
    assert U64(size) == ADDRESSES - 1 by {
      AllOnes(size);
    }
  }

  lemma AllOnes(s: seq<byte>)
    requires |s| == 8 && forall k :: 0 <= k < 8 ==> s[k] == 0xff
    ensures FromBE(s) == ADDRESSES - 1
  {
    OnesValue(s);
    Pow256Values();
  }

  lemma {:induction false} OnesValue(s: seq<byte>)
    requires forall k :: 0 <= k < |s| ==> s[k] == 0xff
    ensures FromBE(s) == Pow256(|s|) - 1
  {
    if s != [] {
      OnesValue(s[..|s| - 1]);
    }
  }

  /** Behind any ordinary segment of whole boxes, these 16 bytes leave the segment ordinary and the streaming form's
      output as it was, but make the batch form abort. */
  lemma WrappingTail(aes: Aes, keyMap: map<seq<byte>, Key>, init: seq<byte>, segment: seq<byte>, includeInit: bool,
                     m: nat, i: nat, j: nat)
    requires OrdinaryInit(init, m) && OrdinarySegment(segment, i, j) && WholeBoxes(segment)
    ensures OrdinarySegment(segment + WRAPPING, i, j)
    ensures StreamedWhole(aes, keyMap, init, segment + WRAPPING, includeInit)
            == StreamedWhole(aes, keyMap, init, segment, includeInit)
    ensures Batch(aes, Fresh(keyMap), init + (segment + WRAPPING), includeInit) == None
  {
    hide Parse, StreamAll, Primed, InOrder, Printed, Listable, Wraps, GoodHeaders;
    NotEmpty(init, m);
    WrappingHeader(|init| + |segment|);
    ParseConcat(segment, WRAPPING);
    assert Parse(segment) + [] == Parse(segment);
    WholeIsGood(segment);
    GoodConcat(segment, WRAPPING);
    ListableConcat(init, segment + WRAPPING, 0);
    ListableConcat(segment, WRAPPING, |init|);
    var primed := Primed(keyMap, init, includeInit);
    if primed.Some? {
      WholeStream(aes, primed.value.0, segment, WRAPPING);
      WholeStream(aes, primed.value.0, segment, []);
      assert segment + [] == segment;
      EmptyStream(aes);
    }
  }

  lemma NotEmpty(init: seq<byte>, m: nat)
    requires OrdinaryInit(init, m)
    ensures |init| > 0
  {
    hide WholeBoxes;
    assert init == [] ==> Parse(init) == [];
  }

  lemma EmptyStream(aes: Aes)
    ensures forall st :: StreamAll(aes, st, []) == Running(st, [], [])
  {
  }

  lemma {:induction false} GoodConcat(s: seq<byte>, t: seq<byte>)
    requires WholeBoxes(s) && GoodHeaders(s) && GoodHeaders(t)
    ensures GoodHeaders(s + t)
    decreases |s|
  {
    hide ReadHeader, ReadFirst, GoodHeader;
    if s == [] {
      assert s + t == t;
    } else {
      ReadMore(s, t);
      GoodHeaderReads(s);
      var r := ReadFirst(s);
      HeadStays(s, t);
      assert (s + t)[r.used..] == s[r.used..] + t;
      GoodConcat(s[r.used..], t);
    }
  }

  lemma HeadStays(s: seq<byte>, t: seq<byte>)
    requires GoodHeader(s) && ReadFirst(s).Box?
    ensures GoodHeader(s + t) && ReadHeader(s + t) == ReadHeader(s)
  {
    assert (s + t)[..4] == s[..4] && (s + t)[4..8] == s[4..8];
    if U32(s[..4]) == 1 {
      assert (s + t)[8..16] == s[8..16];
    }
  }

  /** Whole boxes are sent for before what follows them is looked at. */
  lemma WholeStream(aes: Aes, st: State, s: seq<byte>, t: seq<byte>)
    requires WholeBoxes(s) && GoodHeaders(s)
    ensures var o := StreamAll(aes, st, s);
            StreamAll(aes, st, s + t) == if o.Running? then After(o.out, StreamAll(aes, o.st, t)) else o
    ensures !StreamAll(aes, st, s).PassThrough?
  {
    hide Fold, StreamAll, Parse;
    StreamExtends(aes, st, s, t);
    StreamIsFoldOfSeen(aes, st, s);
    WholeIsCovered(s);
    assert s[|s|..] + t == t;
  }

  /** The header of a media data box that reaches to the end of the file. */
  const ENDLESS: seq<byte> := [0, 0, 0, 0, 0x6d, 0x64, 0x61, 0x74]

  const FREE: Fourcc := 0x66726565

  /** The header of a `free` box that is shorter than its header. */
  const STUNTED: seq<byte> := [0, 0, 0, 2, 0x66, 0x72, 0x65, 0x65]

  lemma HeaderValues()
    ensures U32(ENDLESS[..4]) == 0 && U32(ENDLESS[4..8]) == MDAT
    ensures U32(STUNTED[..4]) == 2
  {
    assert ENDLESS[..4] == [0, 0, 0, 0] && ENDLESS[4..8] == [0x6d, 0x64, 0x61, 0x74] && STUNTED[..4] == [0, 0, 0, 2];
    FourDigits(0, 0, 0, 0);
    FourDigits(0x6d, 0x64, 0x61, 0x74);
    FourDigits(0, 0, 0, 2);
  }

  lemma EndlessReads(aes: Aes, st: State, payload: seq<byte>)
    ensures Parse(ENDLESS + payload) == [Atom(MDAT, payload)] && EndsEndless(ENDLESS + payload)
    ensures StreamAll(aes, st, ENDLESS + payload) == PassThrough(st, ENDLESS + payload)
  {
    var s := ENDLESS + payload;
    HeaderValues();
    assert s[..4] == ENDLESS[..4] && s[4..8] == ENDLESS[4..8] && s[8..] == payload;
    assert ReadFirst(s) == Box(Atom(MDAT, payload), |s|);
    EndHere(aes, st, s);
  }

  /** A fragment whose media data box reaches to the end of the file goes out still encrypted, where the batch form
      decrypts it: behind whole boxes with one fragment the segment is ordinary, the stream sends header and payload as
      they are, and the two forms differ. */
  lemma EndlessMdat(aes: Aes, keyMap: map<seq<byte>, Key>, init: seq<byte>, front: seq<byte>, payload: seq<byte>,
                    includeInit: bool, m: nat, i: nat)
    requires OrdinaryInit(init, m) && WholeBoxes(front)
    requires i < |Parse(front)| && Parse(front)[i].atomType == MOOF
    requires forall k :: 0 <= k < |Parse(front)| && k != i ==> Plain(Parse(front)[k].atomType)
    ensures var segment, sent := front + (ENDLESS + payload), StreamedWhole(aes, keyMap, init, front, includeInit);
            && OrdinarySegment(segment, i, |Parse(front)|) && Parse(segment)[|Parse(front)|] == Atom(MDAT, payload)
            && StreamedWhole(aes, keyMap, init, segment, includeInit)
               == (if sent == None then None else Some(sent.value + (ENDLESS + payload)))
            && (sent.Some? && |segment| < 0x1_0000_0000 ==>
                  Batch(aes, Fresh(keyMap), init + segment, includeInit) != Some(sent.value + (ENDLESS + payload)))
  {
    hide Parse, StreamAll, Primed, Batch, GoodHeaders, OrdinaryInit, EndsEndless, WholeBoxes;
    var segment := front + (ENDLESS + payload);
    ParseConcat(front, ENDLESS + payload);
    EndlessReads(aes, Fresh(keyMap), payload);
    EndlessConcat(front, ENDLESS + payload);
    AgreeEndless(aes, keyMap, init, segment, includeInit, m, i, |Parse(front)|);
    var primed := Primed(keyMap, init, includeInit);
    if primed.Some? {
      var st, first := primed.value.0, primed.value.1;
      WholeIsGood(front);
      WholeStream(aes, st, front, ENDLESS + payload);
      var o := StreamAll(aes, st, front);
      if !o.Aborted? {
        EndlessReads(aes, o.st, payload);
        AppendAssoc(first, o.out, ENDLESS + payload);
      }
    }
  }

  lemma {:induction false} EndlessConcat(s: seq<byte>, t: seq<byte>)
    requires WholeBoxes(s) && EndsEndless(t)
    ensures EndsEndless(s + t)
    decreases |s|
  {
    if s == [] {
      assert s + t == t;
    } else {
      ReadMore(s, t);
      assert (s + t)[ReadFirst(s).used..] == s[ReadFirst(s).used..] + t;
      EndlessConcat(s[ReadFirst(s).used..], t);
    }
  }

  /** Eight bytes at which the parser stops, and which the stream takes for an empty box: behind an ordinary segment of
      whole boxes it sends eight bytes more than the batch form. */
  lemma StuntedTail(aes: Aes, keyMap: map<seq<byte>, Key>, init: seq<byte>, segment: seq<byte>, includeInit: bool,
                    m: nat, i: nat, j: nat)
    requires OrdinaryInit(init, m) && OrdinarySegment(segment, i, j) && WholeBoxes(segment)
    ensures var sent := StreamedWhole(aes, keyMap, init, segment, includeInit);
            && OrdinarySegment(segment + STUNTED, i, j) && !SeenAlike(segment + STUNTED)
            && StreamedWhole(aes, keyMap, init, segment + STUNTED, includeInit)
               == (if sent == None then None else Some(sent.value + Pack(Atom(FREE, []))))
  {
    hide Parse, StreamAll, Primed, GoodHeaders, OrdinaryInit, WholeBoxes, Pack, SeenBoxes;
    StuntedReads(aes, Fresh(keyMap));
    ParseConcat(segment, STUNTED);
    assert Parse(segment) + [] == Parse(segment);
    WholeIsGood(segment);
    WholeAhead(segment, STUNTED);
    var primed := Primed(keyMap, init, includeInit);
    if primed.Some? {
      var st, first := primed.value.0, primed.value.1;
      WholeStream(aes, st, segment, STUNTED);
      var o := StreamAll(aes, st, segment);
      if !o.Aborted? {
        StuntedReads(aes, o.st);
        AppendAssoc(first, o.out, Pack(Atom(FREE, [])));
      }
    }
  }

  lemma StuntedReads(aes: Aes, st: State)
    ensures Parse(STUNTED) == [] && Covered(STUNTED) == 0 && SeenBoxes(STUNTED) == ([Atom(FREE, [])], false)
    ensures StreamAll(aes, st, STUNTED) == Running(st, Pack(Atom(FREE, [])), [])
  {
    hide Pack;
    HeaderValues();
    assert STUNTED[4..8] == [0x66, 0x72, 0x65, 0x65];
    FourDigits(0x66, 0x72, 0x65, 0x65);
    assert ReadHeader(STUNTED) == Head(8, FREE, 0);
    assert STUNTED[8..8] == [] && STUNTED[8..] == [];
    assert Emit(aes, st, Atom(FREE, [])) == Some((st, Pack(Atom(FREE, []))));
    assert StreamAll(aes, st, []) == Running(st, [], []);
    assert Pack(Atom(FREE, [])) + [] == Pack(Atom(FREE, []));
    assert SeenBoxes([]) == ([], false);
    assert [Atom(FREE, [])] + [] == [Atom(FREE, [])];
  }

  lemma {:induction false} WholeAhead(s: seq<byte>, t: seq<byte>)
    requires WholeBoxes(s)
    ensures Covered(s + t) == |s| + Covered(t) && (s + t)[Covered(s + t)..] == t[Covered(t)..]
    decreases |s|
  {
    if s == [] {
      assert s + t == t;
    } else {
      ReadMore(s, t);
      assert (s + t)[ReadFirst(s).used..] == s[ReadFirst(s).used..] + t;
      WholeAhead(s[ReadFirst(s).used..], t);
    }
  }

  lemma SegmentParts(aes: Aes, st: State, boxes: seq<Atom>, i: nat, j: nat, p: Processed, includeInit: bool)
    requires i < j < |boxes| && boxes[i].atomType == MOOF && boxes[j].atomType == MDAT
    requires forall k :: 0 <= k < |boxes| && k != i && k != j ==> Plain(boxes[k].atomType)
    requires p.moof == Some(CleanMoof(boxes[i], st.currentTrackId)) && ReadableMoof(boxes[i])
    requires var media := DecryptedMdat(aes, AfterMoof(st, boxes[i]), boxes[j].data);
             media.Some? ==> p.mdat == Some(Atom(MDAT, media.value))
    ensures match DecryptedMdat(aes, AfterMoof(st, boxes[i]), boxes[j].data)
            case None => Fold(aes, st, boxes) == None
            case Some(_) => Fold(aes, st, boxes) == Some((AfterMoof(st, boxes[i]), Printed(p, includeInit, boxes)))
  {
    hide DecryptedMdat, AfterMoof, CleanMoof, Fold, Printed, ReadableMoof;
    SplitSegment(boxes, i, j);
    forall x <- boxes[..i] + boxes[i + 1..j] + boxes[j + 1..] ensures Plain(x.atomType) {
    }
    FoldSegment(aes, st, boxes[..i], boxes[i], boxes[i + 1..j], boxes[j], boxes[j + 1..], p, includeInit);
  }
}
