/** Cleaning an initialization segment and learning the encryption settings (src/drm/cenc.rs:147-402). */
module InitSegment {
  import opened Bytes
  import opened Mp4Atom
  import opened Samples
  import opened DecrypterState

  // ----- Cleaning -----

  /** Size of the fixed fields in front of a sample entry's child boxes. */
  function FixedSize(t: Fourcc): nat {
    if t == 0x6d703461 || t == 0x656e6361 then 28 // mp4a, enca
    // mp4v, encv, avc1, hev1, hvc1
    else if t == 0x6d703476 || t == 0x656e6376 || t == 0x61766331 || t == 0x68657631 || t == 0x68766331 then 78
    else 16
  }

  predicate Protection(t: Fourcc) {
    t == SINF || t == SCHI || t == TENC || t == SCHM
  }

  function Unprotected(children: seq<Atom>): (r: seq<Atom>)
    ensures forall c <- r :: c in children && !Protection(c.atomType)
  {
    if children == [] then []
    else if Protection(children[0].atomType) then Unprotected(children[1..])
    else [children[0]] + Unprotected(children[1..])
  }

  /** The codec named by the last usable `frma` of a `sinf`, or `found` so far. */
  function FrmaCodec(children: seq<Atom>, found: Option<Fourcc>): Option<Fourcc> {
    if children == [] then found
    else
      var c := children[0];
      FrmaCodec(children[1..], if c.atomType == FRMA && |c.data| >= 4 then Some(U32(c.data[..4])) else found)
  }

  /** The codec of the last `sinf` decides, even when it names none. */
  function EntryCodec(children: seq<Atom>, found: Option<Fourcc>): Option<Fourcc> {
    if children == [] then found
    else
      var codec := if children[0].atomType == SINF then FrmaCodec(Parse(children[0].data), None) else found;
      EntryCodec(children[1..], codec)
  }

  /** The last usable `frma` names the codec. */
  lemma {:induction false} CodecOfSinf(children: seq<Atom>, found: Option<Fourcc>, k: nat)
    requires forall i :: k <= i < |children| && children[i].atomType == FRMA ==> |children[i].data| < 4
    requires 0 < k <= |children| ==> children[k - 1].atomType == FRMA && |children[k - 1].data| >= 4
    requires k <= |children|
    ensures FrmaCodec(children, found) == if k == 0 then found else Some(U32(children[k - 1].data[..4]))
  {
    if children != [] {
      var c, rest := children[0], children[1..];
      assert forall i :: 0 <= i < |rest| ==> rest[i] == children[i + 1];
      CodecOfSinf(rest, if c.atomType == FRMA && |c.data| >= 4 then Some(U32(c.data[..4])) else found,
                  if k == 0 then 0 else k - 1);
    }
  }

  /** The last `sinf` decides, even when it names no codec. */
  lemma {:induction false} CodecOfEntry(children: seq<Atom>, found: Option<Fourcc>, k: nat)
    requires k <= |children| && forall i :: k <= i < |children| ==> children[i].atomType != SINF
    requires k > 0 ==> children[k - 1].atomType == SINF
    ensures EntryCodec(children, found) == if k == 0 then found else FrmaCodec(Parse(children[k - 1].data), None)
  {
    hide FrmaCodec, Parse;
    if children != [] {
      var c, rest := children[0], children[1..];
      assert forall i :: 0 <= i < |rest| ==> rest[i] == children[i + 1];
      CodecOfEntry(rest, if c.atomType == SINF then FrmaCodec(Parse(c.data), None) else found,
                   if k == 0 then 0 else k - 1);
    }
  }

  function CleanEntry(entry: Atom): Atom {
    var fixed := FixedSize(entry.atomType);
    if |entry.data| < fixed then entry
    else
      var children := Parse(entry.data[fixed..]);
      var codec := EntryCodec(children, None);
      Atom(if codec.Some? then codec.value else entry.atomType, entry.data[..fixed] + PackAll(Unprotected(children)))
  }

  function CleanEntries(entries: seq<Atom>): (r: seq<Atom>)
    ensures |r| == |entries|
    ensures forall i :: 0 <= i < |r| ==> r[i] == CleanEntry(entries[i])
  {
    if entries == [] then [] else [CleanEntry(entries[0])] + CleanEntries(entries[1..])
  }

  /** The sample entries a `stsd` payload is read as: at most as many as it announces. */
  function StsdEntries(data: seq<byte>): (r: seq<Atom>)
    requires |data| >= 8
  {
    var entries := Parse(data[8..]);
    entries[..Min(U32(data[4..8]), |entries|)]
  }

  /** Entries behind the announced number are not looked at. */
  lemma AnnouncedEntries(front: seq<byte>, n: uint32, entries: seq<Atom>)
    requires |front| == 4 && Printable(entries)
    ensures StsdEntries(front + ToBE(n, 4) + PackAll(entries)) == if n < |entries| then entries[..n] else entries
  {
    hide PackAll, Parse, ToBE;
    var data := front + ToBE(n, 4) + PackAll(entries);
    assert data[4..8] == ToBE(n, 4) && data[8..] == PackAll(entries);
    Pow256Values();
    FromBEToBEFits(n, 4);
    RoundTrip(entries);
    assert entries[..|entries|] == entries;
  }

  function CleanStsd(stsd: Atom): Atom {
    if |stsd.data| < 8 then stsd
    else Atom(STSD, stsd.data[..8] + PackAll(CleanEntries(StsdEntries(stsd.data))))
  }

  /** The nesting from `moov` down to `stsd`. */
  const PATH := [MOOV, TRAK, MDIA, MINF, STBL, STSD]

  /** A box at depth `level` of that path, cleaned. */
  function CleanBox(level: nat, a: Atom): Atom
    requires level <= 5
    decreases 5 - level, 0, 0
  {
    if level == 5 then CleanStsd(a) else Atom(PATH[level], PackAll(CleanChildren(level, Parse(a.data))))
  }

  /** Its children: the next box of the path is cleaned, a `pssh` directly in `moov` goes, the rest stays. */
  function CleanChildren(level: nat, children: seq<Atom>): seq<Atom>
    requires level < 5
    decreases 5 - level - 1, 1, |children|
  {
    if children == [] then []
    else
      var c, rest := children[0], CleanChildren(level, children[1..]);
      if c.atomType == PATH[level + 1] then [CleanBox(level + 1, c)] + rest
      else if level == 0 && c.atomType == PSSH then rest
      else [c] + rest
  }

  // ----- What cleaning guarantees -----

  /** The boxes of a container that cleaning keeps. */
  function Kept(level: nat, children: seq<Atom>): seq<Atom> {
    if children == [] then []
    else if level == 0 && children[0].atomType == PSSH then Kept(level, children[1..])
    else [children[0]] + Kept(level, children[1..])
  }

  /** Cleaning keeps order and content: each kept box comes out as itself, or cleaned if it is on the path. */
  lemma {:induction false} ChildrenCorrespond(level: nat, children: seq<Atom>)
    requires level < 5
    ensures var kept, cleaned := Kept(level, children), CleanChildren(level, children);
            && |cleaned| == |kept|
            && forall i :: 0 <= i < |kept| ==>
                 cleaned[i] == if kept[i].atomType == PATH[level + 1] then CleanBox(level + 1, kept[i]) else kept[i]
    decreases |children|
  {
    if children != [] {
      ChildrenCorrespond(level, children[1..]);
    }
  }

  lemma {:induction false} UnprotectedShrinks(children: seq<Atom>)
    ensures |PackAll(Unprotected(children))| <= |PackAll(children)|
  {
    if children != [] {
      UnprotectedShrinks(children[1..]);
      assert ([children[0]] + Unprotected(children[1..]))[1..] == Unprotected(children[1..]);
    }
  }

  lemma EntryShrinks(entry: Atom)
    ensures |CleanEntry(entry).data| <= |entry.data|
  {
    var fixed := FixedSize(entry.atomType);
    if |entry.data| >= fixed {
      UnprotectedShrinks(Parse(entry.data[fixed..]));
      PackedLength(entry.data[fixed..]);
    }
  }

  lemma {:induction false} EntriesShrink(entries: seq<Atom>)
    ensures |PackAll(CleanEntries(entries))| <= |PackAll(entries)|
  {
    if entries != [] {
      EntriesShrink(entries[1..]);
      EntryShrinks(entries[0]);
      assert CleanEntries(entries)[1..] == CleanEntries(entries[1..]);
    }
  }

  lemma StsdShrinks(stsd: Atom)
    ensures |CleanStsd(stsd).data| <= |stsd.data|
  {
    hide Parse, PackAll, CleanEntries;
    if |stsd.data| >= 8 {
      var entries := Parse(stsd.data[8..]);
      var used := StsdEntries(stsd.data);
      EntriesShrink(used);
      PackedLength(stsd.data[8..]);
      assert entries == used + entries[|used|..];
      PackAllConcat(used, entries[|used|..]);
    }
  }

  /** Cleaning never makes a box longer. */
  lemma {:induction false} BoxShrinks(level: nat, a: Atom)
    requires level <= 5
    ensures |CleanBox(level, a).data| <= |a.data|
    decreases 5 - level, 0, 0
  {
    if level == 5 {
      StsdShrinks(a);
    } else {
      ChildrenShrink(level, Parse(a.data));
      PackedLength(a.data);
    }
  }

  lemma {:induction false} ChildrenShrink(level: nat, children: seq<Atom>)
    requires level < 5
    ensures |PackAll(CleanChildren(level, children))| <= |PackAll(children)|
    decreases 5 - level - 1, 1, |children|
  {
    hide CleanBox, Pack;
    if children != [] {
      var c, rest := children[0], CleanChildren(level, children[1..]);
      ChildrenShrink(level, children[1..]);
      BoxShrinks(level + 1, c);
      assert ([c] + rest)[1..] == rest && ([CleanBox(level + 1, c)] + rest)[1..] == rest;
    }
  }

  lemma {:induction false} PackedFit(atoms: seq<Atom>)
    requires |PackAll(atoms)| < 0x1_0000_0000
    ensures AllFit(atoms)
    ensures Parse(PackAll(atoms)) == atoms
  {
    RoundTrip(atoms);
    if atoms != [] {
      PackedFit(atoms[1..]);
      forall i | 0 <= i < |atoms| ensures Fits(atoms[i]) {
        if i > 0 {
          assert atoms[i] == atoms[1..][i - 1];
        }
      }
    }
  }

  /** The cleaned container parses into exactly the cleaned children, as long as it fits a 32-bit size. */
  lemma CleanedParses(level: nat, a: Atom)
    requires level < 5 && |a.data| < 0x1_0000_0000
    ensures Parse(CleanBox(level, a).data) == CleanChildren(level, Parse(a.data))
  {
    BoxShrinks(level, a);
    PackedFit(CleanChildren(level, Parse(a.data)));
  }

  /** A cleaned `moov` has no `pssh` child, and its other children are the original ones in order. */
  lemma MoovCleaned(moov: Atom)
    requires |moov.data| < 0x1_0000_0000
    ensures var before, after := Kept(0, Parse(moov.data)), Parse(CleanBox(0, moov).data);
            && (forall c <- after :: c.atomType != PSSH)
            && |after| == |before|
            && forall i :: 0 <= i < |before| ==>
                 after[i] == if before[i].atomType == TRAK then CleanBox(1, before[i]) else before[i]
  {
    hide Kept, CleanChildren, CleanBox, Parse;
    var children := Parse(moov.data);
    CleanedParses(0, moov);
    ChildrenCorrespond(0, children);
    NoPssh(children);
  }

  lemma {:induction false} NoPssh(children: seq<Atom>)
    ensures forall c <- Kept(0, children) :: c.atomType != PSSH
    ensures forall c <- CleanChildren(0, children) :: c.atomType != PSSH
  {
    if children != [] {
      NoPssh(children[1..]);
    }
  }

  /** A cleaned sample entry carries the codec its `sinf` names, keeps its fixed fields, and its child boxes
      are the original ones without the protection boxes. */
  lemma CleanedEntry(entry: Atom)
    requires FixedSize(entry.atomType) <= |entry.data| < 0x1_0000_0000
    ensures var fixed, after := FixedSize(entry.atomType), CleanEntry(entry);
            var children := Parse(entry.data[fixed..]);
            && after.atomType == (if EntryCodec(children, None).Some? then EntryCodec(children, None).value
                                  else entry.atomType)
            && |after.data| >= fixed && after.data[..fixed] == entry.data[..fixed]
            && Parse(after.data[fixed..]) == Unprotected(children)
            && forall c <- Parse(after.data[fixed..]) :: !Protection(c.atomType)
  {
    var fixed := FixedSize(entry.atomType);
    var children := Parse(entry.data[fixed..]);
    UnprotectedShrinks(children);
    PackedLength(entry.data[fixed..]);
    PackedFit(Unprotected(children));
    assert CleanEntry(entry).data[fixed..] == PackAll(Unprotected(children));
  }

  /** The cleaned `stsd` is read as the cleaned entries. */
  lemma CleanedStsd(stsd: Atom)
    requires 8 <= |stsd.data| < 0x1_0000_0000
    ensures |CleanStsd(stsd).data| >= 8 && CleanStsd(stsd).data[..8] == stsd.data[..8]
    ensures Parse(CleanStsd(stsd).data[8..]) == CleanEntries(StsdEntries(stsd.data))
    ensures StsdEntries(CleanStsd(stsd).data) == CleanEntries(StsdEntries(stsd.data))
  {
    var entries := CleanEntries(StsdEntries(stsd.data));
    var after := CleanStsd(stsd).data;
    StsdShrinks(stsd);
    assert after[..8] == stsd.data[..8] && after[8..] == PackAll(entries);
    SliceOfSlice(after, 0, 8, 4, 8);
    SliceOfSlice(stsd.data, 0, 8, 4, 8);
    assert after[4..8] == stsd.data[4..8];
    PackedFit(entries);
  }

  // ----- Cleaning twice -----

  /** The child boxes of an entry print back to the bytes they were read from, and none of them is a protection box. */
  predicate Settled(entry: Atom) {
    var fixed := FixedSize(entry.atomType);
    |entry.data| >= fixed ==>
      var tail := entry.data[fixed..];
      PackAll(Parse(tail)) == tail && forall c <- Parse(tail) :: !Protection(c.atomType)
  }

  lemma {:induction false} UnprotectedAll(children: seq<Atom>)
    ensures Unprotected(children) == children <==> forall c <- children :: !Protection(c.atomType)
    ensures Unprotected(children) != children ==> |PackAll(Unprotected(children))| < |PackAll(children)|
    ensures (forall c <- children :: !Protection(c.atomType)) ==> EntryCodec(children, None) == None
  {
    if children != [] {
      UnprotectedAll(children[1..]);
      UnprotectedShrinks(children[1..]);
      var rest := Unprotected(children[1..]);
      assert ([children[0]] + rest)[1..] == rest;
      assert |rest| <= |children[1..]| by {
        UnprotectedFewer(children[1..]);
      }
    }
  }

  lemma {:induction false} UnprotectedFewer(children: seq<Atom>)
    ensures |Unprotected(children)| <= |children|
  {
    if children != [] {
      UnprotectedFewer(children[1..]);
    }
  }

  /** Cleaning leaves exactly the settled entries as they are. */
  lemma EntrySettled(entry: Atom)
    ensures CleanEntry(entry) == entry <==> Settled(entry)
  {
    hide Parse, Unprotected, PackAll, EntryCodec;
    var fixed := FixedSize(entry.atomType);
    if |entry.data| >= fixed {
      var tail := entry.data[fixed..];
      var children := Parse(tail);
      UnprotectedAll(children);
      UnprotectedShrinks(children);
      PackedLength(tail);
      assert entry.data == entry.data[..fixed] + tail;
      assert (entry.data[..fixed] + PackAll(Unprotected(children)))[fixed..] == PackAll(Unprotected(children));
    }
  }

  /** Every sample entry below `a` is settled once it has been cleaned. */
  predicate SettlesBelow(level: nat, a: Atom)
    requires level <= 5
    decreases 5 - level
  {
    if level == 5 then |a.data| >= 8 ==> forall e <- StsdEntries(a.data) :: Settled(CleanEntry(e))
    else forall c <- Parse(a.data) :: c.atomType == PATH[level + 1] ==> SettlesBelow(level + 1, c)
  }

  lemma PackedApart(a: seq<Atom>, b: seq<Atom>)
    requires |PackAll(a)| < 0x1_0000_0000 && |PackAll(b)| < 0x1_0000_0000
    ensures PackAll(a) == PackAll(b) <==> a == b
  {
    PackedFit(a);
    PackedFit(b);
  }

  lemma StsdTwiceExactly(stsd: Atom)
    requires |stsd.data| < 0x1_0000_0000
    ensures CleanStsd(CleanStsd(stsd)) == CleanStsd(stsd) <==> SettlesBelow(5, stsd)
  {
    hide Parse, PackAll, CleanEntry, Settled;
    if |stsd.data| >= 8 {
      var entries := StsdEntries(stsd.data);
      var once := CleanEntries(entries);
      CleanedStsd(stsd);
      StsdShrinks(stsd);
      EntriesShrink(once);
      var front := stsd.data[..8];
      assert (front + PackAll(once))[8..] == PackAll(once);
      assert (front + PackAll(CleanEntries(once)))[8..] == PackAll(CleanEntries(once));
      PackedApart(CleanEntries(once), once);
      forall i | 0 <= i < |entries| ensures CleanEntry(once[i]) == once[i] <==> Settled(CleanEntry(entries[i])) {
        EntrySettled(once[i]);
      }
      if CleanEntries(once) == once {
        forall e <- entries ensures Settled(CleanEntry(e)) {
          var i :| 0 <= i < |entries| && entries[i] == e;
          assert CleanEntries(once)[i] == once[i];
        }
      } else {
        assert exists i :: 0 <= i < |once| && CleanEntries(once)[i] != once[i];
      }
    }
  }

  lemma {:induction false} KeptMembers(level: nat, children: seq<Atom>)
    ensures forall c :: c in Kept(level, children) <==> c in children && !(level == 0 && c.atomType == PSSH)
    ensures (forall c <- children :: !(level == 0 && c.atomType == PSSH)) ==> Kept(level, children) == children
  {
    if children != [] {
      KeptMembers(level, children[1..]);
      assert children == [children[0]] + children[1..];
    }
  }

  lemma CleanBoxType(level: nat, a: Atom)
    requires level <= 5 && a.atomType == PATH[level]
    ensures CleanBox(level, a).atomType == PATH[level]
  {
  }

  /** Cleaning a cleaned box changes nothing if and only if every sample entry in it comes out settled. */
  lemma {:induction false} BoxTwiceExactly(level: nat, a: Atom)
    requires level <= 5 && |a.data| < 0x1_0000_0000
    ensures CleanBox(level, CleanBox(level, a)) == CleanBox(level, a) <==> SettlesBelow(level, a)
    decreases 5 - level
  {
    hide Parse, PackAll, CleanChildren, Kept, CleanStsd;
    if level == 5 {
      StsdTwiceExactly(a);
    } else {
      var children := Parse(a.data);
      var kept, once := Kept(level, children), CleanChildren(level, children);
      CleanedParses(level, a);
      BoxShrinks(level, a);
      ChildrenShrink(level, once);
      PackedApart(CleanChildren(level, once), once);
      ChildrenCorrespond(level, children);
      ChildrenCorrespond(level, once);
      KeptMembers(level, children);
      OnceKept(level, children);
      ParsedFit(a.data);
      forall i | 0 <= i < |kept|
        ensures CleanChildren(level, once)[i] == once[i]
                <==> (kept[i].atomType == PATH[level + 1] ==> SettlesBelow(level + 1, kept[i]))
      {
        ChildTwice(level, children, i);
      }
      if CleanChildren(level, once) == once {
        forall c <- children | c.atomType == PATH[level + 1] ensures SettlesBelow(level + 1, c) {
          var i :| 0 <= i < |kept| && kept[i] == c;
          assert CleanChildren(level, once)[i] == once[i];
        }
      } else {
        var i :| 0 <= i < |once| && CleanChildren(level, once)[i] != once[i];
        assert kept[i] in kept;
      }
    }
  }

  /** Nothing is dropped from cleaned children. */
  lemma OnceKept(level: nat, children: seq<Atom>)
    requires level < 5
    ensures Kept(level, CleanChildren(level, children)) == CleanChildren(level, children)
  {
    KeptMembers(level, CleanChildren(level, children));
    if level == 0 {
      NoPssh(children);
    }
  }

  /** One child, cleaned twice. */
  lemma ChildTwice(level: nat, children: seq<Atom>, i: nat)
    requires level < 5 && AllFit(children) && i < |Kept(level, children)|
    ensures var kept, once := Kept(level, children), CleanChildren(level, children);
            && |once| == |kept| == |CleanChildren(level, once)|
            && (CleanChildren(level, once)[i] == once[i]
                <==> (kept[i].atomType == PATH[level + 1] ==> SettlesBelow(level + 1, kept[i])))
    decreases 5 - level, 0
  {
    hide Kept, CleanChildren, CleanBox, SettlesBelow;
    var kept, once := Kept(level, children), CleanChildren(level, children);
    ChildrenCorrespond(level, children);
    ChildrenCorrespond(level, once);
    OnceKept(level, children);
    KeptMembers(level, children);
    if kept[i].atomType == PATH[level + 1] {
      assert kept[i] in kept;
      var k :| 0 <= k < |children| && children[k] == kept[i];
      assert Fits(children[k]);
      CleanBoxType(level + 1, kept[i]);
      BoxTwiceExactly(level + 1, kept[i]);
    }
  }

  /** The restored codec lays out its fixed fields like the encrypted wrapper did. */
  predicate SameLayout(entry: Atom) {
    FixedSize(CleanEntry(entry).atomType) == FixedSize(entry.atomType)
  }

  /** All sample entries below `a` keep their layout. */
  predicate Stable(level: nat, a: Atom)
    requires level <= 5
    decreases 5 - level
  {
    if level == 5 then |a.data| >= 8 ==> forall e <- StsdEntries(a.data) :: SameLayout(e)
    else forall c <- Parse(a.data) :: c.atomType == PATH[level + 1] ==> Stable(level + 1, c)
  }

  /** An entry that keeps its layout comes out settled. */
  lemma LayoutSettles(entry: Atom)
    requires SameLayout(entry) && |entry.data| < 0x1_0000_0000
    ensures Settled(CleanEntry(entry))
  {
    hide Parse, PackAll, EntryCodec;
    var fixed := FixedSize(entry.atomType);
    if |entry.data| >= fixed {
      CleanedEntry(entry);
      assert CleanEntry(entry).data[fixed..] == PackAll(Unprotected(Parse(entry.data[fixed..])));
    }
  }

  lemma {:induction false} StableSettles(level: nat, a: Atom)
    requires level <= 5 && Stable(level, a) && |a.data| < 0x1_0000_0000
    ensures SettlesBelow(level, a)
    decreases 5 - level
  {
    hide Parse, Settled, SameLayout, CleanEntry, AllFit;
    if level == 5 {
      if |a.data| >= 8 {
        ParsedFit(a.data[8..]);
        forall e <- StsdEntries(a.data) ensures Settled(CleanEntry(e)) {
          FitsEach(Parse(a.data[8..]), e);
          LayoutSettles(e);
        }
      }
    } else {
      ParsedFit(a.data);
      forall c <- Parse(a.data) | c.atomType == PATH[level + 1] ensures SettlesBelow(level + 1, c) {
        FitsEach(Parse(a.data), c);
        StableSettles(level + 1, c);
      }
    }
  }

  lemma FitsEach(atoms: seq<Atom>, a: Atom)
    requires AllFit(atoms) && a in atoms
    ensures |a.data| < 0x1_0000_0000
  {
    var i :| 0 <= i < |atoms| && atoms[i] == a;
    assert Fits(atoms[i]);
  }

  /** In particular, when all sample entries keep their layout. */
  lemma BoxTwice(level: nat, a: Atom)
    requires level <= 5 && Stable(level, a) && |a.data| < 0x1_0000_0000
    ensures CleanBox(level, CleanBox(level, a)) == CleanBox(level, a)
  {
    hide CleanBox, Stable, SettlesBelow;
    StableSettles(level, a);
    BoxTwiceExactly(level, a);
  }

  function Zeros(n: nat): (s: seq<byte>)
    ensures |s| == n
  {
    seq(n, _ => 0)
  }

  /** With another layout a second pass can damage the entry: VP9 video (16 fixed bytes by this program's table)
      behind the 78-byte wrapper `encv`. */
  lemma LayoutMatters()
    ensures exists entry: Atom ::
              && CleanEntry(entry).atomType == 0x76703039
              && FixedSize(CleanEntry(entry).atomType) != FixedSize(entry.atomType)
              && CleanEntry(CleanEntry(entry)) != CleanEntry(entry)
  {
    hide Parse, CleanEntry, PackAll, Pack, ToBE, ReadFirst;
    var frma := Atom(FRMA, ToBE(0x76703039, 4));
    var sinf := Atom(SINF, PackAll([frma]));
    var entry := Atom(0x656e6376, Zeros(78) + PackAll([sinf]));
    WrappedVp9(frma, sinf, entry);
    ZeroTail(Atom(0x76703039, Zeros(78)));
  }

  lemma WrappedVp9(frma: Atom, sinf: Atom, entry: Atom)
    requires frma == Atom(FRMA, ToBE(0x76703039, 4)) && sinf == Atom(SINF, PackAll([frma]))
    requires entry == Atom(0x656e6376, Zeros(78) + PackAll([sinf]))
    ensures CleanEntry(entry) == Atom(0x76703039, Zeros(78))
  {
    hide Parse, Pack;
    RoundTrip([frma]);
    RoundTrip([sinf]);
    assert |PackAll([frma])| == 12;
    assert entry.data[78..] == PackAll([sinf]) && entry.data[..78] == Zeros(78);
    Pow256Values();
    FromBEToBEFits(0x76703039, 4);
    assert frma.data[..4] == frma.data;
    assert FrmaCodec([frma], None) == Some(0x76703039);
    assert EntryCodec([sinf], None) == Some(0x76703039);
    assert Unprotected([sinf]) == [];
    assert Zeros(78) + PackAll([]) == Zeros(78);
  }

  lemma ZeroTail(once: Atom)
    requires once == Atom(0x76703039, Zeros(78))
    ensures CleanEntry(once) != once
  {
    hide ToBE, FromBE;
    var tail := once.data[16..];
    assert tail[..4] == Zeros(4) && tail[4..8] == Zeros(4);
    ZeroNumber(4);
    var box := Atom(0, tail[8..]);
    assert ReadFirst(tail) == Box(box, 62);
    assert tail[62..] == [];
    assert Parse(tail) == [box];
    assert Unprotected([box]) == [box];
    assert PackAll([box]) == Pack(box);
    LastDigit(62, 4);
    assert CleanEntry(once).data[16 + 3] == 62;
  }

  lemma {:induction false} ZeroNumber(n: nat)
    ensures FromBE(Zeros(n)) == 0
  {
    if n > 0 {
      ZeroNumber(n - 1);
      assert Zeros(n)[..n - 1] == Zeros(n - 1);
    }
  }

  /** But need not: Opus audio (16 fixed bytes) behind the 28-byte wrapper `enca`, when the last 12 of those are a
      `free` box. */
  lemma LayoutHarmless()
    ensures exists entry: Atom ::
              && CleanEntry(entry).atomType == 0x4f707573
              && FixedSize(CleanEntry(entry).atomType) != FixedSize(entry.atomType)
              && Settled(CleanEntry(entry)) && CleanEntry(CleanEntry(entry)) == CleanEntry(entry)
  {
    hide Parse, CleanEntry, PackAll, Pack, ToBE, ReadFirst, Settled;
    var frma := Atom(FRMA, ToBE(0x4f707573, 4));
    var sinf := Atom(SINF, PackAll([frma]));
    var free := Atom(0x66726565, Zeros(4));
    var entry := Atom(0x656e6361, Zeros(16) + Pack(free) + PackAll([sinf]));
    WrappedOpus(frma, sinf, free, entry);
    FreeTail(free, Atom(0x4f707573, Zeros(16) + Pack(free)));
    EntrySettled(CleanEntry(entry));
  }

  lemma WrappedOpus(frma: Atom, sinf: Atom, free: Atom, entry: Atom)
    requires frma == Atom(FRMA, ToBE(0x4f707573, 4)) && sinf == Atom(SINF, PackAll([frma]))
             && free == Atom(0x66726565, Zeros(4))
    requires entry == Atom(0x656e6361, Zeros(16) + Pack(free) + PackAll([sinf]))
    ensures CleanEntry(entry) == Atom(0x4f707573, Zeros(16) + Pack(free))
  {
    hide Parse, Pack;
    RoundTrip([frma]);
    RoundTrip([sinf]);
    assert |PackAll([frma])| == 12 && |Pack(free)| == 12;
    var fixed := Zeros(16) + Pack(free);
    assert entry.data[28..] == PackAll([sinf]) && entry.data[..28] == fixed;
    Pow256Values();
    FromBEToBEFits(0x4f707573, 4);
    assert frma.data[..4] == frma.data;
    assert FrmaCodec([frma], None) == Some(0x4f707573);
    assert EntryCodec([sinf], None) == Some(0x4f707573);
    assert Unprotected([sinf]) == [];
    assert fixed + PackAll([]) == fixed;
  }

  lemma FreeTail(free: Atom, once: Atom)
    requires free == Atom(0x66726565, Zeros(4)) && once == Atom(0x4f707573, Zeros(16) + Pack(free))
    ensures Settled(once)
  {
    hide Parse, Pack;
    assert once.data[16..] == Pack(free);
    assert PackAll([free]) == Pack(free) by {
      assert [free][1..] == [] && Pack(free) + [] == Pack(free);
    }
    RoundTrip([free]);
    assert forall c <- [free] :: !Protection(c.atomType);
  }

  // ----- Learning the settings -----

  function SchemeOf(t: Fourcc): EncScheme {
    if t == 0x63626373 then Cbcs // cbcs
    else if t == 0x63626331 then Cbc1 // cbc1
    else if t == 0x63656e73 then Cens // cens
    else Cenc
  }

  function AfterSchm(st: State, data: seq<byte>): State {
    if |data| >= 8 then st.(scheme := SchemeOf(U32(data[4..8]))) else st
  }

  /** The constant vector a `tenc` payload carries behind a zero vector size. */
  function ConstantIvOf(data: seq<byte>): Option<seq<byte>> {
    if |data| <= 24 || data[7] != 0 then None
    else
      var size: nat := data[24];
      if size > 0 && |data| >= 25 + size then Some(data[25..25 + size]) else None
  }

  function AfterTenc(st: State, data: seq<byte>): State {
    if |data| < 8 then st
    else
      var patterned := data[0] > 0;
      var sized := data[7] == 0 || data[7] == 8 || data[7] == 16;
      var ivSize := if data[7] > 0 then data[7] else 16;
      var civ := ConstantIvOf(data);
      var settings := TrackSettings(
        if patterned then data[5] / 16 else 1, if patterned then data[5] % 16 else 9, civ, if sized then ivSize else 8);
      st.(crypt := if patterned then data[5] / 16 else st.crypt,
          skip := if patterned then data[5] % 16 else st.skip,
          defaultIvSize := if sized then ivSize else st.defaultIvSize,
          constantIv := if civ.Some? then civ else st.constantIv,
          extractedKids := if |data| >= 24 && st.currentTrackId > 0
                           then st.extractedKids[st.currentTrackId := data[8..24]] else st.extractedKids,
          trackSettings := if st.currentTrackId > 0
                           then st.trackSettings[st.currentTrackId := settings] else st.trackSettings)
  }

  function AfterSchi(st: State, children: seq<Atom>): State
    decreases |children|
  {
    if children == [] then st
    else AfterSchi(if children[0].atomType == TENC then AfterTenc(st, children[0].data) else st, children[1..])
  }

  function AfterSinf(st: State, children: seq<Atom>): State
    decreases |children|
  {
    if children == [] then st
    else
      var c := children[0];
      AfterSinf(if c.atomType == SCHM then AfterSchm(st, c.data)
                else if c.atomType == SCHI then AfterSchi(st, Parse(c.data))
                else st, children[1..])
  }

  function AfterEntryChildren(st: State, children: seq<Atom>): State
    decreases |children|
  {
    if children == [] then st
    else AfterEntryChildren(if children[0].atomType == SINF then AfterSinf(st, Parse(children[0].data)) else st,
                            children[1..])
  }

  function AfterEntry(st: State, entry: Atom): State {
    var fixed := FixedSize(entry.atomType);
    if |entry.data| < fixed then st else AfterEntryChildren(st, Parse(entry.data[fixed..]))
  }

  function AfterEntries(st: State, entries: seq<Atom>): State
    decreases |entries|
  {
    if entries == [] then st else AfterEntries(AfterEntry(st, entries[0]), entries[1..])
  }

  /** The first box of a type, which is the one a search stops at. */
  function FirstOf(t: Fourcc, atoms: seq<Atom>): Option<Atom> {
    if atoms == [] then None else if atoms[0].atomType == t then Some(atoms[0]) else FirstOf(t, atoms[1..])
  }

  /** A `trak` becomes current if its first `tkhd` is long enough to hold an identifier. */
  function TrackId(children: seq<Atom>, current: uint32): uint32 {
    match FirstOf(TKHD, children)
    case None => current
    case Some(tkhd) =>
      if tkhd.data == [] then current
      else
        var idOffset := if tkhd.data[0] == 0 then 12 else 20;
        if |tkhd.data| >= idOffset + 4 then U32(tkhd.data[idOffset..idOffset + 4]) else current
  }

  /** The program indexes into the first `tkhd` without a length check: an empty one aborts it. */
  predicate ReadableTrak(children: seq<Atom>) {
    match FirstOf(TKHD, children)
    case None => true
    case Some(tkhd) => tkhd.data != []
  }

  predicate ReadableSinf(sinf: Atom) {
    Lists(sinf.data) && forall c <- Parse(sinf.data) :: c.atomType == SCHI ==> Lists(c.data)
  }

  predicate ReadableEntry(entry: Atom) {
    var fixed := FixedSize(entry.atomType);
    |entry.data| >= fixed ==>
      Lists(entry.data[fixed..]) && forall c <- Parse(entry.data[fixed..]) :: c.atomType == SINF ==> ReadableSinf(c)
  }

  predicate ReadableStsd(stsd: Atom) {
    |stsd.data| >= 8 ==>
      ListableFew(stsd.data[8..], 0, U32(stsd.data[4..8])) && forall e <- StsdEntries(stsd.data) :: ReadableEntry(e)
  }

  /** Processing a box at depth `level` goes through: no listing on the way aborts, nor does an empty `tkhd`. */
  predicate ReadableBox(level: nat, a: Atom)
    requires level <= 5
    decreases 5 - level
  {
    if level == 5 then ReadableStsd(a)
    else
      && Lists(a.data) && (level == 1 ==> ReadableTrak(Parse(a.data)))
      && forall c <- Parse(a.data) :: c.atomType == PATH[level + 1] ==> ReadableBox(level + 1, c)
  }

  /** So a `moov` with a track whose first `tkhd` is empty aborts the program, whatever else it holds. */
  lemma EmptyTkhdAborts(moov: seq<Atom>, trak: seq<Atom>)
    requires Printable(moov) && Printable(trak) && Atom(TRAK, PackAll(trak)) in moov
    requires FirstOf(TKHD, trak) == Some(Atom(TKHD, []))
    ensures !ReadableBox(0, Atom(MOOV, PackAll(moov)))
  {
    hide PackAll, Parse, Listable;
    RoundTrip(moov);
    RoundTrip(trak);
    assert !ReadableBox(1, Atom(TRAK, PackAll(trak)));
  }

  function AfterBox(level: nat, st: State, a: Atom): State
    requires level <= 5
    decreases 5 - level, 0, 0
  {
    if level == 5 then (if |a.data| < 8 then st else AfterEntries(st, StsdEntries(a.data)))
    else
      var children := Parse(a.data);
      AfterChildren(level, if level == 1 then st.(currentTrackId := TrackId(children, st.currentTrackId)) else st,
                    children)
  }

  function AfterChildren(level: nat, st: State, children: seq<Atom>): State
    requires level < 5
    decreases 5 - level - 1, 1, |children|
  {
    if children == [] then st
    else
      AfterChildren(level, if children[0].atomType == PATH[level + 1] then AfterBox(level + 1, st, children[0]) else st,
                    children[1..])
  }
}
