/** Expanding a segment index into byte ranges (src/mpd/processor.rs:1384-1517). */
module SegmentIndex {
  import opened Bytes
  import opened Mp4Atom

  /** One subsegment: first and last byte in the file, duration and its unit. */
  datatype Fragment = Fragment(start: int, end: int, duration: uint32, timescale: uint32)

  // ----- Reading -----

  function R16(d: seq<byte>, o: nat): Option<uint16> {
    if o + 2 <= |d| then Some(U16(d[o..o + 2])) else None
  }

  function R32(d: seq<byte>, o: nat): Option<uint32> {
    if o + 4 <= |d| then Some(U32(d[o..o + 4])) else None
  }

  function R64(d: seq<byte>, o: nat): Option<nat> {
    if o + 8 <= |d| then Some(U64(d[o..o + 8])) else None
  }

  /** Where the first `sidx` box is, looking from `scan` on. */
  function FindSidx(data: seq<byte>, scan: nat): (r: Option<nat>)
    ensures r.Some? ==> scan <= r.value && r.value + 8 <= |data|
    decreases |data| - scan
  {
    if scan + 8 > |data| then None
    else
      var size := U32(data[scan..scan + 4]);
      if size < 8 then None
      else if U32(data[scan + 4..scan + 8]) == SIDX then Some(scan)
      else FindSidx(data, scan + size)
  }

  /** What a reference entry says: its kind, size and duration. */
  datatype Reference = Reference(isIndex: bool, size: nat, duration: uint32)

  function ReadReference(data: seq<byte>, off: nat): Reference
    requires off + 12 <= |data|
  {
    var field := U32(data[off..off + 4]);
    Reference(field / 0x8000_0000 == 1, field % 0x8000_0000, U32(data[off + 4..off + 8]))
  }

  /** The fragments for up to `n` entries at `off`, the first of which starts at `fragStart` in the file. */
  function ReadFragments(data: seq<byte>, off: nat, n: nat, fragStart: nat, timescale: uint32): seq<Fragment>
    decreases n
  {
    if n == 0 || off + 12 > |data| then []
    else
      var r := ReadReference(data, off);
      (if r.isIndex then [] else [Fragment(fragStart, fragStart + r.size - 1, r.duration, timescale)])
      + ReadFragments(data, off + 12, n - 1, fragStart + r.size, timescale)
  }

  /** The fixed fields: time unit, offset of the first byte, number of entries, and where the entries start. */
  datatype IndexHeader = IndexHeader(timescale: uint32, firstOffset: nat, count: uint16, entries: nat)

  function ReadIndexHeader(data: seq<byte>, at: nat): Option<IndexHeader> {
    if at + 8 >= |data| then None
    else
      var wide := data[at + 8] != 0;
      var timescale := R32(data, at + 16);
      var firstOffset := if wide then R64(data, at + 28) else R32(data, at + 24);
      var count := R16(data, if wide then at + 38 else at + 30);
      if timescale.None? || firstOffset.None? || count.None? then None
      else Some(IndexHeader(timescale.value, firstOffset.value, count.value, if wide then at + 40 else at + 32))
  }

  function SidxFragments(data: seq<byte>, indexRangeStart: nat): seq<Fragment> {
    match FindSidx(data, 0)
    case None => []
    case Some(at) =>
      match ReadIndexHeader(data, at)
      case None => []
      case Some(h) =>
        var fileEnd := indexRangeStart + at + U32(data[at..at + 4]);
        ReadFragments(data, h.entries, h.count, fileEnd + h.firstOffset, h.timescale)
  }

  method FindSidxBox(data: seq<byte>) returns (at: Option<nat>)
    ensures at == FindSidx(data, 0)
  {
    var scan := 0;
    while true
      invariant 0 <= scan
      invariant FindSidx(data, scan) == FindSidx(data, 0)
      decreases |data| - scan
    {
      if scan + 8 > |data| {
        return None;
      }
      var size := U32(data[scan..scan + 4]);
      if size < 8 {
        return None;
      }
      if U32(data[scan + 4..scan + 8]) == SIDX {
        return Some(scan);
      }
      scan := scan + size;
    }
  }

  /** The fixed fields, read at a moving offset. */
  method ParseIndexHeader(data: seq<byte>, at: nat) returns (h: Option<IndexHeader>)
    ensures h == ReadIndexHeader(data, at)
  {
    hide R16, R32, R64;
    var off := at + 8;
    if off >= |data| {
      return None;
    }
    var version := data[off];
    off := off + 4;
    off := off + 4;
    var timescale := R32(data, off);
    if timescale == None {
      return None;
    }
    off := off + 4;
    var firstOffset: nat;
    if version == 0 {
      off := off + 4;
      var narrow := R32(data, off);
      if narrow == None {
        return None;
      }
      firstOffset := narrow.value;
      off := off + 4;
    } else {
      off := off + 8;
      var wide := R64(data, off);
      if wide == None {
        return None;
      }
      firstOffset := wide.value;
      off := off + 8;
    }
    off := off + 2;
    var referenceCount := R16(data, off);
    if referenceCount == None {
      return None;
    }
    off := off + 2;
    h := Some(IndexHeader(timescale.value, firstOffset, referenceCount.value, off));
  }

  /** One turn of the entry loop. */
  lemma ReadFragmentsStep(acc: seq<Fragment>, data: seq<byte>, off: nat, n: nat, fragStart: nat, timescale: uint32)
    requires n > 0 && off + 12 <= |data|
    ensures var r := ReadReference(data, off);
            var here := if r.isIndex then acc
                        else acc + [Fragment(fragStart, fragStart + r.size - 1, r.duration, timescale)];
            acc + ReadFragments(data, off, n, fragStart, timescale)
            == here + ReadFragments(data, off + 12, n - 1, fragStart + r.size, timescale)
  {
    hide ReadReference;
    var r := ReadReference(data, off);
    var later := ReadFragments(data, off + 12, n - 1, fragStart + r.size, timescale);
    AppendAssoc(acc, [Fragment(fragStart, fragStart + r.size - 1, r.duration, timescale)], later);
    assert [] + later == later;
  }

  method ParseReferences(data: seq<byte>, h: IndexHeader, start: nat) returns (fragments: seq<Fragment>)
    ensures fragments == ReadFragments(data, h.entries, h.count, start, h.timescale)
  {
    hide ReadFragments;
    fragments := [];
    var off: nat, fragStart: nat := h.entries, start;
    ghost var goal := ReadFragments(data, off, h.count, fragStart, h.timescale);
    assert [] + goal == goal;
    for i := 0 to h.count
      invariant fragments + ReadFragments(data, off, h.count - i, fragStart, h.timescale) == goal
    {
      if off + 12 > |data| {
        NoMoreEntries(data, off, h.count - i, fragStart, h.timescale);
        return;
      }
      ReadFragmentsStep(fragments, data, off, h.count - i, fragStart, h.timescale);
      var field := U32(data[off..off + 4]);
      var refType := field / 0x8000_0000;
      var referencedSize := field % 0x8000_0000;
      var duration := U32(data[off + 4..off + 8]);
      off := off + 12;
      if refType == 0 {
        fragments := fragments + [Fragment(fragStart, fragStart + referencedSize - 1, duration, h.timescale)];
      }
      fragStart := fragStart + referencedSize;
    }
    NoMoreEntries(data, off, 0, fragStart, h.timescale);
  }

  lemma NoMoreEntries(data: seq<byte>, off: nat, n: nat, fragStart: nat, timescale: uint32)
    requires n == 0 || off + 12 > |data|
    ensures ReadFragments(data, off, n, fragStart, timescale) == []
  {
  }

  method ParseSidxFragments(data: seq<byte>, indexRangeStart: nat) returns (fragments: seq<Fragment>)
    ensures fragments == SidxFragments(data, indexRangeStart)
  {
    hide ReadFragments, ReadIndexHeader, FindSidx;
    fragments := [];
    var found := FindSidxBox(data);
    if found == None {
      return;
    }
    var at := found.value;
    var fileEnd := indexRangeStart + at + U32(data[at..at + 4]);
    var h := ParseIndexHeader(data, at);
    if h == None {
      return;
    }
    fragments := ParseReferences(data, h.value, fileEnd + h.value.firstOffset);
  }

  // ----- Writing -----

  datatype Index = Index(
    wide: bool, version: byte, flags: seq<byte>, referenceId: uint32, timescale: uint32, earliestTime: nat,
    firstOffset: nat, reserved: uint16, references: seq<Entry>)

  /** A reference as written, with its stream access point field. */
  datatype Entry = Entry(ref: Reference, sap: uint32)

  function PackEntry(e: Entry): (r: seq<byte>)
    ensures |r| == 12
  {
    ToBE((if e.ref.isIndex then 0x8000_0000 else 0) + e.ref.size, 4) + (ToBE(e.ref.duration, 4) + ToBE(e.sap, 4))
  }

  function PackEntries(es: seq<Entry>): (r: seq<byte>)
    ensures |r| == 12 * |es|
  {
    if es == [] then [] else PackEntry(es[0]) + PackEntries(es[1..])
  }

  /** Version 0 has 32-bit times, every other version 64-bit ones. */
  predicate ValidIndex(x: Index) {
    && |x.flags| == 3 && (x.version == 0 <==> !x.wide) && |x.references| < 0x1_0000
    && x.earliestTime < (if x.wide then 0x1_0000_0000_0000_0000 else 0x1_0000_0000)
    && x.firstOffset < (if x.wide then 0x1_0000_0000_0000_0000 else 0x1_0000_0000)
    && forall e <- x.references :: e.ref.size < 0x8000_0000
  }

  function TimeWidth(x: Index): nat {
    if x.wide then 8 else 4
  }

  /** The payload of a `sidx` box. */
  function PackIndex(x: Index): (r: seq<byte>)
    requires ValidIndex(x)
    ensures |r| == 16 + 2 * TimeWidth(x) + 12 * |x.references|
  {
    ([x.version] + x.flags + ToBE(x.referenceId, 4))
    + (ToBE(x.timescale, 4)
       + ((ToBE(x.earliestTime, TimeWidth(x)) + ToBE(x.firstOffset, TimeWidth(x)))
          + ((ToBE(x.reserved, 2) + ToBE(|x.references|, 2)) + PackEntries(x.references))))
  }

  /** What an index means: its media references as byte ranges, laid out one after the other from `start` on. */
  function Layout(es: seq<Entry>, start: nat, timescale: uint32): seq<Fragment> {
    if es == [] then []
    else
      var r := es[0].ref;
      (if r.isIndex then [] else [Fragment(start, start + r.size - 1, r.duration, timescale)])
      + Layout(es[1..], start + r.size, timescale)
  }

  lemma EntryRoundTrip(data: seq<byte>, off: nat, e: Entry)
    requires e.ref.size < 0x8000_0000 && Holds(data, off, PackEntry(e))
    ensures off + 12 <= |data| && ReadReference(data, off) == e.ref
  {
    var field := (if e.ref.isIndex then 0x8000_0000 else 0) + e.ref.size;
    HoldsSplit(data, off, ToBE(field, 4), ToBE(e.ref.duration, 4) + ToBE(e.sap, 4));
    HoldsSplit(data, off + 4, ToBE(e.ref.duration, 4), ToBE(e.sap, 4));
    Pow256Values();
    FromBEToBEFits(field, 4);
    FromBEToBEFits(e.ref.duration, 4);
  }

  lemma {:induction false} EntriesRoundTrip(data: seq<byte>, off: nat, es: seq<Entry>, start: nat, timescale: uint32)
    requires forall e <- es :: e.ref.size < 0x8000_0000
    requires Holds(data, off, PackEntries(es))
    ensures ReadFragments(data, off, |es|, start, timescale) == Layout(es, start, timescale)
    decreases |es|
  {
    hide Holds, PackEntry, ReadReference;
    if es != [] {
      HoldsSplit(data, off, PackEntry(es[0]), PackEntries(es[1..]));
      EntryRoundTrip(data, off, es[0]);
      EntriesRoundTrip(data, off + 12, es[1..], start + es[0].ref.size, timescale);
    }
  }

  /** The fixed fields of a written index, at their places. */
  lemma FieldPlaces(data: seq<byte>, at: nat, x: Index)
    requires ValidIndex(x) && Holds(data, at, PackIndex(x))
    ensures Holds(data, at, [x.version]) && Holds(data, at + 8, ToBE(x.timescale, 4))
    ensures Holds(data, at + 12 + TimeWidth(x), ToBE(x.firstOffset, TimeWidth(x)))
    ensures Holds(data, at + 14 + 2 * TimeWidth(x), ToBE(|x.references|, 2))
    ensures Holds(data, at + 16 + 2 * TimeWidth(x), PackEntries(x.references))
  {
    hide Holds, ToBE, PackEntries;
    var w := TimeWidth(x);
    var a, b := [x.version] + x.flags + ToBE(x.referenceId, 4), ToBE(x.timescale, 4);
    var c, d := ToBE(x.earliestTime, w), ToBE(x.firstOffset, w);
    var e, f := ToBE(x.reserved, 2), ToBE(|x.references|, 2);
    var g := PackEntries(x.references);
    HoldsSplit(data, at, a, b + ((c + d) + ((e + f) + g)));
    AppendAssoc([x.version], x.flags, ToBE(x.referenceId, 4));
    HoldsSplit(data, at, [x.version], x.flags + ToBE(x.referenceId, 4));
    HoldsSplit(data, at + 8, b, (c + d) + ((e + f) + g));
    HoldsSplit(data, at + 12, c + d, (e + f) + g);
    HoldsSplit(data, at + 12, c, d);
    HoldsSplit(data, at + 12 + 2 * w, e + f, g);
    HoldsSplit(data, at + 12 + 2 * w, e, f);
  }

  lemma Number32(data: seq<byte>, o: nat, n: uint32)
    requires Holds(data, o, ToBE(n, 4))
    ensures R32(data, o) == Some(n) && o + 4 <= |data| && U32(data[o..o + 4]) == n
  {
    Pow256Values();
    FromBEToBEFits(n, 4);
  }

  lemma Number64(data: seq<byte>, o: nat, n: nat)
    requires n < 0x1_0000_0000_0000_0000 && Holds(data, o, ToBE(n, 8))
    ensures R64(data, o) == Some(n)
  {
    Pow256Values();
    FromBEToBEFits(n, 8);
  }

  lemma Number16(data: seq<byte>, o: nat, n: uint16)
    requires Holds(data, o, ToBE(n, 2))
    ensures R16(data, o) == Some(n)
  {
    Pow256Values();
    FromBEToBEFits(n, 2);
  }

  lemma ByteAt(data: seq<byte>, o: nat, b: byte)
    requires Holds(data, o, [b])
    ensures o < |data| && data[o] == b
  {
    assert data[o..o + 1][0] == data[o];
  }

  lemma HeaderRoundTrip(data: seq<byte>, at: nat, x: Index)
    requires ValidIndex(x) && Holds(data, at + 8, PackIndex(x))
    ensures ReadIndexHeader(data, at)
            == Some(IndexHeader(x.timescale, x.firstOffset, |x.references|, at + 24 + 2 * TimeWidth(x)))
    ensures Holds(data, at + 24 + 2 * TimeWidth(x), PackEntries(x.references))
  {
    hide Holds, ToBE, PackEntries, PackIndex, R16, R32, R64;
    FieldPlaces(data, at + 8, x);
    ByteAt(data, at + 8, x.version);
    Number32(data, at + 16, x.timescale);
    if x.wide {
      Number64(data, at + 28, x.firstOffset);
    } else {
      Number32(data, at + 24, x.firstOffset);
    }
    Number16(data, at + 22 + 2 * TimeWidth(x), |x.references|);
  }

  /** The header of a box standing at `pos`. */
  lemma BoxAt(data: seq<byte>, pos: nat, a: Atom)
    requires Fits(a) && Holds(data, pos, Pack(a))
    ensures pos + 8 <= |data| && U32(data[pos..pos + 4]) == |a.data| + 8 && U32(data[pos + 4..pos + 8]) == a.atomType
    ensures Holds(data, pos + 8, a.data)
  {
    hide Holds, ToBE;
    var size, kind := ToBE(|a.data| + 8, 4), ToBE(a.atomType, 4);
    AppendAssoc(size, kind, a.data);
    HoldsSplit(data, pos, size, kind + a.data);
    HoldsSplit(data, pos + 4, kind, a.data);
    Number32(data, pos, |a.data| + 8);
    Number32(data, pos + 4, a.atomType);
  }

  lemma {:induction false} ScanPast(data: seq<byte>, pos: nat, front: seq<Atom>)
    requires AllFit(front) && (forall a <- front :: a.atomType != SIDX) && Holds(data, pos, PackAll(front))
    ensures FindSidx(data, pos) == FindSidx(data, pos + |PackAll(front)|)
    decreases |front|
  {
    hide Holds, Pack;
    if front != [] {
      var a := front[0];
      assert a in front;
      HoldsSplit(data, pos, Pack(a), PackAll(front[1..]));
      BoxAt(data, pos, a);
      ScanPast(data, pos + |Pack(a)|, front[1..]);
    }
  }

  lemma FoundHere(data: seq<byte>, at: nat, a: Atom)
    requires Fits(a) && a.atomType == SIDX && Holds(data, at, Pack(a))
    ensures FindSidx(data, at) == Some(at) && U32(data[at..at + 4]) == |a.data| + 8
  {
    hide Holds;
    BoxAt(data, at, a);
  }

  /** Reading a written index, behind any other boxes and before any other bytes, gives exactly its layout from the end
      of the box plus the first offset on. */
  lemma IndexRoundTrip(front: seq<Atom>, x: Index, tail: seq<byte>, indexRangeStart: nat)
    requires AllFit(front) && (forall a <- front :: a.atomType != SIDX) && ValidIndex(x)
    ensures var box := Pack(Atom(SIDX, PackIndex(x)));
            SidxFragments(PackAll(front) + box + tail, indexRangeStart)
            == Layout(x.references, indexRangeStart + |PackAll(front)| + |box| + x.firstOffset, x.timescale)
  {
    hide Holds, ReadIndexHeader, ReadFragments, PackIndex, Pack, FindSidx, Layout;
    var before, sidx := PackAll(front), Atom(SIDX, PackIndex(x));
    var box, at := Pack(sidx), |PackAll(front)|;
    var data := before + box + tail;
    AppendAssoc(before, box, tail);
    HoldsFirst(before, box + tail);
    ScanPast(data, 0, front);
    HoldsInside(before, box, tail);
    BoxAt(data, at, sidx);
    FoundHere(data, at, sidx);
    HeaderRoundTrip(data, at, x);
    EntriesRoundTrip(data, at + 24 + 2 * TimeWidth(x), x.references, indexRangeStart + at + |box| + x.firstOffset,
                     x.timescale);
  }

  lemma HoldsFirst<T>(a: seq<T>, b: seq<T>)
    ensures Holds(a + b, 0, a)
  {
  }

  // ----- Tiling -----

  function TotalSize(es: seq<Entry>): nat {
    if es == [] then 0 else TotalSize(es[..|es| - 1]) + es[|es| - 1].ref.size
  }

  function MediaCount(es: seq<Entry>): nat {
    if es == [] then 0 else MediaCount(es[..|es| - 1]) + if es[|es| - 1].ref.isIndex then 0 else 1
  }

  lemma {:induction false} LayoutMore(es: seq<Entry>, e: Entry, start: nat, timescale: uint32)
    ensures Layout(es + [e], start, timescale)
            == Layout(es, start, timescale)
               + if e.ref.isIndex then []
                 else [Fragment(start + TotalSize(es), start + TotalSize(es) + e.ref.size - 1, e.ref.duration,
                                timescale)]
    decreases |es|
  {
    if es == [] {
      assert es + [e] == [e] && [e][1..] == [];
    } else {
      assert (es + [e])[0] == es[0] && (es + [e])[1..] == es[1..] + [e];
      LayoutMore(es[1..], e, start + es[0].ref.size, timescale);
      FirstSize(es);
    }
  }

  lemma {:induction false} FirstSize(es: seq<Entry>)
    requires es != []
    ensures TotalSize(es) == es[0].ref.size + TotalSize(es[1..])
    decreases |es|
  {
    if |es| > 1 {
      FirstSize(es[..|es| - 1]);
      assert es[..|es| - 1][1..] == es[1..][..|es[1..]| - 1];
    } else {
      assert es[..0] == [] && es[1..] == [];
    }
  }

  /** Each media reference becomes one fragment, in order, behind the total size of all references before it: index
      references leave gaps of exactly their size, and nothing overlaps. */
  lemma {:induction false} Tiling(es: seq<Entry>, start: nat, timescale: uint32)
    ensures |Layout(es, start, timescale)| == MediaCount(es)
    ensures forall i :: 0 <= i < |es| && !es[i].ref.isIndex ==>
              && MediaCount(es[..i]) < MediaCount(es)
              && Layout(es, start, timescale)[MediaCount(es[..i])]
                 == Fragment(start + TotalSize(es[..i]), start + TotalSize(es[..i]) + es[i].ref.size - 1,
                             es[i].ref.duration, timescale)
    decreases |es|
  {
    if es != [] {
      var n := |es| - 1;
      var front := es[..n];
      Tiling(front, start, timescale);
      assert es == front + [es[n]];
      LayoutMore(front, es[n], start, timescale);
      forall i | 0 <= i < |es| && !es[i].ref.isIndex
        ensures MediaCount(es[..i]) < MediaCount(es)
        ensures Layout(es, start, timescale)[MediaCount(es[..i])]
             == Fragment(start + TotalSize(es[..i]), start + TotalSize(es[..i]) + es[i].ref.size - 1,
                         es[i].ref.duration, timescale)
      {
        if i < n {
          assert es[..i] == front[..i] && es[i] == front[i];
        }
      }
    }
  }

  /** Where the fragment of a reference stands when all references are media. */
  lemma MediaAt(es: seq<Entry>, start: nat, timescale: uint32, i: nat)
    requires (forall e <- es :: !e.ref.isIndex) && i < |es|
    ensures |Layout(es, start, timescale)| == |es|
    ensures Layout(es, start, timescale)[i]
            == Fragment(start + TotalSize(es[..i]), start + TotalSize(es[..i]) + es[i].ref.size - 1, es[i].ref.duration,
                        timescale)
    ensures TotalSize(es[..i + 1]) == TotalSize(es[..i]) + es[i].ref.size
  {
    hide Layout;
    Tiling(es, start, timescale);
    AllMedia(es);
    assert es[i] in es;
    AllMedia(es[..i]);
    assert es[..i + 1][..i] == es[..i];
  }

  /** With media references only, the fragments abut from the first byte on and cover the total size. */
  lemma MediaTiling(es: seq<Entry>, start: nat, timescale: uint32)
    requires forall e <- es :: !e.ref.isIndex
    ensures var fs := Layout(es, start, timescale);
            && |fs| == |es|
            && (forall i :: 0 <= i < |es| ==> fs[i].end - fs[i].start + 1 == es[i].ref.size)
            && (forall i :: 0 < i < |es| ==> fs[i].start == fs[i - 1].end + 1)
            && (es != [] ==> fs[0].start == start && fs[|es| - 1].end + 1 == start + TotalSize(es))
  {
    hide Layout, TotalSize;
    if es == [] {
      NoSize();
      NoLayout(start, timescale);
    } else {
      Ends(es, start, timescale);
    }
    forall i | 0 <= i < |es|
      ensures Layout(es, start, timescale)[i].end - Layout(es, start, timescale)[i].start + 1 == es[i].ref.size
    {
      MediaAt(es, start, timescale, i);
    }
    forall i | 0 < i < |es|
      ensures Layout(es, start, timescale)[i].start == Layout(es, start, timescale)[i - 1].end + 1
    {
      Abut(es, start, timescale, i);
    }
  }

  lemma Abut(es: seq<Entry>, start: nat, timescale: uint32, i: nat)
    requires (forall e <- es :: !e.ref.isIndex) && 0 < i < |es|
    ensures |Layout(es, start, timescale)| == |es|
    ensures Layout(es, start, timescale)[i].start == Layout(es, start, timescale)[i - 1].end + 1
  {
    hide Layout, TotalSize;
    MediaAt(es, start, timescale, i - 1);
    MediaAt(es, start, timescale, i);
  }

  lemma Ends(es: seq<Entry>, start: nat, timescale: uint32)
    requires (forall e <- es :: !e.ref.isIndex) && es != []
    ensures var fs := Layout(es, start, timescale);
            |fs| == |es| && fs[0].start == start && fs[|es| - 1].end + 1 == start + TotalSize(es)
  {
    hide Layout, TotalSize;
    MediaAt(es, start, timescale, 0);
    MediaAt(es, start, timescale, |es| - 1);
    assert es[..|es| - 1 + 1] == es && es[..0] == [];
    NoSize();
  }

  lemma NoLayout(start: nat, timescale: uint32)
    ensures Layout([], start, timescale) == []
  {
  }

  lemma NoSize()
    ensures TotalSize([]) == 0
  {
  }

  lemma {:induction false} AllMedia(es: seq<Entry>)
    requires forall e <- es :: !e.ref.isIndex
    ensures MediaCount(es) == |es|
  {
    if es != [] {
      AllMedia(es[..|es| - 1]);
    }
  }
}
