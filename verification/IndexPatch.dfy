/** What the batch form does to a segment index when a fragment gets shorter (src/drm/cenc.rs:669-680). */
module IndexPatch {
  import opened Bytes
  import opened Mp4Atom
  import opened Decrypter
  import opened SegmentIndex

  function Lowered(n: nat, overhead: nat): nat {
    if n > overhead % 0x1_0000_0000 then n - overhead % 0x1_0000_0000 else 0
  }

  /** The first reference of an index, replaced. */
  function WithFirst(x: Index, e: Entry): Index
    requires x.references != []
  {
    x.(references := [e] + x.references[1..])
  }

  /** What the patched payload is an index of: version 1 has the size of the first reference lowered by the overhead,
      but not below zero; in version 0 the same place holds the first reference's access point field, of which the lower
      31 bits are lowered, and no size changes. */
  function Patched(x: Index, overhead: nat): Index
    requires ValidIndex(x) && x.references != []
  {
    var e := x.references[0];
    if x.wide then WithFirst(x, e.(ref := e.ref.(size := Lowered(e.ref.size, overhead))))
    else
      var kept := if e.sap >= 0x8000_0000 then 0x8000_0000 else 0;
      WithFirst(x, e.(sap := kept + Lowered(e.sap - kept, overhead)))
  }

  /** Everything of an index before its references. */
  function Front(x: Index): (r: seq<byte>)
    requires ValidIndex(x)
    ensures |r| == 16 + 2 * TimeWidth(x)
  {
    ([x.version] + x.flags + ToBE(x.referenceId, 4))
    + (ToBE(x.timescale, 4)
       + ((ToBE(x.earliestTime, TimeWidth(x)) + ToBE(x.firstOffset, TimeWidth(x)))
          + (ToBE(x.reserved, 2) + ToBE(|x.references|, 2))))
  }

  lemma FrontAndEntries(x: Index)
    requires ValidIndex(x) && x.references != []
    ensures PackIndex(x) == Front(x) + (PackEntry(x.references[0]) + PackEntries(x.references[1..]))
  {
  }

  lemma ValidPatched(x: Index, overhead: nat)
    requires ValidIndex(x) && x.references != []
    ensures ValidIndex(Patched(x, overhead)) && Front(Patched(x, overhead)) == Front(x)
  {
    hide ToBE;
    assert forall e <- Patched(x, overhead).references[1..] :: e in x.references;
  }

  /** Replacing the four bytes at `at`. */
  function Put(data: seq<byte>, at: nat, field: seq<byte>): seq<byte>
    requires at + 4 <= |data| && |field| == 4
  {
    data[..at] + field + data[at + 4..]
  }

  lemma FieldAt(data: seq<byte>, at: nat, n: nat)
    requires at + 4 <= |data| && data[at..at + 4] == ToBE(n, 4) && n < 0x1_0000_0000
    ensures U32(data[at..at + 4]) == n
  {
    Pow256Values();
    FromBEToBEFits(n, 4);
  }

  /** The patched field, for a payload that holds `n` there. */
  lemma ShiftedField(data: seq<byte>, n: nat, overhead: nat)
    requires |data| >= 36 && data[32..36] == ToBE(n, 4) && n < 0x1_0000_0000
    ensures var kept := if n >= 0x8000_0000 then 0x8000_0000 else 0;
            ShiftedSidx(Atom(SIDX, data), overhead).data == Put(data, 32, ToBE(kept + Lowered(n - kept, overhead), 4))
  {
    hide ToBE;
    FieldAt(data, 32, n);
  }

  /** Replacing the four bytes at `k` of the entry behind a front. */
  lemma PutEntry(front: seq<byte>, entry: seq<byte>, rest: seq<byte>, k: nat, field: seq<byte>)
    requires k + 4 <= |entry| && |field| == 4
    ensures (front + (entry + rest))[|front| + k..|front| + k + 4] == entry[k..k + 4]
    ensures Put(front + (entry + rest), |front| + k, field) == front + (Put(entry, k, field) + rest)
  {
    var data := front + (entry + rest);
    assert data[..|front| + k] == front + entry[..k];
    assert data[|front| + k + 4..] == entry[k + 4..] + rest;
  }

  lemma WidePatched(x: Index, overhead: nat)
    requires ValidIndex(x) && x.references != [] && x.wide
    ensures ShiftedSidx(Atom(SIDX, PackIndex(x)), overhead).data == PackIndex(Patched(x, overhead))
  {
    hide ToBE, PackIndex, Front, PackEntries, ShiftedSidx, PackEntry, Put;
    var e, y := x.references[0], Patched(x, overhead);
    var f, size := y.references[0], Lowered(e.ref.size, overhead);
    ValidPatched(x, overhead);
    FrontAndEntries(x);
    FrontAndEntries(y);
    var n := (if e.ref.isIndex then 0x8000_0000 else 0) + e.ref.size;
    var m := (if e.ref.isIndex then 0x8000_0000 else 0) + size;
    EntrySize(e, size);
    PutEntry(Front(x), PackEntry(e), PackEntries(x.references[1..]), 0, ToBE(m, 4));
    ShiftedField(PackIndex(x), n, overhead);
    assert y.references[1..] == x.references[1..];
  }

  lemma EntrySize(e: Entry, size: nat)
    requires e.ref.size < 0x8000_0000 && size < 0x8000_0000
    ensures PackEntry(e)[..4] == ToBE((if e.ref.isIndex then 0x8000_0000 else 0) + e.ref.size, 4)
    ensures PackEntry(e.(ref := e.ref.(size := size)))
            == Put(PackEntry(e), 0, ToBE((if e.ref.isIndex then 0x8000_0000 else 0) + size, 4))
  {
    hide ToBE;
  }

  lemma NarrowPatched(x: Index, overhead: nat)
    requires ValidIndex(x) && x.references != [] && !x.wide
    ensures ShiftedSidx(Atom(SIDX, PackIndex(x)), overhead).data == PackIndex(Patched(x, overhead))
  {
    hide ToBE, PackIndex, Front, PackEntries, ShiftedSidx, PackEntry, Put;
    var e, y := x.references[0], Patched(x, overhead);
    ValidPatched(x, overhead);
    FrontAndEntries(x);
    FrontAndEntries(y);
    EntryPoint(e, y.references[0].sap);
    PutEntry(Front(x), PackEntry(e), PackEntries(x.references[1..]), 8, ToBE(y.references[0].sap, 4));
    ShiftedField(PackIndex(x), e.sap, overhead);
    assert y.references[1..] == x.references[1..];
  }

  lemma EntryPoint(e: Entry, sap: uint32)
    ensures PackEntry(e)[8..12] == ToBE(e.sap, 4)
    ensures PackEntry(e.(sap := sap)) == Put(PackEntry(e), 8, ToBE(sap, 4))
  {
    hide ToBE;
  }

  /** The patched payload is exactly the patched index. */
  lemma IndexPatched(x: Index, overhead: nat)
    requires ValidIndex(x)
    ensures x.references == [] ==> ShiftedSidx(Atom(SIDX, PackIndex(x)), overhead).data == PackIndex(x)
    ensures x.references != [] ==>
              && ValidIndex(Patched(x, overhead))
              && ShiftedSidx(Atom(SIDX, PackIndex(x)), overhead) == Atom(SIDX, PackIndex(Patched(x, overhead)))
  {
    hide PackIndex, ShiftedSidx, Patched, ValidIndex;
    SameType(PackIndex(x), overhead);
    if x.references == [] {
      ShortIndex(x, overhead);
    } else {
      ValidPatched(x, overhead);
      if x.wide {
        WidePatched(x, overhead);
      } else {
        NarrowPatched(x, overhead);
      }
    }
  }

  lemma SameType(data: seq<byte>, overhead: nat)
    ensures ShiftedSidx(Atom(SIDX, data), overhead).atomType == SIDX
  {
  }

  lemma ShortIndex(x: Index, overhead: nat)
    requires ValidIndex(x) && x.references == []
    ensures ShiftedSidx(Atom(SIDX, PackIndex(x)), overhead).data == PackIndex(x)
  {
  }

  /** So the index follows the fragment that got shorter, its first reference losing exactly the overhead, if and only
      if it has 64-bit times and that reference was long enough, or there is no overhead. */
  lemma IndexFollows(x: Index, overhead: nat)
    requires ValidIndex(x) && x.references != [] && overhead < 0x1_0000_0000
    ensures Patched(x, overhead).references[0].ref.size == x.references[0].ref.size - overhead
            <==> overhead == 0 || (x.version != 0 && overhead <= x.references[0].ref.size)
    ensures forall i :: 0 < i < |x.references| ==> Patched(x, overhead).references[i] == x.references[i]
    ensures x.version == 0 ==>
              Layout(Patched(x, overhead).references, 0, x.timescale) == Layout(x.references, 0, x.timescale)
  {
    if x.version == 0 {
      var e, f := x.references[0], Patched(x, overhead).references[0];
      assert e.ref == f.ref && Patched(x, overhead).references[1..] == x.references[1..];
    }
  }
}
