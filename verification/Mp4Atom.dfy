/** MP4 boxes: printing, the forward parser and their round trips (src/drm/mp4_atom.rs). */
module Mp4Atom {
  import opened Bytes

  /** A four-character code, read as the big-endian number of its four bytes. */
  type Fourcc = x: int | 0 <= x < 0x1_0000_0000

  const FTYP: Fourcc := 0x66747970
  const MOOV: Fourcc := 0x6d6f6f76
  const MOOF: Fourcc := 0x6d6f6f66
  const SIDX: Fourcc := 0x73696478
  const MDAT: Fourcc := 0x6d646174
  const PSSH: Fourcc := 0x70737368
  const TRAK: Fourcc := 0x7472616b
  const TKHD: Fourcc := 0x746b6864
  const MDIA: Fourcc := 0x6d646961
  const MINF: Fourcc := 0x6d696e66
  const STBL: Fourcc := 0x7374626c
  const STSD: Fourcc := 0x73747364
  const SINF: Fourcc := 0x73696e66
  const FRMA: Fourcc := 0x66726d61
  const SCHM: Fourcc := 0x7363686d
  const SCHI: Fourcc := 0x73636869
  const TENC: Fourcc := 0x74656e63
  const TRAF: Fourcc := 0x74726166
  const TFHD: Fourcc := 0x74666864
  const TRUN: Fourcc := 0x7472756e
  const SENC: Fourcc := 0x73656e63
  const SAIZ: Fourcc := 0x7361697a
  const SAIO: Fourcc := 0x7361696f

  /** These are the codes of their letters. */
  lemma FileNames()
    ensures FTYP == Code("ftyp") && MOOV == Code("moov") && MOOF == Code("moof")
    ensures SIDX == Code("sidx") && MDAT == Code("mdat") && PSSH == Code("pssh")
  {
    hide Code;
    CodeValue("ftyp");
    CodeValue("moov");
    CodeValue("moof");
    CodeValue("sidx");
    CodeValue("mdat");
    CodeValue("pssh");
  }

  lemma TrackNames()
    ensures TRAK == Code("trak") && TKHD == Code("tkhd") && MDIA == Code("mdia")
    ensures MINF == Code("minf") && STBL == Code("stbl") && STSD == Code("stsd")
  {
    hide Code;
    CodeValue("trak");
    CodeValue("tkhd");
    CodeValue("mdia");
    CodeValue("minf");
    CodeValue("stbl");
    CodeValue("stsd");
  }

  lemma ProtectionNames()
    ensures SINF == Code("sinf") && FRMA == Code("frma") && SCHM == Code("schm")
    ensures SCHI == Code("schi") && TENC == Code("tenc")
  {
    hide Code;
    CodeValue("sinf");
    CodeValue("frma");
    CodeValue("schm");
    CodeValue("schi");
    CodeValue("tenc");
  }

  lemma FragmentNames()
    ensures TRAF == Code("traf") && TFHD == Code("tfhd") && TRUN == Code("trun")
    ensures SENC == Code("senc") && SAIZ == Code("saiz") && SAIO == Code("saio")
  {
    hide Code;
    CodeValue("traf");
    CodeValue("tfhd");
    CodeValue("trun");
    CodeValue("senc");
    CodeValue("saiz");
    CodeValue("saio");
  }

  datatype Atom = Atom(atomType: Fourcc, data: seq<byte>)

  /** One attempt to read a box at the front of a buffer: the box and the bytes it used up. */
  datatype Read = Box(atom: Atom, used: nat) | NoBox

  function Pack(a: Atom): (s: seq<byte>)
    ensures |s| == 8 + |a.data|
  {
    ToBE(|a.data| + 8, 4) + ToBE(a.atomType, 4) + a.data
  }

  function PackAll(atoms: seq<Atom>): seq<byte> {
    if atoms == [] then [] else Pack(atoms[0]) + PackAll(atoms[1..])
  }

  /** Read the first box of `s`, all of which is available. */
  function ReadFirst(s: seq<byte>): (r: Read)
    ensures r.Box? ==> 8 <= r.used <= |s| && |r.atom.data| + 8 <= r.used
  {
    if |s| < 8 then NoBox
    else
      var rawSize := U32(s[..4]);
      if rawSize == 1 && |s| < 16 then NoBox
      else
        var headerLen := if rawSize == 1 then 16 else 8;
        var size := if rawSize == 1 then U64(s[8..16]) else if rawSize == 0 then |s| else rawSize;
        if size < headerLen || size > |s| then NoBox
        else Box(Atom(U32(s[4..8]), s[headerLen..size]), size)
  }

  /** Every box the parser finds from the front of `s` on. */
  function Parse(s: seq<byte>): seq<Atom> {
    var r := ReadFirst(s);
    if r.NoBox? then [] else [r.atom] + Parse(s[r.used..])
  }

  /** How many bytes of `s` those boxes cover. */
  function Covered(s: seq<byte>): (n: nat)
    ensures n <= |s|
  {
    var r := ReadFirst(s);
    if r.NoBox? then 0 else r.used + Covered(s[r.used..])
  }

  // ----- Reads that abort -----

  /** One more than the largest address. */
  const ADDRESSES: nat := 0x1_0000_0000_0000_0000

  /** The header of the box at position `pos`, from where on the buffer holds `s`, announces a 64-bit size with which
      the end of the box, computed as an address, wraps. The program takes it for a box inside the buffer and then
      slices from behind its own end. */
  predicate Wraps(s: seq<byte>, pos: nat) {
    |s| >= 16 && U32(s[..4]) == 1 && U64(s[8..16]) >= 16 && pos + U64(s[8..16]) >= ADDRESSES
  }

  /** Can all boxes from `pos` on be listed without such an abort? */
  predicate Listable(s: seq<byte>, pos: nat)
    decreases |s|
  {
    !Wraps(s, pos) && (ReadFirst(s).Box? ==> Listable(s[ReadFirst(s).used..], pos + ReadFirst(s).used))
  }

  /** The same for at most `n` reads. */
  predicate ListableFew(s: seq<byte>, pos: nat, n: nat)
    decreases |s|
  {
    n == 0
    || (!Wraps(s, pos) && (ReadFirst(s).Box? ==> ListableFew(s[ReadFirst(s).used..], pos + ReadFirst(s).used, n - 1)))
  }

  predicate Lists(s: seq<byte>) {
    Listable(s, 0)
  }

  /** What listing a buffer yields; `None` if it aborts. */
  function Listing(s: seq<byte>): Option<seq<Atom>> {
    if Lists(s) then Some(Parse(s)) else None
  }

  lemma CompleteBox(s: seq<byte>, pos: nat)
    requires pos + |s| < ADDRESSES && ReadFirst(s).Box?
    ensures !Wraps(s, pos)
  {
  }

  /** Only the unfinished box behind the complete ones can abort a listing. */
  lemma {:induction false} ListableExactly(s: seq<byte>, pos: nat)
    requires pos + |s| < ADDRESSES
    ensures Listable(s, pos) <==> !Wraps(s[Covered(s)..], pos + Covered(s))
    decreases |s|
  {
    hide Wraps, ReadFirst;
    var r := ReadFirst(s);
    if r.Box? {
      CompleteBox(s, pos);
      ListableExactly(s[r.used..], pos + r.used);
      Suffix(s, r.used, Covered(s[r.used..]));
    }
  }

  /** The listing from `pos` on, one read further; fewer than eight bytes hold no box. */
  lemma ListingStep(s: seq<byte>, pos: nat)
    ensures Wraps(s, pos) ==> !Listable(s, pos) && |s| >= 8
    ensures |s| < 8 ==> ReadFirst(s).NoBox?
    ensures !Wraps(s, pos) ==>
              match ReadFirst(s)
              case NoBox => Listable(s, pos) && Parse(s) == []
              case Box(a, used) =>
                Parse(s) == [a] + Parse(s[used..]) && Listable(s, pos) == Listable(s[used..], pos + used)
  {
  }

  // ----- The parser object -----

  /** One read: a box and the position behind it, or no box, or the abort. */
  datatype Attempt = Found(atom: Atom, next: nat) | Nothing | Crash

  /** What a read at `pos` finds when the buffer goes on with `s`. */
  function AttemptAt(s: seq<byte>, pos: nat): Attempt {
    if Wraps(s, pos) then Crash
    else
      match ReadFirst(s)
      case NoBox => Nothing
      case Box(a, used) => Found(a, pos + used)
  }

  /** A buffer and a read position. */
  class Mp4Parser {
    const data: seq<byte>
    var position: nat

    constructor (data: seq<byte>)
      ensures this.data == data && position == 0
    {
      this.data := data;
      position := 0;
    }

    /** Reads one box between `pos` and `end`; never looks outside that window. The test for the abort stands for the
        slice that fails: see `MachineAgreement`. */
    method ReadAtomAt(pos: nat, end: nat) returns (r: Attempt)
      requires pos <= end <= |data|
      ensures r == AttemptAt(data[pos..end], pos)
    {
      if pos + 8 > end {
        return Nothing;
      }
      SliceOfSlice(data, pos, end, 0, 4);
      SliceOfSlice(data, pos, end, 4, 8);
      var rawSize := U32(data[pos..pos + 4]);
      var atomType := U32(data[pos + 4..pos + 8]);
      var headerLen := 8;
      var size;
      if rawSize == 1 {
        if pos + 16 > end {
          return Nothing;
        }
        SliceOfSlice(data, pos, end, 8, 16);
        headerLen := 16;
        size := U64(data[pos + 8..pos + 16]);
      } else if rawSize == 0 {
        size := end - pos;
      } else {
        size := rawSize;
      }
      if size < headerLen {
        return Nothing;
      }
      if rawSize == 1 && pos + size >= ADDRESSES {
        return Crash;
      }
      if pos + size > end {
        return Nothing;
      }
      SliceOfSlice(data, pos, end, headerLen, size);
      r := Found(Atom(atomType, data[pos + headerLen..pos + size]), pos + size);
    }

    method ReadAtom() returns (r: Attempt)
      requires position <= |data|
      modifies this`position
      ensures r == AttemptAt(data[old(position)..], old(position))
      ensures position == (if r.Found? then r.next else old(position)) && position <= |data|
    {
      assert data[position..|data|] == data[position..];
      r := ReadAtomAt(position, |data|);
      if r.Found? {
        position := r.next;
      }
    }

    /** Lists every top-level box and leaves the read position where it was. */
    method ListAtoms() returns (atoms: Option<seq<Atom>>)
      modifies this`position
      ensures atoms == Listing(data)
      ensures atoms.Some? ==> position == old(position)
    {
      hide Parse, Listable, ReadFirst, Wraps;
      var saved := position;
      position := 0;
      var found := [];
      assert data[0..] == data;
      while position + 8 <= |data|
        invariant position <= |data|
        invariant found + Parse(data[position..]) == Parse(data)
        invariant Listable(data[position..], position) == Lists(data)
        decreases |data| - position
      {
        ghost var rest := data[position..];
        ListingStep(rest, position);
        var a := ReadAtom();
        match a {
          case Crash =>
            return None;
          case Nothing =>
            break;
          case Found(atom, next) =>
            assert rest[ReadFirst(rest).used..] == data[position..];
            AppendAssoc(found, [atom], Parse(data[position..]));
            found := found + [atom];
        }
      }
      ListingStep(data[position..], position);
      assert found + [] == found;
      position := saved;
      atoms := Some(found);
    }
  }

  /** The boxes inside another box. */
  method ChildrenOf(parentData: seq<byte>) returns (children: Option<seq<Atom>>)
    ensures children == Listing(parentData)
  {
    var parser := new Mp4Parser(parentData);
    children := parser.ListAtoms();
  }

  // ----- Round trips -----

  /** The header stores a box's size in 32 bits; this is when it can. */
  predicate Fits(a: Atom) {
    |a.data| + 8 < 0x1_0000_0000
  }

  /** The size field truncates to 0, which a reader takes to mean "up to the end of the buffer". */
  predicate WrapsToZero(a: Atom) {
    (|a.data| + 8) % 0x1_0000_0000 == 0
  }

  /** Every box fits; only the last one may instead wrap to the "rest of the buffer" size. */
  predicate Printable(atoms: seq<Atom>) {
    forall i :: 0 <= i < |atoms| ==> Fits(atoms[i]) || (i == |atoms| - 1 && WrapsToZero(atoms[i]))
  }

  predicate AllFit(atoms: seq<Atom>) {
    forall i :: 0 <= i < |atoms| ==> Fits(atoms[i])
  }

  lemma PackHeader(a: Atom, rest: seq<byte>)
    ensures (Pack(a) + rest)[..4] == ToBE(|a.data| + 8, 4)
    ensures U32((Pack(a) + rest)[..4]) == (|a.data| + 8) % 0x1_0000_0000
    ensures U32((Pack(a) + rest)[4..8]) == a.atomType
    ensures (Pack(a) + rest)[8..8 + |a.data|] == a.data
    ensures (Pack(a) + rest)[8 + |a.data|..] == rest
  {
    var s := Pack(a) + rest;
    assert s[..4] == ToBE(|a.data| + 8, 4);
    assert s[4..8] == ToBE(a.atomType, 4);
    Pow256Values();
    FromBEToBE(|a.data| + 8, 4);
    FromBEToBEFits(a.atomType, 4);
  }

  lemma ReadPacked(a: Atom, rest: seq<byte>)
    requires Fits(a) || (rest == [] && WrapsToZero(a))
    ensures ReadFirst(Pack(a) + rest) == Box(a, 8 + |a.data|)
  {
    hide Pack;
    PackHeader(a, rest);
  }

  lemma {:induction false} PackedLength(s: seq<byte>)
    ensures |PackAll(Parse(s))| <= Covered(s)
  {
    var r := ReadFirst(s);
    if r.Box? {
      PackedLength(s[r.used..]);
      assert Parse(s)[1..] == Parse(s[r.used..]);
    }
  }

  /** Parsing printed boxes gives the boxes back exactly when they are printable. */
  lemma {:induction false} RoundTrip(atoms: seq<Atom>)
    ensures Parse(PackAll(atoms)) == atoms <==> Printable(atoms)
  {
    if atoms != [] {
      var a, rest := atoms[0], atoms[1..];
      var s := PackAll(atoms);
      RoundTrip(rest);
      PackHeader(a, PackAll(rest));
      if Printable(atoms) {
        assert rest == [] ==> PackAll(rest) == [];
        ReadPacked(a, PackAll(rest));
        assert forall i :: 0 <= i < |rest| ==> rest[i] == atoms[i + 1];
        assert s[8 + |a.data|..] == PackAll(rest);
      }
      if Parse(s) == atoms {
        ParsedBackIsPrintable(atoms);
      }
    }
  }

  /** The hard half of `RoundTrip`: nothing else parses back, extended sizes included. */
  lemma ParsedBackIsPrintable(atoms: seq<Atom>)
    requires atoms != [] && Parse(PackAll(atoms)) == atoms
    requires Parse(PackAll(atoms[1..])) == atoms[1..] <==> Printable(atoms[1..])
    ensures Printable(atoms)
  {
    var a, rest := atoms[0], atoms[1..];
    var s := PackAll(atoms);
    var r := ReadFirst(s);
    PackHeader(a, PackAll(rest));
    assert r.Box? && r.atom == a;
    assert Parse(s)[1..] == Parse(s[r.used..]) == rest;
    PackedLength(s[r.used..]);
    assert r.used == 8 + |a.data|;
    assert s[r.used..] == PackAll(rest);
    assert forall i :: 1 <= i < |atoms| ==> atoms[i] == rest[i - 1];
  }

  // ----- The other forms of a header (section 4.2 of ISO/IEC 14496-12) -----

  /** A box as a file may hold it: with a 32-bit size, with a 64-bit one, or up to the end. */
  datatype Form = Short(box: Atom) | Wide(box: Atom) | Open(box: Atom)

  function PackForm(f: Form): (s: seq<byte>)
    ensures |s| == |f.box.data| + if f.Wide? then 16 else 8
  {
    match f
    case Short(a) => ToBE(|a.data| + 8, 4) + ToBE(a.atomType, 4) + a.data
    case Wide(a) => ToBE(1, 4) + ToBE(a.atomType, 4) + ToBE(|a.data| + 16, 8) + a.data
    case Open(a) => ToBE(0, 4) + ToBE(a.atomType, 4) + a.data
  }

  function PackForms(forms: seq<Form>): seq<byte> {
    if forms == [] then [] else PackForm(forms[0]) + PackForms(forms[1..])
  }

  function BoxesOf(forms: seq<Form>): seq<Atom> {
    if forms == [] then [] else [forms[0].box] + BoxesOf(forms[1..])
  }

  /** Sizes fit their fields, and only the last box runs to the end. */
  predicate Writable(forms: seq<Form>) {
    forall i :: 0 <= i < |forms| ==>
      match forms[i]
      case Short(a) => |a.data| + 8 < 0x1_0000_0000
      case Wide(a) => |a.data| + 16 < ADDRESSES
      case Open(_) => i == |forms| - 1
  }

  lemma FourParts(a: seq<byte>, b: seq<byte>, c: seq<byte>, data: seq<byte>, rest: seq<byte>)
    requires |a| == 4 && |b| == 4
    ensures var s, n := a + b + c + data + rest, 8 + |c|;
            && s[..4] == a && s[4..8] == b && s[8..n] == c && s[n..n + |data|] == data
  {
    var s, n := a + b + c + data + rest, 8 + |c|;
    assert s[..4] == a;
    assert s[4..8] == b;
    assert s[8..n] == c;
    assert s[n..n + |data|] == data;
  }

  lemma FormRead(f: Form, rest: seq<byte>)
    requires Writable([f]) && (f.Open? ==> rest == [])
    ensures ReadFirst(PackForm(f) + rest) == Box(f.box, |PackForm(f)|)
  {
    hide ToBE, FromBE;
    assert [f][0] == f;
    var a := f.box;
    Pow256Values();
    FromBEToBEFits(a.atomType, 4);
    match f {
      case Short(_) =>
        FromBEToBEFits(|a.data| + 8, 4);
        FourParts(ToBE(|a.data| + 8, 4), ToBE(a.atomType, 4), [], a.data, rest);
        assert ToBE(|a.data| + 8, 4) + ToBE(a.atomType, 4) + [] == ToBE(|a.data| + 8, 4) + ToBE(a.atomType, 4);
      case Wide(_) =>
        FromBEToBEFits(1, 4);
        FromBEToBEFits(|a.data| + 16, 8);
        FourParts(ToBE(1, 4), ToBE(a.atomType, 4), ToBE(|a.data| + 16, 8), a.data, rest);
      case Open(_) =>
        FromBEToBEFits(0, 4);
        FourParts(ToBE(0, 4), ToBE(a.atomType, 4), [], a.data, []);
        assert ToBE(0, 4) + ToBE(a.atomType, 4) + [] == ToBE(0, 4) + ToBE(a.atomType, 4);
    }
  }

  /** Boxes are found whichever form their headers have. */
  lemma {:induction false} FormsRead(forms: seq<Form>)
    requires Writable(forms)
    ensures Parse(PackForms(forms)) == BoxesOf(forms)
    decreases |forms|
  {
    hide PackForm;
    if forms != [] {
      var rest := forms[1..];
      assert forall i :: 0 <= i < |rest| ==> rest[i] == forms[i + 1];
      FormsRead(rest);
      assert forms[0].Open? ==> rest == [];
      FormRead(forms[0], PackForms(rest));
      assert PackForms(forms)[|PackForm(forms[0])|..] == PackForms(rest);
    } else {
      assert PackForms(forms) == [];
    }
  }

  /** Printed boxes have no wide headers, so listing them does not abort. */
  lemma {:induction false} PrintedLists(atoms: seq<Atom>, pos: nat)
    requires Printable(atoms)
    ensures Listable(PackAll(atoms), pos)
    decreases |atoms|
  {
    if atoms != [] {
      var a, rest := atoms[0], atoms[1..];
      assert forall i :: 0 <= i < |rest| ==> rest[i] == atoms[i + 1];
      PackHeader(a, PackAll(rest));
      ReadPacked(a, PackAll(rest));
      PrintedLists(rest, pos + 8 + |a.data|);
    }
  }

  /** Listing printed boxes gives the boxes back exactly when they are printable. */
  lemma ListedBack(atoms: seq<Atom>)
    ensures Listing(PackAll(atoms)) == Some(atoms) <==> Printable(atoms)
  {
    RoundTrip(atoms);
    if Printable(atoms) {
      PrintedLists(atoms, 0);
    }
  }

  /** Everything parsed out of a buffer below 4 GiB fits a 32-bit header, extended headers included. */
  lemma {:induction false} ParsedFit(s: seq<byte>)
    requires |s| < 0x1_0000_0000
    ensures AllFit(Parse(s))
  {
    var r := ReadFirst(s);
    if r.Box? {
      ParsedFit(s[r.used..]);
      var rest := Parse(s[r.used..]);
      forall i | 0 <= i < |Parse(s)| ensures Fits(Parse(s)[i]) {
        if i > 0 {
          assert Parse(s)[i] == rest[i - 1];
        }
      }
    }
  }

  /** Printing what was listed and listing again changes nothing, although headers may shrink. */
  lemma ReparseStable(s: seq<byte>)
    requires Listing(s).Some?
    ensures Listing(PackAll(Listing(s).value)) == Listing(s) <==> Printable(Listing(s).value)
    ensures |s| < 0x1_0000_0000 ==> Listing(PackAll(Listing(s).value)) == Listing(s)
    ensures |PackAll(Listing(s).value)| <= |s|
  {
    ListedBack(Parse(s));
    PackedLength(s);
    if |s| < 0x1_0000_0000 {
      ParsedFit(s);
    }
  }

  // ----- Concatenation -----

  lemma {:induction false} PackAllConcat(a: seq<Atom>, b: seq<Atom>)
    ensures PackAll(a + b) == PackAll(a) + PackAll(b)
  {
    hide Pack;
    if a == [] {
      assert a + b == b;
    } else {
      PackAllConcat(a[1..], b);
      ConcatTail(a, b);
      AppendAssoc(Pack(a[0]), PackAll(a[1..]), PackAll(b));
    }
  }

  /** A box that was read stays the same box when more bytes follow, unless it claimed "the rest". */
  lemma ReadMore(s: seq<byte>, more: seq<byte>)
    requires ReadFirst(s).Box? && U32(s[..4]) != 0
    ensures ReadFirst(s + more) == ReadFirst(s)
  {
    var t := s + more;
    assert t[..4] == s[..4] && t[4..8] == s[4..8];
    var r := ReadFirst(s);
    if |s| >= 16 {
      assert t[8..16] == s[8..16];
    }
    assert t[8..r.used] == s[8..r.used];
    if U32(s[..4]) == 1 {
      assert t[16..r.used] == s[16..r.used];
    }
  }

  // ----- Machine addition -----

  /** The read as the machine performs it, on a box of `size` bytes with a header of `headerLen` at `pos`: the end is an
      address and wraps, the bound test compares it, and a slice whose end lies before its start aborts. */
  function MachineRead(pos: nat, size: nat, headerLen: nat, end: nat): Attempt {
    var boxEnd := (pos + size) % ADDRESSES;
    if size < headerLen || boxEnd > end then Nothing
    else if pos + headerLen > boxEnd then Crash
    else Found(Atom(0, []), boxEnd)
  }

  /** In any buffer the machine can hold, this is what the model says: it aborts exactly when the sum reaches 2^64, and
      finds a box exactly when the exact sum is inside the buffer. Sizes that are not 64 bits wide never get there. */
  lemma MachineAgreement(pos: nat, size: nat, headerLen: nat, end: nat)
    requires pos + headerLen <= end < 0x8000_0000_0000_0000 && size < ADDRESSES
    ensures MachineRead(pos, size, headerLen, end).Crash? <==> size >= headerLen && pos + size >= ADDRESSES
    ensures MachineRead(pos, size, headerLen, end).Found? <==> headerLen <= size <= end - pos
    ensures MachineRead(pos, size, headerLen, end).Found? ==> MachineRead(pos, size, headerLen, end).next == pos + size
    ensures size < 0x1_0000_0000 || size <= end - pos ==> !MachineRead(pos, size, headerLen, end).Crash?
  {
    if pos + size >= ADDRESSES {
      ModUnique(pos + size, ADDRESSES, 1, pos + size - ADDRESSES);
    } else {
      ModUnique(pos + size, ADDRESSES, 0, pos + size);
    }
  }
}
