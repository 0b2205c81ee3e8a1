/** Decrypting a byte stream box by box as it arrives, and its agreement with the batch form
    (src/drm/cenc.rs:1184-1375). */
module Streaming {
  import opened Bytes
  import opened Mp4Atom
  import opened Cipher
  import opened DecrypterState
  import opened Fragment
  import opened MediaData
  import opened Decrypter

  // ----- One pass over all bytes received so far -----

  /** What the front of the byte buffer says about the next box. A size below the header's own is taken as an empty
      body. */
  datatype Header = NeedMore | ToEnd | Head(headerLen: nat, boxType: Fourcc, bodyLen: nat)

  function ReadHeader(s: seq<byte>): (h: Header)
    ensures h.Head? ==> h.headerLen <= |s| && h.headerLen >= 8
  {
    if |s| < 8 then NeedMore
    else
      var size, boxType := U32(s[..4]), U32(s[4..8]);
      if size == 1 then
        if |s| < 16 then NeedMore else Head(16, boxType, if U64(s[8..16]) > 16 then U64(s[8..16]) - 16 else 0)
      else if size == 0 then ToEnd
      else Head(8, boxType, if size > 8 then size - 8 else 0)
  }

  /** The new state and the bytes sent on for one complete box; `None` if decryption aborts. */
  function Emit(aes: Aes, st: State, box: Atom): Option<(State, seq<byte>)> {
    if box.atomType == SIDX then Some((st, []))
    else if box.atomType == MOOF then
      if ReadableMoof(box) then Some((AfterMoof(st, box), Pack(CleanMoof(box, st.currentTrackId)))) else None
    else if box.atomType == MDAT then
      match DecryptedMdat(aes, st, box.data)
      case None => None
      case Some(data) => Some((st, Pack(Atom(MDAT, data))))
    else Some((st, Pack(box)))
  }

  /** `Running`: what was sent and the bytes of the box still being collected. `PassThrough`: a box without end was met
      and everything goes out unchanged from there on. `Aborted`: what was sent before a sample could not be decrypted.
      */
  datatype Outcome =
    | Running(st: State, out: seq<byte>, rest: seq<byte>)
    | PassThrough(st: State, out: seq<byte>)
    | Aborted(out: seq<byte>)

  function After(front: seq<byte>, o: Outcome): Outcome {
    o.(out := front + o.out)
  }

  function StreamAll(aes: Aes, st: State, s: seq<byte>): Outcome
    decreases |s|
  {
    match ReadHeader(s)
    case NeedMore => Running(st, [], s)
    case ToEnd => PassThrough(st, s)
    case Head(headerLen, boxType, bodyLen) =>
      if headerLen + bodyLen > |s| then Running(st, [], s)
      else
        match Emit(aes, st, Atom(boxType, s[headerLen..headerLen + bodyLen]))
        case None => Aborted([])
        case Some((st', bytes)) => After(bytes, StreamAll(aes, st', s[headerLen + bodyLen..]))
  }

  // ----- Chunk borders do not matter -----

  lemma HeaderStays(s: seq<byte>, more: seq<byte>)
    requires !ReadHeader(s).NeedMore?
    ensures ReadHeader(s + more) == ReadHeader(s)
  {
    var t := s + more;
    assert t[..4] == s[..4] && t[4..8] == s[4..8];
    if U32(s[..4]) == 1 {
      assert t[8..16] == s[8..16];
    }
  }

  lemma AfterTwice(a: seq<byte>, b: seq<byte>, o: Outcome)
    ensures After(a, After(b, o)) == After(a + b, o)
    ensures After([], o) == o
  {
    AppendAssoc(a, b, o.out);
    assert [] + o.out == o.out;
  }

  /** More bytes continue from wherever the bytes before them led. */
  function Continue(aes: Aes, o: Outcome, more: seq<byte>): Outcome {
    match o
    case Running(st, out, rest) => After(out, StreamAll(aes, st, rest + more))
    case PassThrough(st, out) => PassThrough(st, out + more)
    case Aborted(out) => Aborted(out)
  }

  /** Feeding bytes in two parts is feeding them at once. */
  lemma {:induction false} StreamExtends(aes: Aes, st: State, s: seq<byte>, more: seq<byte>)
    ensures StreamAll(aes, st, s + more) == Continue(aes, StreamAll(aes, st, s), more)
    decreases |s|
  {
    hide Emit, ReadHeader, After;
    var h := ReadHeader(s);
    if h.NeedMore? || (h.Head? && h.headerLen + h.bodyLen > |s|) {
      AfterTwice([], [], StreamAll(aes, st, s + more));
    } else {
      HeaderStays(s, more);
      if h.Head? {
        var n := h.headerLen + h.bodyLen;
        assert (s + more)[h.headerLen..n] == s[h.headerLen..n];
        assert (s + more)[n..] == s[n..] + more;
        var e := Emit(aes, st, Atom(h.boxType, s[h.headerLen..n]));
        if e.Some? {
          StreamExtends(aes, e.value.0, s[n..], more);
          ContinueAfter(aes, e.value.1, StreamAll(aes, e.value.0, s[n..]), more);
        }
      }
    }
  }

  lemma ContinueAfter(aes: Aes, front: seq<byte>, o: Outcome, more: seq<byte>)
    ensures Continue(aes, After(front, o), more) == After(front, Continue(aes, o, more))
  {
    match o {
      case Running(st, out, rest) => AfterTwice(front, out, StreamAll(aes, st, rest + more));
      case PassThrough(st, out) => AppendAssoc(front, out, more);
      case Aborted(out) =>
    }
  }

  /** Feeding a list of chunks one by one. */
  function FeedChunks(aes: Aes, o: Outcome, chunks: seq<seq<byte>>): Outcome
    decreases |chunks|
  {
    if chunks == [] then o else FeedChunks(aes, Continue(aes, o, chunks[0]), chunks[1..])
  }

  lemma {:induction false} FeedIsJoined(aes: Aes, st: State, s: seq<byte>, chunks: seq<seq<byte>>)
    ensures FeedChunks(aes, StreamAll(aes, st, s), chunks) == StreamAll(aes, st, s + Joined(chunks))
    decreases |chunks|
  {
    if chunks == [] {
      assert s + [] == s;
    } else {
      StreamExtends(aes, st, s, chunks[0]);
      FeedIsJoined(aes, st, s + chunks[0], chunks[1..]);
      AppendAssoc(s, chunks[0], Joined(chunks[1..]));
    }
  }

  /** Chunk independence: any two ways to cut the same bytes give the same output and final state. */
  lemma ChunkIndependence(aes: Aes, st: State, chunks: seq<seq<byte>>, others: seq<seq<byte>>)
    requires Joined(chunks) == Joined(others)
    ensures FeedChunks(aes, StreamAll(aes, st, []), chunks) == FeedChunks(aes, StreamAll(aes, st, []), others)
    ensures FeedChunks(aes, StreamAll(aes, st, []), chunks) == StreamAll(aes, st, Joined(chunks))
  {
    FeedIsJoined(aes, st, [], chunks);
    FeedIsJoined(aes, st, [], others);
    assert [] + Joined(chunks) == Joined(chunks) && [] + Joined(others) == Joined(others);
  }

  // ----- Agreement with the box parser -----

  /** A header the box parser and the stream read alike. */
  predicate GoodHeader(s: seq<byte>) {
    |s| < 8 || U32(s[..4]) >= 8 || (U32(s[..4]) == 1 && (|s| < 16 || U64(s[8..16]) >= 16))
  }

  /** All headers that the stream meets are good, the one of a last unfinished box included. */
  predicate GoodHeaders(s: seq<byte>)
    decreases |s|
  {
    GoodHeader(s) &&
    match ReadHeader(s)
    case Head(headerLen, _, bodyLen) => headerLen + bodyLen <= |s| ==> GoodHeaders(s[headerLen + bodyLen..])
    case _ => true
  }

  /** The complete boxes the stream sees, and whether it meets a box without end. */
  function SeenBoxes(s: seq<byte>): (r: (seq<Atom>, bool))
    decreases |s|
  {
    match ReadHeader(s)
    case NeedMore => ([], false)
    case ToEnd => ([], true)
    case Head(headerLen, boxType, bodyLen) =>
      if headerLen + bodyLen > |s| then ([], false)
      else
        var (rest, endless) := SeenBoxes(s[headerLen + bodyLen..]);
        ([Atom(boxType, s[headerLen..headerLen + bodyLen])] + rest, endless)
  }

  lemma GoodHeaderReads(s: seq<byte>)
    requires GoodHeader(s)
    ensures match ReadHeader(s)
            case NeedMore => ReadFirst(s).NoBox?
            case ToEnd => false
            case Head(headerLen, boxType, bodyLen) =>
              ReadFirst(s) == if headerLen + bodyLen > |s| then NoBox
                              else Box(Atom(boxType, s[headerLen..headerLen + bodyLen]), headerLen + bodyLen)
  {
  }

  /** The stream sees exactly the boxes a reader finds if and only if every header is good. */
  lemma {:induction false} SeenIsParsed(s: seq<byte>)
    ensures GoodHeaders(s) <==> SeenBoxes(s) == (Parse(s), false)
    decreases |s|
  {
    var h := ReadHeader(s);
    if GoodHeader(s) {
      GoodHeaderReads(s);
      if h.Head? && h.headerLen + h.bodyLen <= |s| {
        var n := h.headerLen + h.bodyLen;
        SeenIsParsed(s[n..]);
        var box := Atom(h.boxType, s[h.headerLen..n]);
        assert ([box] + SeenBoxes(s[n..]).0)[1..] == SeenBoxes(s[n..]).0;
        assert ([box] + Parse(s[n..]))[1..] == Parse(s[n..]);
      }
    } else if h.Head? {
      assert ReadFirst(s).NoBox?;
      assert SeenBoxes(s).0 != [];
    }
  }

  /** The stream sees exactly the boxes the parser lists if and only if every header is good and the listing does not
      abort. */
  lemma SeenIsListed(s: seq<byte>)
    ensures !SeenBoxes(s).1 && Listing(s) == Some(SeenBoxes(s).0) <==> GoodHeaders(s) && Lists(s)
  {
    hide Parse, Lists, GoodHeaders;
    SeenIsParsed(s);
    assert SeenBoxes(s) == (SeenBoxes(s).0, SeenBoxes(s).1);
  }

  /** Each box in turn: the simple form. */
  function Fold(aes: Aes, st: State, boxes: seq<Atom>): Option<(State, seq<byte>)>
    decreases |boxes|
  {
    if boxes == [] then Some((st, []))
    else
      match Emit(aes, st, boxes[0])
      case None => None
      case Some((st', bytes)) =>
        match Fold(aes, st', boxes[1..])
        case None => None
        case Some((st'', rest)) => Some((st'', bytes + rest))
  }

  lemma {:induction false} StreamIsFoldOfSeen(aes: Aes, st: State, s: seq<byte>)
    requires GoodHeaders(s)
    ensures match Fold(aes, st, Parse(s))
            case None => StreamAll(aes, st, s).Aborted?
            case Some((st', out)) => StreamAll(aes, st, s) == Running(st', out, s[Covered(s)..])
    decreases |s|
  {
    hide Emit, ReadHeader, ReadFirst, GoodHeader;
    GoodHeaderReads(s);
    var h := ReadHeader(s);
    if h.Head? && h.headerLen + h.bodyLen <= |s| {
      var n := h.headerLen + h.bodyLen;
      var box := Atom(h.boxType, s[h.headerLen..n]);
      assert Parse(s)[0] == box && Parse(s)[1..] == Parse(s[n..]);
      var e := Emit(aes, st, box);
      if e.Some? {
        StreamIsFoldOfSeen(aes, e.value.0, s[n..]);
        Suffix(s, n, Covered(s[n..]));
      }
    }
  }

  /** On good headers the stream is the fold over the boxes it sees, and a last unfinished box is dropped. These are the
      boxes the parser lists, unless the header of that unfinished box makes the listing abort. */
  lemma StreamIsFold(aes: Aes, st: State, s: seq<byte>)
    requires GoodHeaders(s)
    ensures match Fold(aes, st, SeenBoxes(s).0)
            case None => StreamAll(aes, st, s).Aborted?
            case Some((st', out)) => StreamAll(aes, st, s) == Running(st', out, s[Covered(s)..])
    ensures Listing(s) == if Lists(s) then Some(SeenBoxes(s).0) else None
    ensures |s| < ADDRESSES ==> (Lists(s) <==> !Wraps(s[Covered(s)..], Covered(s)))
  {
    hide Fold, StreamAll, Parse, Wraps, Lists, GoodHeaders;
    SeenIsParsed(s);
    StreamIsFoldOfSeen(aes, st, s);
    if |s| < ADDRESSES {
      ListsExactly(s);
    }
  }

  lemma ListsExactly(s: seq<byte>)
    requires |s| < ADDRESSES
    ensures Lists(s) <==> !Wraps(s[Covered(s)..], Covered(s))
  {
    hide Listable, Wraps, Covered;
    ListableExactly(s, 0);
  }

  // ----- The loop -----

  /** What arrives from upstream. */
  datatype Item = Chunk(bytes: seq<byte>) | Broken

  /** How a stream of output chunks ends: by itself, with an error as its last item, or because the program aborts. */
  datatype End = Finished | Failed | Dead

  /** The chunks before the first error. */
  function Received(items: seq<Item>): seq<byte> {
    if items == [] || items[0].Broken? then [] else items[0].bytes + Received(items[1..])
  }

  /** One round of the box loop. `Wait`: more bytes are needed. `Endless`: a box without end is at the front.
      `Next`: a box is complete, and these bytes go out for it. */
  datatype Step = Wait | Endless | Next(bytes: seq<byte>) | Abort

  /** The variables of the streaming loop. */
  class BoxStream {
    const decrypter: Mp4Decrypter
    var buf: seq<byte>
    var curType: Option<Fourcc>
    var curBody: seq<byte>
    var curBodyRemaining: nat
    ghost var head: seq<byte> // the header of the box being collected, already taken out of `buf`

    /** Bytes received that no output answers yet. */
    ghost function Pending(): seq<byte>
      reads this
    {
      head + curBody + buf
    }

    ghost predicate Valid()
      reads this
    {
      if curType.None? then head == [] && curBody == []
      else ReadHeader(head) == Head(|head|, curType.value, |curBody| + curBodyRemaining)
    }

    constructor (decrypter: Mp4Decrypter)
      ensures Valid() && Pending() == [] && this.decrypter == decrypter
    {
      this.decrypter := decrypter;
      buf, curType, curBody, curBodyRemaining, head := [], None, [], 0, [];
    }

    /** Takes the next header out of the buffer if it is complete. */
    method StartBox() returns (step: Step)
      requires Valid() && curType.None?
      modifies this
      ensures Pending() == old(Pending()) && Valid()
      ensures match ReadHeader(old(Pending()))
              case NeedMore => step == Wait
              case ToEnd => step == Endless && curType.None?
              case Head(headerLen, boxType, bodyLen) =>
                step == Next([]) && curType == Some(boxType) && |head| == headerLen && curBodyRemaining == bodyLen
                  && curBody == []
    {
      assert Pending() == buf;
      if |buf| < 8 {
        return Wait;
      }
      var size := U32(buf[..4]);
      var boxType := U32(buf[4..8]);
      var headerLen, bodyLen: nat;
      if size == 1 {
        if |buf| < 16 {
          return Wait;
        }
        var ext := U64(buf[8..16]);
        headerLen, bodyLen := 16, if ext > 16 then ext - 16 else 0;
      } else if size == 0 {
        return Endless;
      } else {
        headerLen, bodyLen := 8, if size > 8 then size - 8 else 0;
      }
      ghost var whole := buf;
      head := buf[..headerLen];
      FrontHeader(buf, headerLen);
      buf := buf[headerLen..];
      curType, curBodyRemaining, curBody := Some(boxType), bodyLen, [];
      Rejoined(whole, headerLen);
      step := Next([]);
    }

    /** Moves body bytes from the buffer into the box being collected. */
    method Collect()
      requires Valid() && curType.Some?
      modifies this
      ensures Pending() == old(Pending()) && Valid() && curType == old(curType) && head == old(head)
      ensures |curBody| + curBodyRemaining == |old(curBody)| + old(curBodyRemaining)
      ensures curBodyRemaining > 0 ==> buf == []
    {
      var take := Min(|buf|, curBodyRemaining);
      if take > 0 {
        ghost var before := Pending();
        assert before == head + (curBody + buf[..take]) + buf[take..];
        curBody := curBody + buf[..take];
        buf := buf[take..];
        curBodyRemaining := curBodyRemaining - take;
      }
    }

    method Receive(chunk: seq<byte>, ghost later: seq<byte>)
      requires Valid()
      modifies this
      ensures Valid() && Pending() == old(Pending()) + chunk
      ensures Pending() + later == old(Pending()) + (chunk + later)
    {
      ghost var before := Pending();
      buf := buf + chunk;
      assert Pending() == before + chunk;
      AppendAssoc(before, chunk, later);
    }

    method NextBox() returns (step: Step)
      requires Valid()
      modifies this, decrypter
      ensures Valid()
      ensures var aes, before := decrypter.aes, StreamAll(decrypter.aes, old(decrypter.State()), old(Pending()));
              match step
              case Wait =>
                && Pending() == old(Pending()) && decrypter.State() == old(decrypter.State())
                && before == Running(decrypter.State(), [], Pending())
              case Endless =>
                && Pending() == old(Pending()) && decrypter.State() == old(decrypter.State()) && buf == Pending()
                && |buf| >= 8
                && before == PassThrough(decrypter.State(), Pending())
              case Next(bytes) =>
                && |Pending()| < |old(Pending())|
                && before == After(bytes, StreamAll(aes, decrypter.State(), Pending()))
              case Abort => before == Aborted([])
    {
      hide Emit, ReadHeader, After;
      if curType.None? {
        var start := StartBox();
        if start != Next([]) {
          if start == Endless {
            EndlessHeader(Pending());
          }
          return start;
        }
      }
      Collect();
      ghost var pending, bodyLen := Pending(), |curBody| + curBodyRemaining;
      HeaderStays(head, curBody + buf) by {
        assert !ReadHeader(head).NeedMore?;
      }
      assert pending == head + (curBody + buf);
      if curBodyRemaining > 0 {
        return Wait;
      }
      StreamStep(decrypter.aes, decrypter.State(), head, curType.value, curBody, buf);
      var atom := Atom(curType.value, curBody);
      curType, curBody, head := None, [], [];
      assert Pending() == buf;
      step := EmitBox(atom);
    }

    /** Drops, cleans, decrypts or copies a complete box. */
    method EmitBox(atom: Atom) returns (step: Step)
      modifies decrypter
      ensures match Emit(decrypter.aes, old(decrypter.State()), atom)
              case None => step == Abort
              case Some((st', bytes)) => step == Next(bytes) && decrypter.State() == st'
    {
      if atom.atomType == SIDX {
        return Next([]);
      }
      var output := atom;
      if atom.atomType == MOOF {
        var moof := decrypter.ProcessMoof(atom);
        if moof == None {
          return Abort;
        }
        output := moof.value;
      } else if atom.atomType == MDAT {
        var r := decrypter.DecryptMdat(atom);
        if r == None {
          return Abort;
        }
        output := r.value;
      }
      step := Next(Pack(output));
    }
  }

  /** A complete box at the front. */
  lemma StreamStep(aes: Aes, st: State, head: seq<byte>, boxType: Fourcc, body: seq<byte>, rest: seq<byte>)
    requires ReadHeader(head + (body + rest)) == Head(|head|, boxType, |body|)
    ensures var e := Emit(aes, st, Atom(boxType, body));
            StreamAll(aes, st, head + (body + rest))
            == if e.None? then Aborted([]) else After(e.value.1, StreamAll(aes, e.value.0, rest))
  {
    hide Emit, ReadHeader, After;
    var all := head + (body + rest);
    assert all[|head|..|head| + |body|] == body && all[|head| + |body|..] == rest;
  }

  lemma Rejoined<T>(s: seq<T>, n: nat)
    requires n <= |s|
    ensures s[..n] + [] + s[n..] == s
  {
  }

  lemma FrontHeader(s: seq<byte>, headerLen: nat)
    requires ReadHeader(s).Head? && ReadHeader(s).headerLen == headerLen
    ensures ReadHeader(s[..headerLen]) == ReadHeader(s)
  {
    var h := s[..headerLen];
    assert h[..4] == s[..4] && h[4..8] == s[4..8];
    if headerLen == 16 {
      assert h[8..16] == s[8..16];
    }
  }

  lemma EndlessHeader(s: seq<byte>)
    requires ReadHeader(s).ToEnd?
    ensures |s| >= 8
  {
  }

  /** One box ahead, seen from a longer input. */
  lemma StepExtends(aes: Aes, st: State, pending: seq<byte>, later: seq<byte>)
    ensures StreamAll(aes, st, pending + later) == Continue(aes, StreamAll(aes, st, pending), later)
    ensures forall bytes: seq<byte>, st': State, pending': seq<byte> ::
              StreamAll(aes, st, pending) == After(bytes, StreamAll(aes, st', pending')) ==>
                StreamAll(aes, st, pending + later) == After(bytes, StreamAll(aes, st', pending' + later))
  {
    StreamExtends(aes, st, pending, later);
    forall bytes: seq<byte>, st': State, pending': seq<byte>
      | StreamAll(aes, st, pending) == After(bytes, StreamAll(aes, st', pending'))
      ensures StreamAll(aes, st, pending + later) == After(bytes, StreamAll(aes, st', pending' + later))
    {
      StreamExtends(aes, st', pending', later);
      ContinueAfter(aes, bytes, StreamAll(aes, st', pending'), later);
    }
  }

  /** The inner loop: every complete box goes out. `later` is whatever has not arrived yet. */
  method Drain(stream: BoxStream, ghost later: seq<byte>) returns (sent: seq<seq<byte>>, step: Step)
    requires stream.Valid()
    modifies stream, stream.decrypter
    ensures stream.Valid()
    ensures var aes := stream.decrypter.aes;
            var before := StreamAll(aes, old(stream.decrypter.State()), old(stream.Pending()) + later);
            match step
            case Wait =>
              && before == After(Joined(sent), StreamAll(aes, stream.decrypter.State(), stream.Pending() + later))
              && StreamAll(aes, stream.decrypter.State(), stream.Pending())
                 == Running(stream.decrypter.State(), [], stream.Pending())
            case Endless =>
              && before == PassThrough(stream.decrypter.State(), Joined(sent) + (stream.Pending() + later))
              && stream.buf == stream.Pending() && |stream.buf| >= 8
            case Next(_) => false
            case Abort => before == Aborted(Joined(sent))
  {
    hide StreamAll, Continue;
    ghost var aes := stream.decrypter.aes;
    ghost var before := StreamAll(aes, stream.decrypter.State(), stream.Pending() + later);
    sent := [];
    AfterTwice([], [], before);
    while true
      invariant stream.Valid()
      invariant before == After(Joined(sent), StreamAll(aes, stream.decrypter.State(), stream.Pending() + later))
      decreases |stream.Pending()|
    {
      ghost var st, pending := stream.decrypter.State(), stream.Pending();
      step := stream.NextBox();
      StepExtends(aes, st, pending, later);
      match step {
        case Wait =>
          return;
        case Next(bytes) =>
          AfterTwice(Joined(sent), bytes, StreamAll(aes, stream.decrypter.State(), stream.Pending() + later));
          if bytes != [] {
            JoinedMore(sent, bytes);
            sent := sent + [bytes];
          } else {
            assert Joined(sent) + [] == Joined(sent);
          }
        case Endless =>
          ContinueEnds(aes, StreamAll(aes, st, pending), later);
          return;
        case Abort =>
          ContinueEnds(aes, StreamAll(aes, st, pending), later);
          assert Joined(sent) + [] == Joined(sent);
          return;
      }
    }
  }

  lemma ContinueEnds(aes: Aes, o: Outcome, more: seq<byte>)
    ensures match o
            case Running(_, _, _) => true
            case PassThrough(st, out) => Continue(aes, o, more) == PassThrough(st, out + more)
            case Aborted(out) => Continue(aes, o, more) == o
  {
  }

  /** What priming from the initialization segment leaves, and what is sent for it; `None` if it aborts. */
  function Primed(keyMap: map<seq<byte>, Key>, init: seq<byte>, includeInit: bool): Option<(State, seq<byte>)> {
    var atoms := Parse(init);
    if includeInit then
      match CleanedInit(init)
      case None => None
      case Some(bytes) => Some((AfterInit(Fresh(keyMap), atoms), bytes))
    else if ReadableInit(init) then
      Some((AfterAllMoovs(Fresh(keyMap), atoms), []))
    else None
  }

  /** What is left of an endless box: the rest of the stream, unchanged, up to the first error. */
  method ForwardRest(items: seq<Item>, start: nat) returns (sent: seq<seq<byte>>, end: End)
    requires start <= |items|
    ensures Joined(sent) == Received(items[start..])
    ensures end == if AnyBroken(items[start..]) then Failed else Finished
  {
    sent := [];
    for i := start to |items|
      invariant Joined(sent) + Received(items[i..]) == Received(items[start..])
      invariant AnyBroken(items[start..]) == AnyBroken(items[i..])
    {
      assert items[i..][0] == items[i] && items[i..][1..] == items[i + 1..];
      match items[i] {
        case Broken =>
          return sent, Failed;
        case Chunk(bytes) =>
          JoinedMore(sent, bytes);
          AppendAssoc(Joined(sent), bytes, Received(items[i + 1..]));
          sent := sent + [bytes];
      }
    }
    assert items[|items|..] == [];
    end := Finished;
  }

  predicate AnyBroken(items: seq<Item>) {
    items != [] && (items[0].Broken? || AnyBroken(items[1..]))
  }

  /** Priming a fresh decrypter; the chunks sent for it, or `None` if it aborts. */
  method Prime(decrypter: Mp4Decrypter, init: seq<byte>, includeInit: bool) returns (first: Option<seq<seq<byte>>>)
    requires decrypter.State() == Fresh(decrypter.keyMap)
    modifies decrypter
    ensures match Primed(decrypter.keyMap, init, includeInit)
            case None => first == None
            case Some((st, bytes)) => first.Some? && Joined(first.value) == bytes && decrypter.State() == st
  {
    hide CleanedInit, AfterInit, AfterAllMoovs, ReadableInit;
    if includeInit {
      var cleaned := decrypter.ProcessInitOnly(init);
      if cleaned == None {
        return None;
      }
      assert cleaned.value + Joined([]) == cleaned.value;
      first := Some([cleaned.value]);
    } else {
      var ok := decrypter.InitFromSegment(init);
      first := if ok then Some([]) else None;
    }
  }

  /** What a whole streaming run sends, and how it ends. */
  predicate Sends(aes: Aes, keyMap: map<seq<byte>, Key>, init: seq<byte>, items: seq<Item>, includeInit: bool,
                  sent: seq<byte>, end: End)
  {
    if keyMap == map[] then sent == [] && end == Failed
    else
      match Primed(keyMap, init, includeInit)
      case None => sent == [] && end == Dead
      case Some((st, first)) =>
        var o := StreamAll(aes, st, Received(items));
        && sent == first + o.out
        && end == if o.Aborted? then Dead else if AnyBroken(items) then Failed else Finished
  }

  /** The state it leaves the decrypter in, unless it aborts. */
  predicate Leaves(aes: Aes, keyMap: map<seq<byte>, Key>, init: seq<byte>, items: seq<Item>, includeInit: bool,
                   final: State)
  {
    match Primed(keyMap, init, includeInit)
    case None => true
    case Some((st, _)) =>
      var o := StreamAll(aes, st, Received(items));
      keyMap == map[] || o.Aborted? || final == o.st
  }

  /** The streaming form. What goes out depends only on the bytes received before the first upstream error, not on
      how they were cut; `final` is the decrypter's state at the end. */
  method DecryptSegmentStreaming(aes: Aes, init: seq<byte>, items: seq<Item>, keyMap: map<seq<byte>, Key>,
                                 includeInit: bool)
    returns (downstream: seq<seq<byte>>, end: End, ghost final: State)
    ensures Sends(aes, keyMap, init, items, includeInit, Joined(downstream), end)
    ensures Leaves(aes, keyMap, init, items, includeInit, final)
  {
    hide StreamAll, Primed;
    if keyMap == map[] {
      return [], Failed, Fresh(keyMap);
    }
    var decrypter := new Mp4Decrypter(aes, keyMap);
    final := decrypter.State();
    var first := Prime(decrypter, init, includeInit);
    if first == None {
      return [], Dead, final;
    }
    var sent;
    ghost var st := decrypter.State();
    sent, end := StreamBoxes(decrypter, items);
    final := decrypter.State();
    JoinedConcat(first.value, sent);
    downstream := first.value + sent;
  }

  /** The header and the bytes buffered behind it go out as two chunks. */
  lemma JoinedFront(buf: seq<byte>, front: seq<seq<byte>>)
    requires |buf| >= 8 && front == if |buf| > 8 then [buf[..8], buf[8..]] else [buf[..8]]
    ensures Joined(front) == buf
  {
    assert Joined<byte>([]) == [];
    if |buf| > 8 {
      assert front[1..] == [buf[8..]] && front[1..][1..] == [];
      assert Joined(front[1..]) == buf[8..];
    } else {
      assert front[1..] == [];
    }
  }

  /** Everything after priming. */
  method StreamBoxes(decrypter: Mp4Decrypter, items: seq<Item>) returns (downstream: seq<seq<byte>>, end: End)
    modifies decrypter
    ensures var o := StreamAll(decrypter.aes, old(decrypter.State()), Received(items));
            && Joined(downstream) == o.out
            && end == (if o.Aborted? then Dead else if AnyBroken(items) then Failed else Finished)
            && (!o.Aborted? ==> decrypter.State() == o.st)
  {
    hide StreamAll;
    ghost var aes := decrypter.aes;
    ghost var o := StreamAll(aes, decrypter.State(), Received(items));
    var stream := new BoxStream(decrypter);
    assert items[0..] == items && [] + Received(items) == Received(items);
    AfterTwice([], [], o);
    downstream := [];
    var i := 0;
    while true
      invariant i <= |items| && stream.Valid() && stream.decrypter == decrypter && fresh(stream)
      invariant o == After(Joined(downstream),
                           StreamAll(aes, decrypter.State(), stream.Pending() + Received(items[i..])))
      invariant AnyBroken(items) == AnyBroken(items[i..])
      decreases |items| - i
    {
      ghost var later, before := Received(items[i..]), Joined(downstream);
      var sent, step := Drain(stream, later);
      JoinedConcat(downstream, sent);
      downstream := downstream + sent;
      if step == Abort {
        return downstream, Dead;
      }
      if step == Endless {
        var rest;
        rest, end := ForwardRest(items, i);
        var front := if |stream.buf| > 8 then [stream.buf[..8], stream.buf[8..]] else [stream.buf[..8]];
        JoinedFront(stream.buf, front);
        JoinedConcat(downstream, front);
        JoinedConcat(downstream + front, rest);
        AppendAssoc(before, Joined(sent), stream.buf + later);
        AppendAssoc(before + Joined(sent), stream.buf, later);
        downstream := downstream + front + rest;
        return;
      }
      AfterTwice(before, Joined(sent), StreamAll(aes, decrypter.State(), stream.Pending() + later));
      if i == |items| || items[i].Broken? {
        assert later == [] && stream.Pending() + [] == stream.Pending();
        assert Joined(downstream) + [] == Joined(downstream);
        return downstream, if i < |items| then Failed else Finished;
      }
      assert items[i..][0] == items[i] && items[i..][1..] == items[i + 1..];
      stream.Receive(items[i].bytes, Received(items[i + 1..]));
      i := i + 1;
    }
  }
}
