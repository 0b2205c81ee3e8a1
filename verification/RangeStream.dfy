/** Serving a byte range of a remote file through aligned block requests to a server that may fail
    (src/telegram/session.rs:594-791). */
module RangeStream {
  import opened Bytes

  const MAX_CHUNK: nat := 512 * 1024
  const MAX_RECONNECTS: nat := 6

  /** What the network does to one request: the server answers it, the connection drops, the server refuses it,
      or it points to another server. */
  datatype Reply = Serve | Drop | Refuse | Redirect

  /** The network over a whole stream: what happens to request number `k`, and whether reconnect number `c` works. */
  datatype Network = Network(reply: nat -> Reply, reconnects: nat -> bool)

  datatype Fetched = Data(bytes: seq<byte>) | Eof | Failed

  /** The block the server holds at `offset`. */
  function BlockAt(file: seq<byte>, offset: nat): (b: seq<byte>)
    ensures |b| <= MAX_CHUNK
  {
    if offset >= |file| then [] else file[offset..Min(offset + MAX_CHUNK, |file|)]
  }

  /** Requests for one block until one is answered: the result, the reconnects used so far, and the next request number.
      */
  function Fetch(file: seq<byte>, net: Network, offset: nat, count: nat, k: nat): (r: (Fetched, nat, nat))
    ensures r.0.Data? ==> r.0.bytes == BlockAt(file, offset) && r.0.bytes != []
    ensures r.0.Eof? ==> offset >= |file|
    decreases MAX_RECONNECTS - count
  {
    match net.reply(k)
    case Serve => (if BlockAt(file, offset) == [] then Eof else Data(BlockAt(file, offset)), count, k + 1)
    case Drop =>
      if count >= MAX_RECONNECTS then (Failed, count, k + 1)
      else if !net.reconnects(count) then (Failed, count + 1, k + 1)
      else Fetch(file, net, offset, count + 1, k + 1)
    case _ => (Failed, count, k + 1)
  }

  /** The retry loop. `reconnectCount` lives as long as the stream, not as one block. The server takes offsets that are
      multiples of 4 KiB only. */
  method FetchChunk(file: seq<byte>, net: Network, chunkOffset: nat, reconnectCount: nat, request: nat)
    returns (r: Fetched, reconnectCount': nat, request': nat)
    requires chunkOffset % 0x1000 == 0
    ensures (r, reconnectCount', request') == Fetch(file, net, chunkOffset, reconnectCount, request)
  {
    reconnectCount', request' := reconnectCount, request;
    while true
      invariant Fetch(file, net, chunkOffset, reconnectCount', request')
                == Fetch(file, net, chunkOffset, reconnectCount, request)
      decreases MAX_RECONNECTS - reconnectCount'
    {
      var reply := net.reply(request');
      request' := request' + 1;
      if reply == Drop {
        if reconnectCount' >= MAX_RECONNECTS {
          return Failed, reconnectCount', request';
        }
        reconnectCount' := reconnectCount' + 1;
        if !net.reconnects(reconnectCount' - 1) {
          return Failed, reconnectCount', request';
        }
        continue;
      }
      if reply == Serve {
        var bytes := BlockAt(file, chunkOffset);
        return if bytes == [] then Eof else Data(bytes), reconnectCount', request';
      }
      return Failed, reconnectCount', request';
    }
  }

  // ----- What should come out -----

  /** The requested bytes, as far as the file has them. */
  function Slice(file: seq<byte>, start: nat, end: nat): seq<byte> {
    if start <= end && start < |file| then file[start..Min(end + 1, |file|)] else []
  }

  /** How many answered requests the stream needs from `offset` on. */
  function Needed(file: seq<byte>, offset: nat, end: nat): (n: nat)
    ensures n > 0
    decreases |file| - offset
  {
    var block := BlockAt(file, offset);
    if |block| < MAX_CHUNK || offset + |block| > end then 1 else 1 + Needed(file, offset + |block|, end)
  }

  /** Does the network answer `needed` more requests within the reconnect budget, with every reconnect working and no
      other failure in between? */
  predicate Survives(net: Network, count: nat, k: nat, needed: nat)
    decreases needed, MAX_RECONNECTS - count
  {
    needed == 0 ||
    match net.reply(k)
    case Serve => Survives(net, count, k + 1, needed - 1)
    case Drop => count < MAX_RECONNECTS && net.reconnects(count) && Survives(net, count + 1, k + 1, needed)
    case _ => false
  }

  /** One block costs one answered request. */
  lemma {:induction false} FetchSpends(file: seq<byte>, net: Network, offset: nat, count: nat, k: nat, needed: nat)
    requires needed > 0
    ensures var (r, count', k') := Fetch(file, net, offset, count, k);
            Survives(net, count, k, needed) <==> !r.Failed? && Survives(net, count', k', needed - 1)
    decreases MAX_RECONNECTS - count
  {
    if net.reply(k).Drop? && count < MAX_RECONNECTS && net.reconnects(count) {
      FetchSpends(file, net, offset, count + 1, k + 1, needed);
    }
  }

  // ----- The stream -----

  function WrapU64(n: int): nat {
    n % 0x1_0000_0000_0000_0000
  }

  /** The part of a block at `offset` that the range covers. */
  function Overlap(block: seq<byte>, offset: nat, start: nat, end: nat): seq<byte> {
    var from := if start > offset then start - offset else 0;
    var to := Min(end + 1, offset + |block|);
    if from + offset < to then block[from..to - offset] else []
  }

  /** What of the range lies before `offset`. */
  function Before(file: seq<byte>, start: nat, end: nat, offset: nat): seq<byte> {
    var to := Min(Min(end + 1, offset), |file|);
    if start < to then file[start..to] else []
  }

  lemma OneBlockFurther(file: seq<byte>, start: nat, end: nat, offset: nat)
    requires offset < |file|
    ensures var block := BlockAt(file, offset);
            Before(file, start, end, offset) + Overlap(block, offset, start, end)
            == Before(file, start, end, offset + |block|)
  {
    hide Before, Overlap;
    PieceFurther(file, start, end, offset, |BlockAt(file, offset)|);
  }

  lemma PieceFurther(file: seq<byte>, start: nat, end: nat, offset: nat, n: nat)
    requires offset + n <= |file|
    ensures Before(file, start, end, offset) + Overlap(file[offset..offset + n], offset, start, end)
            == Before(file, start, end, offset + n)
  {
    var to := Min(end + 1, offset + n);
    PieceOverlap(file, start, end, offset, n, to);
    if start < offset < to {
      SliceConcat(file, start, offset, to);
    } else if start < offset {
      assert Min(Min(end + 1, offset), |file|) == Min(Min(end + 1, offset + n), |file|);
    }
  }

  lemma PieceOverlap(file: seq<byte>, start: nat, end: nat, offset: nat, n: nat, to: nat)
    requires offset + n <= |file| && to == Min(end + 1, offset + n)
    ensures var from := if start > offset then start else offset;
            Overlap(file[offset..offset + n], offset, start, end) == if from < to then file[from..to] else []
  {
    var from := if start > offset then start else offset;
    if from < to {
      SliceOfSlice(file, offset, offset + n, from - offset, to - offset);
    }
  }

  lemma AllBefore(file: seq<byte>, start: nat, end: nat, offset: nat)
    requires offset > end || offset >= |file|
    ensures Before(file, start, end, offset) == Slice(file, start, end)
  {
  }

  lemma BeforeIsPrefix(file: seq<byte>, start: nat, end: nat, offset: nat)
    ensures Before(file, start, end, offset) <= Slice(file, start, end)
  {
    var part, whole := Before(file, start, end, offset), Slice(file, start, end);
    if part != [] {
      assert whole[..|part|] == part;
    }
  }

  /** The slice of one block that goes out; empty if the block lies outside the range. */
  method CutPayload(rawBytes: seq<byte>, chunkOffset: nat, start: nat, end: nat) returns (payload: seq<byte>)
    requires rawBytes != []
    ensures payload == Overlap(rawBytes, chunkOffset, start, end)
  {
    var chunkFileEnd := chunkOffset + |rawBytes| - 1;
    var sliceStart := if start > chunkOffset then start else chunkOffset;
    var sliceEnd := Min(end, chunkFileEnd);
    if sliceStart <= sliceEnd {
      payload := rawBytes[sliceStart - chunkOffset..sliceEnd - chunkOffset + 1];
    } else {
      payload := [];
    }
  }

  /** Facts about the block at `offset` that the loop needs. */
  lemma BlockFacts(file: seq<byte>, offset: nat, end: nat)
    ensures var block := BlockAt(file, offset);
            && |block| <= MAX_CHUNK && (block != [] <==> offset < |file|)
            && (offset < |file| ==> offset + |block| <= |file|)
            && (|block| < MAX_CHUNK ==> offset + |block| >= |file|)
            && Needed(file, offset, end)
               == if |block| < MAX_CHUNK || offset + |block| > end then 1 else 1 + Needed(file, offset + |block|, end)
  {
  }

  lemma NothingNeeded(net: Network, count: nat, k: nat)
    ensures Survives(net, count, k, 0)
  {
  }

  /** Streams bytes `start` to `end`, both included. Whatever the network does, only a prefix of the requested bytes
      goes out; the stream ends without an error exactly when the network survives as many requests as the range needs,
      and then everything has gone out. */
  method StreamDocumentRange(file: seq<byte>, net: Network, start: nat, end: nat)
    returns (emitted: seq<seq<byte>>, failed: bool)
    requires start < 0x1_0000_0000_0000_0000 && end + 1 < 0x1_0000_0000_0000_0000
    ensures Joined(emitted) <= Slice(file, start, end)
    ensures !failed ==> Joined(emitted) == Slice(file, start, end)
    ensures !failed <==> WrapU64(end - start + 1) == 0
                         || Survives(net, 0, 0, Needed(file, start / MAX_CHUNK * MAX_CHUNK, end))
  {
    hide Joined, Before, Slice, Overlap, Needed, Survives, Fetch, BlockAt;
    var alignedStart := start / MAX_CHUNK * MAX_CHUNK;
    var chunkOffset := alignedStart;
    var bytesEmitted := 0;
    var totalNeeded := WrapU64(end - start + 1);
    var reconnectCount, request := 0, 0;
    emitted, failed := [], false;
    NothingBefore(file, start, end, alignedStart);
    Aligned(start / MAX_CHUNK, 0);
    assert Joined<byte>([]) == [] by {
      JoinedNothing();
    }
    while true
      invariant Joined(emitted) == Before(file, start, end, chunkOffset) && bytesEmitted == |Joined(emitted)|
      invariant chunkOffset > alignedStart ==> chunkOffset <= |file| && chunkOffset <= end
      invariant chunkOffset % 0x1000 == 0
      invariant chunkOffset >= alignedStart && (totalNeeded == 0 ==> chunkOffset == alignedStart)
      invariant totalNeeded > 0 ==>
                  (Survives(net, 0, 0, Needed(file, alignedStart, end))
                   <==> Survives(net, reconnectCount, request, Needed(file, chunkOffset, end)))
      decreases |file| - chunkOffset
    {
      BeforeIsPrefix(file, start, end, chunkOffset);
      if bytesEmitted >= totalNeeded {
        BudgetNotSpent(file, start, end, chunkOffset, totalNeeded);
        return;
      }
      FetchSpends(file, net, chunkOffset, reconnectCount, request, Needed(file, chunkOffset, end));
      BlockFacts(file, chunkOffset, end);
      var fetched;
      fetched, reconnectCount, request := FetchChunk(file, net, chunkOffset, reconnectCount, request);
      match fetched {
        case Failed =>
          failed := true;
          return;
        case Eof =>
          NothingNeeded(net, reconnectCount, request);
          AllBefore(file, start, end, chunkOffset);
          return;
        case Data(rawBytes) =>
          var eof := |rawBytes| < MAX_CHUNK;
          NothingNeeded(net, reconnectCount, request);
          OneBlockFurther(file, start, end, chunkOffset);
          var payload := CutPayload(rawBytes, chunkOffset, start, end);
          if payload != [] {
            bytesEmitted := bytesEmitted + |payload|;
            JoinedMore(emitted, payload);
            emitted := emitted + [payload];
          } else {
            assert Joined(emitted) + [] == Joined(emitted);
          }
          Aligned(1, chunkOffset);
          chunkOffset := chunkOffset + |rawBytes|;
          if eof || chunkOffset > end {
            AllBefore(file, start, end, chunkOffset);
            return;
          }
      }
    }
  }

  lemma Aligned(blocks: nat, offset: nat)
    requires offset % 0x1000 == 0
    ensures (offset + blocks * MAX_CHUNK) % 0x1000 == 0
  {
    ModUnique(offset + blocks * MAX_CHUNK, 0x1000, offset / 0x1000 + 128 * blocks, 0);
  }

  lemma JoinedNothing()
    ensures Joined<byte>([]) == []
  {
  }

  lemma NothingBefore(file: seq<byte>, start: nat, end: nat, offset: nat)
    requires offset <= start
    ensures Before(file, start, end, offset) == []
  {
  }

  /** The byte count alone never ends a stream early: it is reached only when there is nothing to send at all. */
  lemma BudgetNotSpent(file: seq<byte>, start: nat, end: nat, offset: nat, total: nat)
    requires start < 0x1_0000_0000_0000_0000 && end + 1 < 0x1_0000_0000_0000_0000
    requires total == WrapU64(end - start + 1) && |Before(file, start, end, offset)| >= total
    requires offset <= end || offset == start / MAX_CHUNK * MAX_CHUNK
    ensures total == 0 && Slice(file, start, end) == []
    ensures Before(file, start, end, offset) == []
  {
  }

  /** A range inside the file takes one answered request for each 512 KiB block it touches. */
  lemma {:induction false} RequestsNeeded(file: seq<byte>, start: nat, end: nat)
    requires start <= end < |file|
    ensures Needed(file, start / MAX_CHUNK * MAX_CHUNK, end) == end / 0x8_0000 - start / 0x8_0000 + 1
    decreases end - start
  {
    hide Needed;
    var block, last := start / 0x8_0000, end / 0x8_0000;
    var offset := block * 0x8_0000;
    BlockFacts(file, offset, end);
    if block < last {
      var next := offset + 0x8_0000;
      assert next <= last * 0x8_0000 <= end;
      assert |BlockAt(file, offset)| == 0x8_0000;
      assert next / 0x8_0000 == block + 1;
      RequestsNeeded(file, next, end);
    }
  }

  // ----- The reconnect budget -----

  /** Connection drops among the first `k` requests. */
  function Drops(net: Network, k: nat): nat {
    if k == 0 then 0 else Drops(net, k - 1) + if net.reply(k - 1).Drop? then 1 else 0
  }

  /** A network that does nothing worse than drop connections, at most as often as the budget allows, is survived. */
  lemma {:induction false} BudgetSuffices(net: Network, count: nat, k: nat, needed: nat)
    requires forall i: nat :: net.reply(i).Serve? || net.reply(i).Drop?
    requires forall c: nat :: net.reconnects(c)
    requires forall i: nat :: Drops(net, i) <= 6
    requires count == Drops(net, k)
    ensures Survives(net, count, k, needed)
    decreases needed, MAX_RECONNECTS - count
  {
    if needed > 0 {
      assert Drops(net, k + 1) <= 6;
      if net.reply(k).Serve? {
        BudgetSuffices(net, count, k + 1, needed - 1);
      } else {
        BudgetSuffices(net, count + 1, k + 1, needed);
      }
    }
  }

  /** One drop more than the budget in a row is fatal, however little is needed. */
  lemma SeventhDropKills(net: Network, needed: nat)
    requires needed > 0 && forall i :: 0 <= i <= 6 ==> net.reply(i).Drop?
    ensures !Survives(net, 0, 0, needed)
  {
    DropsInARow(net, 0, needed);
  }

  lemma {:induction false} DropsInARow(net: Network, count: nat, needed: nat)
    requires needed > 0 && count <= MAX_RECONNECTS && forall i :: 0 <= i <= MAX_RECONNECTS ==> net.reply(i).Drop?
    ensures !Survives(net, count, count, needed)
    decreases MAX_RECONNECTS - count
  {
    if count < MAX_RECONNECTS {
      DropsInARow(net, count + 1, needed);
    }
  }
}
