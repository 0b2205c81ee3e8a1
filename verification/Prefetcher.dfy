/** The queue of one playlist (src/hls/prebuffer.rs:77-151). */
module Prefetcher {
  import opened Bytes
  import opened CacheKey

  /** `url` at the front: moved there if it is queued, added otherwise. */
  function Promoted(queue: seq<Text>, url: Text): seq<Text> {
    [url] + WithoutOne(queue, url)
  }

  function WithoutOne(queue: seq<Text>, url: Text): seq<Text> {
    if queue == [] then []
    else if queue[0] == url then queue[1..]
    else [queue[0]] + WithoutOne(queue[1..], url)
  }

  function Others(queue: seq<Text>, url: Text): seq<Text> {
    if queue == [] then [] else (if queue[0] == url then [] else [queue[0]]) + Others(queue[1..], url)
  }

  /** Promotion neither loses nor repeats a URL, and the others keep their order. */
  lemma {:induction false} PromotionKeeps(queue: seq<Text>, url: Text)
    ensures multiset(Promoted(queue, url)) == multiset(queue) + if url in queue then multiset{} else multiset{url}
    ensures Others(Promoted(queue, url), url) == Others(queue, url)
    ensures Promoted(queue, url)[0] == url
  {
    WithoutOneKeeps(queue, url);
    assert Promoted(queue, url)[1..] == WithoutOne(queue, url);
  }

  lemma {:induction false} WithoutOneKeeps(queue: seq<Text>, url: Text)
    ensures multiset(WithoutOne(queue, url)) == multiset(queue) - multiset{url}
    ensures Others(WithoutOne(queue, url), url) == Others(queue, url)
    decreases |queue|
  {
    if queue != [] {
      assert queue == [queue[0]] + queue[1..];
      if queue[0] != url {
        WithoutOneKeeps(queue[1..], url);
        var rest := WithoutOne(queue[1..], url);
        assert ([queue[0]] + rest)[1..] == rest;
      }
    }
  }

  lemma {:induction false} WithoutOneAt(queue: seq<Text>, url: Text, pos: nat)
    requires pos < |queue| && queue[pos] == url && forall i :: 0 <= i < pos ==> queue[i] != url
    ensures WithoutOne(queue, url) == queue[..pos] + queue[pos + 1..]
    decreases pos
  {
    if pos > 0 {
      WithoutOneAt(queue[1..], url, pos - 1);
      assert queue[..pos] == [queue[0]] + queue[1..][..pos - 1];
    }
  }

  lemma {:induction false} WithoutAbsent(queue: seq<Text>, url: Text)
    requires url !in queue
    ensures WithoutOne(queue, url) == queue
  {
    if queue != [] {
      WithoutAbsent(queue[1..], url);
    }
  }

  /** How many URLs a batch takes. */
  function BatchSize(queue: seq<Text>, maxItems: nat): (n: nat)
    ensures n <= |queue| && n <= maxItems && (n == |queue| || n == maxItems)
  {
    if maxItems < |queue| then maxItems else |queue|
  }

  class PlaylistPrefetcher {
    var queue: seq<Text>
    var headers: seq<Header>
    /** A stored notification. */
    var wake: bool
    var lastActive: int

    constructor (urls: seq<Text>, headers: seq<Header>, now: int)
      ensures queue == urls && this.headers == headers && !wake && lastActive == now
    {
      queue, this.headers, wake, lastActive := urls, headers, false, now;
    }

    method Update(urls: seq<Text>, headers: seq<Header>, now: int)
      modifies this
      ensures queue == urls && this.headers == headers && lastActive == now && wake
    {
      queue := urls;
      this.headers := headers;
      lastActive := now;
      wake := true;
    }

    method Prioritize(url: Text, now: int)
      modifies this
      ensures queue == Promoted(old(queue), url) && headers == old(headers) && lastActive == now && wake
    {
      var pos := Position(url);
      if pos.Some? {
        WithoutOneAt(queue, url, pos.value);
        var item := queue[pos.value];
        queue := queue[..pos.value] + queue[pos.value + 1..];
        queue := [item] + queue;
      } else {
        WithoutAbsent(queue, url);
        queue := [url] + queue;
      }
      wake := true;
      lastActive := now;
    }

    /** The first place of `url` in the queue. */
    method Position(url: Text) returns (pos: Option<nat>)
      ensures pos == None ==> url !in queue
      ensures pos.Some? ==> pos.value < |queue| && queue[pos.value] == url && url !in queue[..pos.value]
    {
      for i := 0 to |queue|
        invariant url !in queue[..i]
      {
        if queue[i] == url {
          return Some(i);
        }
      }
      return None;
    }

    method PopBatchWithHeaders(maxItems: nat) returns (batch: seq<Text>, used: seq<Header>)
      modifies this`queue
      ensures batch + queue == old(queue) && |batch| == BatchSize(old(queue), maxItems)
      ensures used == if maxItems == 0 then [] else headers
    {
      batch, used := [], [];
      if maxItems == 0 {
        return;
      }
      ghost var all := queue;
      var i := 0;
      while i < maxItems && queue != []
        invariant i <= maxItems && |batch| == i && batch + queue == all
      {
        batch := batch + [queue[0]];
        queue := queue[1..];
        i := i + 1;
      }
      used := headers;
    }
  }
}
