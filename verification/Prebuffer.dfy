/** The pool of prefetchers as a protocol of atomic steps (src/hls/prebuffer.rs:162-256): clients register playlists and
    ask for segments, one worker per playlist fetches ahead, and idle workers leave. */
module Prebuffer {
  import opened Bytes
  import opened CacheKey
  import opened Prefetcher

  type Content = seq<byte>

  /** A successful fetch. */
  datatype Fetch = Fetch(url: Text, headers: seq<Header>, content: Content)

  function KeyOf(f: Fetch): Text {
    SegmentCacheKey(f.url, f.headers)
  }

  /** Where a worker stands in its loop. */
  datatype Phase =
    | Starting
    | Checking
    | Evicting
    | Popping
    | Filtering(todo: seq<Text>, requests: seq<Text>, headers: seq<Header>)
    | Fetching(todo: seq<Text>, results: seq<Fetch>, headers: seq<Header>)
    | Storing(results: seq<Fetch>)
    | Waiting
    | Gone

  /** A prefetcher with its worker, and what became of the URLs it was given. */
  datatype Slot = Slot(
    key: Text, queue: seq<Text>, headers: seq<Header>, lastActive: int, wake: bool, phase: Phase,
    put: multiset<Text>, popped: multiset<Text>, discarded: multiset<Text>, dropped: multiset<Text>)

  /** What a client still has to do; until then it holds the map entry of its prefetcher. */
  datatype Client =
    | Update(id: nat, urls: seq<Text>, headers: seq<Header>)
    | Promote(id: nat, url: Text)
    | Touch(id: nat, last: bool)
    | Notify(id: nat, last: bool)

  datatype State = State(
    entries: map<Text, nat>, slots: seq<Slot>, clients: map<nat, Client>, cache: map<Text, Content>,
    fetched: set<Fetch>)

  const START := State(map[], [], map[], map[], {})

  datatype Settings = Settings(ahead: nat, timeout: int)

  datatype Step =
    | RegisterNew(key: Text, urls: seq<Text>, headers: seq<Header>, now: int)
    | RegisterAgain(client: nat, key: Text, urls: seq<Text>, headers: seq<Header>)
    | Request(client: nat, key: Text, url: Text)
    | Advance(client: nat, now: int)
    | Work(id: nat, now: int, outcome: Option<Content>)
    | Expire(keys: set<Text>)

  predicate Live(slot: Slot) {
    !slot.phase.Gone?
  }

  /** Nobody holds the map entry for `key`. */
  predicate Unheld(s: State, key: Text) {
    forall c <- s.clients :: s.clients[c].id < |s.slots| ==> s.slots[s.clients[c].id].key != key
  }

  predicate Enabled(s: State, step: Step) {
    match step
    case RegisterNew(key, _, _, _) => key !in s.entries
    case RegisterAgain(client, key, _, _) => key in s.entries && client !in s.clients
    case Request(client, key, _) => key in s.entries && client !in s.clients
    case Advance(client, _) => client in s.clients && s.clients[client].id < |s.slots|
    case Work(id, _, _) =>
      id < |s.slots| && Live(s.slots[id]) && (s.slots[id].phase.Evicting? ==> Unheld(s, s.slots[id].key))
    case Expire(_) => true
  }

  /** A client's next step on its prefetcher. */
  function AdvanceSlot(slot: Slot, client: Client, now: int): Slot {
    match client
    case Update(_, urls, headers) =>
      slot.(queue := urls, headers := headers, put := slot.put + multiset(urls),
            discarded := slot.discarded + multiset(slot.queue))
    case Promote(_, url) =>
      slot.(queue := Promoted(slot.queue, url),
            put := slot.put + if url in slot.queue then multiset{} else multiset{url})
    case Touch(_, _) => slot.(lastActive := now)
    case Notify(_, _) => slot.(wake := true)
  }

  /** Updating records the time before it notifies, promoting after. */
  function NextClient(client: Client): Option<Client> {
    match client
    case Update(id, _, _) => Some(Touch(id, false))
    case Promote(id, _) => Some(Notify(id, false))
    case Touch(id, last) => if last then None else Some(Notify(id, true))
    case Notify(id, last) => if last then None else Some(Touch(id, true))
  }

  function AdvanceClient(s: State, client: nat, now: int): State
    requires Enabled(s, Advance(client, now))
  {
    var c := s.clients[client];
    var next := NextClient(c);
    s.(slots := s.slots[c.id := AdvanceSlot(s.slots[c.id], c, now)],
       clients := if next.Some? then s.clients[client := next.value] else s.clients - {client})
  }

  /** One step of a worker's loop body. */
  function WorkSlot(settings: Settings, slot: Slot, cache: map<Text, Content>, now: int, outcome: Option<Content>): Slot
    requires Live(slot)
  {
    match slot.phase
    case Starting => slot.(phase := Checking)
    case Checking => slot.(phase := if now - slot.lastActive >= settings.timeout then Evicting else Popping)
    case Evicting => slot.(phase := Gone, queue := [], dropped := slot.dropped + multiset(slot.queue))
    case Popping =>
      var n := BatchSize(slot.queue, settings.ahead);
      var batch, headers := slot.queue[..n], if settings.ahead == 0 then [] else slot.headers;
      slot.(queue := slot.queue[n..], popped := slot.popped + multiset(batch),
            phase := if batch == [] then Waiting else Filtering(batch, [], headers))
    case Filtering(todo, requests, headers) =>
      slot.(phase :=
              if todo == [] then Fetching(requests, [], headers)
              else if SegmentCacheKey(todo[0], headers) in cache then Filtering(todo[1..], requests, headers)
              else Filtering(todo[1..], requests + [todo[0]], headers))
    case Fetching(todo, results, headers) =>
      slot.(phase :=
              if todo == [] then Storing(results)
              else Fetching(todo[1..],
                            results + (if outcome.Some? then [Fetch(todo[0], headers, outcome.value)] else []),
                            headers))
    case Storing(results) => slot.(phase := if results == [] then Checking else Storing(results[1..]))
    case Waiting => slot.(phase := Checking, wake := false)
  }

  /** A leaving worker removes the map entry by key; a fetch is recorded; a result is cached under the key of its
      request. */
  function WorkOnce(settings: Settings, s: State, id: nat, now: int, outcome: Option<Content>): State
    requires Enabled(s, Work(id, now, outcome))
  {
    var slot := s.slots[id];
    var phase := slot.phase;
    s.(slots := s.slots[id := WorkSlot(settings, slot, s.cache, now, outcome)],
       entries := if phase.Evicting? then s.entries - {slot.key} else s.entries,
       fetched :=
         if phase.Fetching? && phase.todo != [] && outcome.Some?
         then s.fetched + {Fetch(phase.todo[0], phase.headers, outcome.value)} else s.fetched,
       cache :=
         if phase.Storing? && phase.results != []
         then s.cache[KeyOf(phase.results[0]) := phase.results[0].content] else s.cache)
  }

  function Apply(settings: Settings, s: State, step: Step): State
    requires Enabled(s, step)
  {
    match step
    case RegisterNew(key, urls, headers, now) =>
      var slot :=
        Slot(key, urls, headers, now, false, Starting, multiset(urls), multiset{}, multiset{}, multiset{});
      s.(entries := s.entries[key := |s.slots|], slots := s.slots + [slot])
    case RegisterAgain(client, key, urls, headers) =>
      s.(clients := s.clients[client := Update(s.entries[key], urls, headers)])
    case Request(client, key, url) => s.(clients := s.clients[client := Promote(s.entries[key], url)])
    case Advance(client, now) => AdvanceClient(s, client, now)
    case Work(id, now, outcome) => WorkOnce(settings, s, id, now, outcome)
    case Expire(keys) => s.(cache := s.cache - keys)
  }

  /** A run: `None` if some step is not enabled when its turn comes. */
  function Run(settings: Settings, s: State, steps: seq<Step>): Option<State>
    decreases |steps|
  {
    if steps == [] then Some(s)
    else if Enabled(s, steps[0]) then Run(settings, Apply(settings, s, steps[0]), steps[1..])
    else None
  }

  // ----- The map and the workers -----

  /** Entries and live workers correspond one to one, and clients only touch live prefetchers. */
  predicate Matched(s: State) {
    && (forall key <- s.entries ::
          s.entries[key] < |s.slots| && s.slots[s.entries[key]].key == key && Live(s.slots[s.entries[key]]))
    && (forall i :: 0 <= i < |s.slots| && Live(s.slots[i]) ==>
          s.slots[i].key in s.entries && s.entries[s.slots[i].key] == i)
    && (forall c <- s.clients :: s.clients[c].id < |s.slots| && Live(s.slots[s.clients[c].id]))
  }

  /** A step that changes one slot without changing its key or its being alive, and adds no client elsewhere. */
  lemma SlotChanged(s: State, t: State, id: nat)
    requires Matched(s) && id < |s.slots| && Live(s.slots[id])
    requires t.entries == s.entries && |t.slots| == |s.slots| && t.slots == s.slots[id := t.slots[id]]
    requires t.slots[id].key == s.slots[id].key && Live(t.slots[id])
    requires forall c <- t.clients :: t.clients[c].id == id || (c in s.clients && t.clients[c] == s.clients[c])
    ensures Matched(t)
  {
    forall i | 0 <= i < |t.slots| ensures t.slots[i].key == s.slots[i].key && (Live(t.slots[i]) <==> Live(s.slots[i])) {
    }
  }

  lemma StepMatched(settings: Settings, s: State, step: Step)
    requires Matched(s) && Enabled(s, step)
    ensures Matched(Apply(settings, s, step))
  {
    match step
    case RegisterNew(key, urls, headers, now) => RegisterMatched(settings, s, step);
    case RegisterAgain(client, key, urls, headers) =>
    case Request(client, key, url) =>
    case Advance(client, now) => AdvanceMatched(s, client, now);
    case Work(id, now, outcome) => WorkMatched(settings, s, id, now, outcome);
    case Expire(keys) =>
  }

  lemma RegisterMatched(settings: Settings, s: State, step: Step)
    requires step.RegisterNew? && Matched(s) && Enabled(s, step)
    ensures Matched(Apply(settings, s, step))
  {
    var t := Apply(settings, s, step);
    forall i | 0 <= i < |t.slots| && Live(t.slots[i])
      ensures t.slots[i].key in t.entries && t.entries[t.slots[i].key] == i
    {
      if i < |s.slots| {
        assert t.slots[i] == s.slots[i];
      }
    }
  }

  lemma AdvanceKeeps(slot: Slot, client: Client, now: int)
    ensures AdvanceSlot(slot, client, now).key == slot.key && AdvanceSlot(slot, client, now).phase == slot.phase
  {
    hide Promoted;
  }

  lemma AdvanceMatched(s: State, client: nat, now: int)
    requires Matched(s) && Enabled(s, Advance(client, now))
    ensures Matched(AdvanceClient(s, client, now))
  {
    hide AdvanceSlot;
    AdvanceKeeps(s.slots[s.clients[client].id], s.clients[client], now);
    SlotChanged(s, AdvanceClient(s, client, now), s.clients[client].id);
  }

  lemma WorkMatched(settings: Settings, s: State, id: nat, now: int, outcome: Option<Content>)
    requires Matched(s) && Enabled(s, Work(id, now, outcome))
    ensures Matched(WorkOnce(settings, s, id, now, outcome))
  {
    hide SegmentCacheKey, BatchSize;
    if s.slots[id].phase.Evicting? {
      EvictMatched(settings, s, id, now, outcome);
    } else {
      SlotChanged(s, WorkOnce(settings, s, id, now, outcome), id);
    }
  }

  lemma EvictMatched(settings: Settings, s: State, id: nat, now: int, outcome: Option<Content>)
    requires Matched(s) && Enabled(s, Work(id, now, outcome)) && s.slots[id].phase.Evicting?
    ensures Matched(WorkOnce(settings, s, id, now, outcome))
  {
    var t, key := WorkOnce(settings, s, id, now, outcome), s.slots[id].key;
    forall i | 0 <= i < |t.slots| && Live(t.slots[i])
      ensures t.slots[i].key in t.entries && t.entries[t.slots[i].key] == i
    {
      assert t.slots[i] == s.slots[i];
    }
    forall c <- t.clients ensures t.clients[c].id < |t.slots| && Live(t.slots[t.clients[c].id]) {
      assert s.slots[s.clients[c].id].key != key;
    }
  }

  /** A worker that leaves removes the entry of its own prefetcher and nothing else. */
  lemma RemovesItsOwn(settings: Settings, s: State, id: nat, now: int, outcome: Option<Content>)
    requires Matched(s) && Enabled(s, Work(id, now, outcome))
    ensures var t := WorkOnce(settings, s, id, now, outcome);
            forall key <- s.entries :: (key in t.entries && t.entries[key] == s.entries[key])
                                       || (s.entries[key] == id && s.slots[id].phase.Evicting? && !Live(t.slots[id]))
  {
    hide SegmentCacheKey, BatchSize;
  }

  // ----- What becomes of the URLs -----

  /** Every URL given to a prefetcher was popped, is queued, was replaced by an update or was dropped on leaving. */
  predicate Accounted(slot: Slot) {
    && slot.put == slot.popped + multiset(slot.queue) + slot.discarded + slot.dropped
    && (Live(slot) ==> slot.dropped == multiset{})
    && (!Live(slot) ==> slot.queue == [])
  }

  predicate AllAccounted(s: State) {
    forall i :: 0 <= i < |s.slots| ==> Accounted(s.slots[i])
  }

  lemma StepAccounted(settings: Settings, s: State, step: Step)
    requires Matched(s) && AllAccounted(s) && Enabled(s, step)
    ensures AllAccounted(Apply(settings, s, step))
  {
    hide Accounted, Promoted, SegmentCacheKey, Matched;
    match step
    case RegisterNew(key, urls, headers, now) =>
      NewAccounted(Slot(key, urls, headers, now, false, Starting, multiset(urls), multiset{}, multiset{}, multiset{}));
    case RegisterAgain(client, key, urls, headers) =>
    case Request(client, key, url) =>
    case Advance(client, now) => AdvanceAccounted(s, client, now);
    case Work(id, now, outcome) => WorkAccounted(settings, s, id, now, outcome);
    case Expire(keys) =>
  }

  lemma NewAccounted(slot: Slot)
    requires slot.put == multiset(slot.queue) && slot.popped == slot.discarded == slot.dropped == multiset{}
             && Live(slot)
    ensures Accounted(slot)
  {
  }

  lemma AdvanceAccounted(s: State, client: nat, now: int)
    requires Matched(s) && Enabled(s, Advance(client, now)) && AllAccounted(s)
    ensures AllAccounted(AdvanceClient(s, client, now))
  {
    hide AdvanceSlot, Accounted, NextClient;
    AdvanceSlotAccounted(s.slots[s.clients[client].id], s.clients[client], now);
  }

  lemma AdvanceSlotAccounted(slot: Slot, client: Client, now: int)
    requires Accounted(slot) && Live(slot)
    ensures Accounted(AdvanceSlot(slot, client, now))
  {
    hide Promoted;
    match client {
      case Promote(_, url) =>
        PromotionKeeps(slot.queue, url);
        var more := if url in slot.queue then multiset{} else multiset{url};
        SumWith(slot.put, slot.popped, multiset(slot.queue), slot.discarded, more);
      case Update(_, urls, _) =>
        SumReplaced(slot.put, slot.popped, multiset(slot.queue), slot.discarded, multiset(urls));
      case Touch(_, _) =>
      case Notify(_, _) =>
    }
  }

  lemma SumWith<T>(put: multiset<T>, popped: multiset<T>, queue: multiset<T>, discarded: multiset<T>, more: multiset<T>)
    requires put == popped + queue + discarded + multiset{}
    ensures put + more == popped + (queue + more) + discarded + multiset{}
  {
  }

  lemma SumReplaced<T>(put: multiset<T>, popped: multiset<T>, queue: multiset<T>, discarded: multiset<T>,
                       urls: multiset<T>)
    requires put == popped + queue + discarded + multiset{}
    ensures put + urls == popped + urls + (discarded + queue) + multiset{}
  {
  }

  lemma WorkAccounted(settings: Settings, s: State, id: nat, now: int, outcome: Option<Content>)
    requires Enabled(s, Work(id, now, outcome)) && AllAccounted(s)
    ensures AllAccounted(WorkOnce(settings, s, id, now, outcome))
  {
    hide WorkSlot, Accounted;
    WorkSlotAccounted(settings, s.slots[id], s.cache, now, outcome);
  }

  lemma WorkSlotAccounted(settings: Settings, slot: Slot, cache: map<Text, Content>, now: int, outcome: Option<Content>)
    requires Accounted(slot) && Live(slot)
    ensures Accounted(WorkSlot(settings, slot, cache, now, outcome))
  {
    hide SegmentCacheKey, BatchSize;
    if slot.phase.Popping? {
      SplitElements(slot.queue, BatchSize(slot.queue, settings.ahead));
    } else if !slot.phase.Evicting? {
      UrlsUntouched(settings, slot, cache, now, outcome);
    }
  }

  lemma SplitElements<T>(s: seq<T>, n: nat)
    requires n <= |s|
    ensures multiset(s) == multiset(s[..n]) + multiset(s[n..])
  {
    assert s == s[..n] + s[n..];
  }

  lemma UrlsUntouched(settings: Settings, slot: Slot, cache: map<Text, Content>, now: int, outcome: Option<Content>)
    requires Live(slot) && !slot.phase.Popping? && !slot.phase.Evicting?
    ensures var after := WorkSlot(settings, slot, cache, now, outcome);
            && after.queue == slot.queue && after.put == slot.put && after.popped == slot.popped
            && after.discarded == slot.discarded && after.dropped == slot.dropped && Live(after)
  {
    hide SegmentCacheKey;
  }

  /** What is dropped is what is queued when the worker leaves: nothing, exactly when the queue is empty by then. */
  lemma DroppedOnLeaving(settings: Settings, slot: Slot, cache: map<Text, Content>, now: int, outcome: Option<Content>)
    requires Accounted(slot) && Live(slot)
    ensures var after := WorkSlot(settings, slot, cache, now, outcome);
            after.dropped == multiset{} <==> slot.phase.Evicting? ==> slot.queue == []
  {
    hide SegmentCacheKey;
    if slot.queue != [] {
      assert slot.queue[0] in multiset(slot.queue);
    }
  }

  // ----- Waking up -----

  /** Is a notification for prefetcher `id` still to come from a client that changed its queue? */
  predicate WillNotify(s: State, id: nat) {
    exists c <- s.clients :: s.clients[c].id == id
      && (s.clients[c].Notify? || (s.clients[c].Touch? && !s.clients[c].last))
  }

  /** A worker that waits with URLs in its queue has been notified, or is about to be. */
  predicate NoLostWakeup(s: State) {
    forall i :: 0 <= i < |s.slots| && s.slots[i].phase.Waiting? && s.slots[i].queue != [] ==>
      s.slots[i].wake || WillNotify(s, i)
  }

  lemma StepWakes(settings: Settings, s: State, step: Step)
    requires settings.ahead > 0 && Matched(s) && NoLostWakeup(s) && Enabled(s, step)
    ensures NoLostWakeup(Apply(settings, s, step))
  {
    hide Promoted, SegmentCacheKey;
    var t := Apply(settings, s, step);
    forall i | 0 <= i < |t.slots| && t.slots[i].phase.Waiting? && t.slots[i].queue != []
      ensures t.slots[i].wake || WillNotify(t, i)
    {
      StepWakesOne(settings, s, step, i);
    }
  }

  lemma StepWakesOne(settings: Settings, s: State, step: Step, i: nat)
    requires settings.ahead > 0 && Matched(s) && NoLostWakeup(s) && Enabled(s, step)
    requires var t := Apply(settings, s, step); i < |t.slots| && t.slots[i].phase.Waiting? && t.slots[i].queue != []
    ensures var t := Apply(settings, s, step); t.slots[i].wake || WillNotify(t, i)
  {
    hide WorkSlot, AdvanceSlot, Matched, WillNotify;
    var t := Apply(settings, s, step);
    if step.Advance? && s.clients[step.client].id == i {
      OwnClientNotifies(s, step.client, step.now);
    } else {
      if step.Work? {
        WaitsOnlyWhenEmpty(settings, s.slots[step.id], s.cache, step.now, step.outcome);
      }
      StillNotifies(s, t, if step.Advance? then Some(step.client) else None, i);
    }
  }

  lemma WaitsOnlyWhenEmpty(settings: Settings, slot: Slot, cache: map<Text, Content>, now: int,
                           outcome: Option<Content>)
    requires settings.ahead > 0 && Live(slot)
    ensures var after := WorkSlot(settings, slot, cache, now, outcome); after.phase.Waiting? ==> after.queue == []
  {
    hide SegmentCacheKey;
  }

  /** A client that works on a waiting prefetcher leaves a notification behind, or is on its way to one, or leaves
      things as they are. */
  lemma OwnClientNotifies(s: State, client: nat, now: int)
    requires Enabled(s, Advance(client, now)) && NoLostWakeup(s)
    requires var slot := AdvanceClient(s, client, now).slots[s.clients[client].id];
             slot.phase.Waiting? && slot.queue != []
    ensures var t, i := AdvanceClient(s, client, now), s.clients[client].id; t.slots[i].wake || WillNotify(t, i)
  {
    hide Promoted;
    var t, c := AdvanceClient(s, client, now), s.clients[client];
    if c.Touch? && c.last {
      StillNotifies(s, t, Some(client), c.id);
    } else if c.Notify? {
      assert t.slots[c.id].wake;
    } else {
      assert client in t.clients && t.clients[client] == NextClient(c).value;
    }
  }

  /** A client's step does not take away another client's notification. */
  lemma StillNotifies(s: State, t: State, client: Option<nat>, i: nat)
    requires forall c <- s.clients :: Some(c) != client ==> c in t.clients && t.clients[c] == s.clients[c]
    requires client.Some? ==>
               client.value in s.clients
                 && (s.clients[client.value].id != i || s.clients[client.value] == Touch(i, true))
    ensures WillNotify(s, i) ==> WillNotify(t, i)
  {
    if WillNotify(s, i) {
      var c :| c in s.clients && s.clients[c].id == i
          && (s.clients[c].Notify? || (s.clients[c].Touch? && !s.clients[c].last));
      assert c in t.clients && t.clients[c] == s.clients[c];
    }
  }

  // ----- The cache -----

  /** Everything cached, or about to be, was fetched, and is kept under the key of its own request. */
  predicate Genuine(s: State) {
    && (forall key <- s.cache :: exists f <- s.fetched :: KeyOf(f) == key && f.content == s.cache[key])
    && (forall i :: 0 <= i < |s.slots| ==> forall f <- Pending(s.slots[i].phase) :: f in s.fetched)
  }

  function Pending(phase: Phase): seq<Fetch> {
    match phase
    case Fetching(_, results, _) => results
    case Storing(results) => results
    case _ => []
  }

  lemma StepGenuine(settings: Settings, s: State, step: Step)
    requires Genuine(s) && Enabled(s, step)
    ensures Genuine(Apply(settings, s, step))
  {
    hide WorkSlot, AdvanceSlot, KeyOf, NextClient;
    var t := Apply(settings, s, step);
    forall key <- t.cache ensures exists f <- t.fetched :: KeyOf(f) == key && f.content == t.cache[key] {
      if key in s.cache && t.cache[key] == s.cache[key] {
        var f :| f in s.fetched && KeyOf(f) == key && f.content == s.cache[key];
        assert f in t.fetched;
      } else {
        var f := s.slots[step.id].phase.results[0];
        assert f in Pending(s.slots[step.id].phase);
        assert f in t.fetched && KeyOf(f) == key && f.content == t.cache[key];
      }
    }
    forall i | 0 <= i < |t.slots| ensures forall f <- Pending(t.slots[i].phase) :: f in t.fetched {
      if step.Work? && i == step.id {
        WorkPending(settings, s.slots[i], s.cache, step.now, step.outcome);
      } else if step.Advance? && i == s.clients[step.client].id {
        AdvanceKeepsPhase(s.slots[i], s.clients[step.client], step.now);
      } else if i < |s.slots| {
        assert t.slots[i] == s.slots[i];
      }
    }
  }

  lemma WorkPending(settings: Settings, slot: Slot, cache: map<Text, Content>, now: int, outcome: Option<Content>)
    requires Live(slot)
    ensures forall f <- Pending(WorkSlot(settings, slot, cache, now, outcome).phase) ::
              f in Pending(slot.phase)
              || (slot.phase.Fetching? && slot.phase.todo != [] && outcome.Some?
                  && f == Fetch(slot.phase.todo[0], slot.phase.headers, outcome.value))
  {
    hide SegmentCacheKey;
  }

  lemma AdvanceKeepsPhase(slot: Slot, client: Client, now: int)
    ensures AdvanceSlot(slot, client, now).phase == slot.phase
  {
    hide Promoted;
  }

  /** No URL the pool knows of holds a newline. */
  predicate Clean(s: State) {
    && (forall i :: 0 <= i < |s.slots| ==> CleanSlot(s.slots[i]))
    && (forall c <- s.clients :: CleanClient(s.clients[c]))
    && (forall f <- s.fetched :: Free(f.url, NEWLINE))
  }

  predicate AllFree(urls: seq<Text>) {
    forall u <- urls :: Free(u, NEWLINE)
  }

  predicate CleanSlot(slot: Slot) {
    && AllFree(slot.queue)
    && match slot.phase
       case Filtering(todo, requests, _) => AllFree(todo) && AllFree(requests)
       case Fetching(todo, _, _) => AllFree(todo)
       case _ => true
  }

  predicate CleanClient(c: Client) {
    match c
    case Update(_, urls, _) => AllFree(urls)
    case Promote(_, url) => Free(url, NEWLINE)
    case _ => true
  }

  predicate CleanStep(step: Step) {
    match step
    case RegisterNew(_, urls, _, _) => AllFree(urls)
    case RegisterAgain(_, _, urls, _) => AllFree(urls)
    case Request(_, _, url) => Free(url, NEWLINE)
    case _ => true
  }

  lemma {:induction false} PromotedElements(queue: seq<Text>, url: Text)
    ensures forall u <- Promoted(queue, url) :: u == url || u in queue
  {
    PromotionKeeps(queue, url);
    forall u <- Promoted(queue, url) ensures u == url || u in queue {
      assert u in multiset(Promoted(queue, url));
    }
  }

  lemma AdvanceClean(slot: Slot, client: Client, now: int)
    requires CleanSlot(slot) && CleanClient(client)
    ensures CleanSlot(AdvanceSlot(slot, client, now))
  {
    hide Promoted, Free;
    if client.Promote? {
      PromotedElements(slot.queue, client.url);
    }
  }

  lemma AllFreeParts(queue: seq<Text>, n: nat)
    requires AllFree(queue) && n <= |queue|
    ensures AllFree(queue[..n]) && AllFree(queue[n..]) && AllFree([])
  {
    hide Free;
  }

  lemma WorkClean(settings: Settings, slot: Slot, cache: map<Text, Content>, now: int, outcome: Option<Content>)
    requires CleanSlot(slot) && Live(slot)
    ensures CleanSlot(WorkSlot(settings, slot, cache, now, outcome))
  {
    hide Free, SegmentCacheKey, AllFree;
    match slot.phase {
      case Popping => AllFreeParts(slot.queue, BatchSize(slot.queue, settings.ahead));
      case Filtering(todo, requests, headers) =>
        if todo != [] {
          AllFreeMore(todo, requests);
        }
      case Fetching(todo, results, headers) =>
        if todo != [] {
          AllFreeParts(todo, 1);
        }
      case Evicting => AllFreeParts(slot.queue, 0);
      case Storing(results) =>
        StoringClean(settings, slot, cache, now, outcome);
      case Starting =>
      case Checking =>
      case Waiting =>
    }
  }

  lemma StoringClean(settings: Settings, slot: Slot, cache: map<Text, Content>, now: int, outcome: Option<Content>)
    requires CleanSlot(slot) && slot.phase.Storing?
    ensures CleanSlot(WorkSlot(settings, slot, cache, now, outcome))
  {
    hide AllFree, SegmentCacheKey, BatchSize;
  }

  lemma AllFreeMore(todo: seq<Text>, requests: seq<Text>)
    requires AllFree(todo) && AllFree(requests) && todo != []
    ensures AllFree(todo[1..]) && AllFree(requests + [todo[0]]) && AllFree([])
  {
    hide Free;
    assert todo[0] in todo;
  }

  lemma StepClean(settings: Settings, s: State, step: Step)
    requires Clean(s) && Enabled(s, step) && CleanStep(step)
    ensures Clean(Apply(settings, s, step))
  {
    hide WorkSlot, AdvanceSlot, KeyOf, CleanSlot, Free;
    var t := Apply(settings, s, step);
    match step
    case RegisterNew(key, urls, headers, now) =>
      NewClean(Slot(key, urls, headers, now, false, Starting, multiset(urls), multiset{}, multiset{}, multiset{}));
    case RegisterAgain(client, key, urls, headers) =>
    case Request(client, key, url) =>
    case Advance(client, now) =>
      assert CleanClient(s.clients[client]);
      AdvanceClean(s.slots[s.clients[client].id], s.clients[client], now);
    case Work(id, now, outcome) =>
      WorkClean(settings, s.slots[id], s.cache, now, outcome);
      FetchClean(s.slots[id]);
    case Expire(keys) =>
  }

  lemma FetchClean(slot: Slot)
    requires CleanSlot(slot)
    ensures slot.phase.Fetching? && slot.phase.todo != [] ==> Free(slot.phase.todo[0], NEWLINE)
  {
    hide Free;
  }

  lemma NewClean(slot: Slot)
    requires AllFree(slot.queue) && slot.phase.Starting?
    ensures CleanSlot(slot)
  {
  }

  // ----- Over every run -----

  predicate Invariant(settings: Settings, s: State) {
    Matched(s) && AllAccounted(s) && (settings.ahead > 0 ==> NoLostWakeup(s)) && Genuine(s)
  }

  lemma StepInvariant(settings: Settings, s: State, step: Step)
    requires Invariant(settings, s) && Enabled(s, step)
    ensures Invariant(settings, Apply(settings, s, step))
  {
    hide Matched, AllAccounted, NoLostWakeup, Genuine, Enabled, Apply;
    StepMatched(settings, s, step);
    StepAccounted(settings, s, step);
    if settings.ahead > 0 {
      StepWakes(settings, s, step);
    }
    StepGenuine(settings, s, step);
  }

  lemma {:induction false} RunInvariant(settings: Settings, s: State, steps: seq<Step>)
    requires Invariant(settings, s) && Run(settings, s, steps).Some?
    ensures Invariant(settings, Run(settings, s, steps).value)
    decreases |steps|
  {
    hide Invariant, Enabled, Apply;
    if steps != [] {
      StepInvariant(settings, s, steps[0]);
      RunInvariant(settings, Apply(settings, s, steps[0]), steps[1..]);
    }
  }

  lemma StartInvariant(settings: Settings)
    ensures Invariant(settings, START)
  {
  }

  /** Is a worker for `key` alive in slot `i`? */
  predicate Serves(s: State, i: nat, key: Text)
    requires i < |s.slots|
  {
    Live(s.slots[i]) && s.slots[i].key == key
  }

  /** In every interleaving, a playlist is in the map exactly when a worker for it is alive, and there is only one. */
  lemma OneWorkerPerPlaylist(settings: Settings, steps: seq<Step>, key: Text)
    requires Run(settings, START, steps).Some?
    ensures var s := Run(settings, START, steps).value;
            && (key in s.entries <==> exists i :: 0 <= i < |s.slots| && Serves(s, i, key))
            && forall i, j :: 0 <= i < j < |s.slots| ==> !(Serves(s, i, key) && Serves(s, j, key))
  {
    hide Run, NoLostWakeup, AllAccounted, Genuine;
    StartInvariant(settings);
    RunInvariant(settings, START, steps);
    var s := Run(settings, START, steps).value;
    if key in s.entries {
      assert Serves(s, s.entries[key], key);
    }
  }

  /** In every interleaving each URL ends up in exactly one place, and none is dropped as long as the worker lives. */
  lemma UrlsConserved(settings: Settings, steps: seq<Step>, id: nat)
    requires Run(settings, START, steps).Some? && id < |Run(settings, START, steps).value.slots|
    ensures Accounted(Run(settings, START, steps).value.slots[id])
  {
    hide Run, Accounted, NoLostWakeup, Matched, Genuine;
    StartInvariant(settings);
    RunInvariant(settings, START, steps);
  }

  /** In every interleaving a worker that waits with URLs in its queue has been, or is about to be, notified. */
  lemma WakeupsNotLost(settings: Settings, steps: seq<Step>)
    requires settings.ahead > 0 && Run(settings, START, steps).Some?
    ensures NoLostWakeup(Run(settings, START, steps).value)
  {
    hide Run, NoLostWakeup, Matched, Genuine, AllAccounted;
    StartInvariant(settings);
    RunInvariant(settings, START, steps);
  }

  /** What is known of a worker's leaving: nothing yet, or that it has passed the idle test, or that it is gone; and
      whether the last thing that happened to its queue since left it empty. */
  datatype Watch = Staying | Leaving(empty: bool) | Left(empty: bool)

  /** The worker of slot `id` decides to leave: nobody has been active for too long. */
  predicate PassesIdleTest(settings: Settings, s: State, step: Step, id: nat) {
    && step.Work? && step.id == id && id < |s.slots| && s.slots[id].phase.Checking?
    && step.now - s.slots[id].lastActive >= settings.timeout
  }

  /** The idle test looks at no queue: one that is empty then starts the watch as empty. After it, a refresh decides
      anew, by the URLs it brings, and a request makes the queue not empty. The worker's next step removes the entry. */
  function WatchStep(settings: Settings, s: State, step: Step, id: nat, w: Watch): Watch
    requires Enabled(s, step)
  {
    if PassesIdleTest(settings, s, step, id) then Leaving(s.slots[id].queue == [])
    else if !w.Leaving? then w
    else if step.Work? && step.id == id then Left(w.empty)
    else if step.Advance? && s.clients[step.client].id == id then
      match s.clients[step.client]
      case Update(_, urls, _) => Leaving(urls == [])
      case Promote(_, _) => Leaving(false)
      case _ => w
    else w
  }

  function Watched(settings: Settings, s: State, steps: seq<Step>, id: nat, w: Watch): Watch
    decreases |steps|
  {
    if steps == [] || !Enabled(s, steps[0]) then w
    else Watched(settings, Apply(settings, s, steps[0]), steps[1..], id, WatchStep(settings, s, steps[0], id, w))
  }

  /** The watch agrees with the worker of slot `id`. */
  predicate Agrees(s: State, id: nat, w: Watch) {
    if id >= |s.slots| then w == Staying
    else
      var slot := s.slots[id];
      match w
      case Staying => !slot.phase.Evicting? && !slot.phase.Gone? && slot.dropped == multiset{}
      case Leaving(empty) => slot.phase.Evicting? && empty == (slot.queue == []) && slot.dropped == multiset{}
      case Left(empty) => slot.phase.Gone? && empty == (slot.dropped == multiset{})
  }

  lemma StepDropped(settings: Settings, s: State, step: Step, id: nat)
    requires Matched(s) && AllAccounted(s) && Enabled(s, step) && id < |s.slots|
    ensures var t := Apply(settings, s, step);
            && id < |t.slots| && s.slots[id].dropped <= t.slots[id].dropped
            && (s.slots[id].dropped == multiset{} ==>
                  (t.slots[id].dropped == multiset{}
                   <==> (step.Work? && step.id == id && s.slots[id].phase.Evicting? ==> s.slots[id].queue == [])))
  {
    hide WorkSlot, AdvanceSlot, NextClient;
    if step.Work? && step.id == id {
      assert Accounted(s.slots[id]);
      DroppedOnLeaving(settings, s.slots[id], s.cache, step.now, step.outcome);
    } else if step.Advance? && s.clients[step.client].id == id {
      AdvanceKeepsDropped(s.slots[id], s.clients[step.client], step.now);
    }
  }

  lemma AdvanceKeepsDropped(slot: Slot, client: Client, now: int)
    ensures AdvanceSlot(slot, client, now).dropped == slot.dropped
  {
    hide Promoted;
  }

  lemma WatchWork(settings: Settings, slot: Slot, cache: map<Text, Content>, now: int, outcome: Option<Content>)
    requires Live(slot)
    ensures var after := WorkSlot(settings, slot, cache, now, outcome);
            && (after.phase.Evicting? <==> slot.phase.Checking? && now - slot.lastActive >= settings.timeout)
            && (after.phase.Gone? <==> slot.phase.Evicting?)
            && (!slot.phase.Popping? && !slot.phase.Evicting? ==> after.queue == slot.queue)
            && after.lastActive == slot.lastActive
  {
    hide SegmentCacheKey, BatchSize;
  }

  lemma WatchAdvance(slot: Slot, client: Client, now: int)
    ensures var after := AdvanceSlot(slot, client, now);
            && after.phase == slot.phase
            && (after.queue == [] <==> match client
                                       case Update(_, urls, _) => urls == []
                                       case Promote(_, _) => false
                                       case _ => slot.queue == [])
  {
    hide WithoutOne;
  }

  lemma StepAgrees(settings: Settings, s: State, step: Step, id: nat, w: Watch)
    requires Matched(s) && AllAccounted(s) && Enabled(s, step) && Agrees(s, id, w)
    ensures Agrees(Apply(settings, s, step), id, WatchStep(settings, s, step, id, w))
  {
    hide WorkSlot, AdvanceSlot, NextClient, AllAccounted, Matched, SegmentCacheKey;
    if id < |s.slots| {
      StepDropped(settings, s, step, id);
      if step.Work? && step.id == id {
        WatchWork(settings, s.slots[id], s.cache, step.now, step.outcome);
      } else if step.Advance? && s.clients[step.client].id == id {
        WatchAdvance(s.slots[id], s.clients[step.client], step.now);
      }
    } else {
      NewSlotDropsNothing(settings, s, step);
    }
  }

  lemma {:induction false} RunAgrees(settings: Settings, s: State, steps: seq<Step>, id: nat, w: Watch)
    requires Invariant(settings, s) && Run(settings, s, steps).Some? && Agrees(s, id, w)
    ensures Agrees(Run(settings, s, steps).value, id, Watched(settings, s, steps, id, w))
    decreases |steps|
  {
    hide Matched, AllAccounted, NoLostWakeup, Genuine, Enabled, Apply, Agrees, WatchStep;
    if steps != [] {
      StepAgrees(settings, s, steps[0], id, w);
      StepInvariant(settings, s, steps[0]);
      RunAgrees(settings, Apply(settings, s, steps[0]), steps[1..], id, WatchStep(settings, s, steps[0], id, w));
    }
  }

  /** A run drops none of a prefetcher's URLs if and only if its worker has not left, or the last that happened to its
      queue up to the leaving left it empty: the idle test met it empty and nothing came after, or the last change after
      that test was a refresh without URLs. */
  lemma NothingDropped(settings: Settings, steps: seq<Step>, id: nat)
    requires Run(settings, START, steps).Some? && id < |Run(settings, START, steps).value.slots|
    ensures Run(settings, START, steps).value.slots[id].dropped == multiset{}
            <==> Watched(settings, START, steps, id, Staying) != Left(false)
  {
    hide Run, Watched, Matched, AllAccounted, NoLostWakeup, Genuine;
    StartInvariant(settings);
    RunAgrees(settings, START, steps, id, Staying);
  }

  lemma NewSlotDropsNothing(settings: Settings, s: State, step: Step)
    requires Enabled(s, step)
    ensures |Apply(settings, s, step).slots| <= |s.slots| + 1
    ensures |Apply(settings, s, step).slots| > |s.slots| ==>
              var slot := Apply(settings, s, step).slots[|s.slots|]; slot.dropped == multiset{} && slot.phase.Starting?
  {
    hide WorkSlot, AdvanceSlot, NextClient;
  }

  lemma {:induction false} RunConcat(settings: Settings, s: State, a: seq<Step>, b: seq<Step>)
    requires Run(settings, s, a).Some?
    ensures Run(settings, s, a + b) == Run(settings, Run(settings, s, a).value, b)
    decreases |a|
  {
    hide Apply, Enabled;
    if a == [] {
      assert a + b == b;
    } else {
      ConcatTail(a, b);
      RunConcat(settings, Apply(settings, s, a[0]), a[1..], b);
    }
  }

  lemma RunMore(settings: Settings, steps: seq<Step>, s: State, step: Step)
    requires Run(settings, START, steps) == Some(s) && Enabled(s, step)
    ensures Run(settings, START, steps + [step]) == Some(Apply(settings, s, step))
  {
    hide Apply, Enabled;
    RunConcat(settings, START, steps, [step]);
    assert [step][1..] == [];
  }

  /** The other case does occur: a worker that has found its playlist idle removes it although the playlist has been
      refreshed in between, and the new URLs are neither fetched nor kept. */
  lemma RefreshLost(settings: Settings, key: Text, urls: seq<Text>, headers: seq<Header>) returns (steps: seq<Step>)
    requires urls != []
    ensures Run(settings, START, steps).Some?
    ensures var s := Run(settings, START, steps).value;
            && |s.slots| == 1 && s.slots[0].put == multiset(urls) == s.slots[0].dropped
            && key !in s.entries && s.clients == map[]
  {
    hide Run;
    var t := settings.timeout;
    var slot := Slot(key, [], headers, 0, false, Starting, multiset{}, multiset{}, multiset{}, multiset{});
    steps := [];
    RunNothing(settings);
    var s0 := START.(entries := map[key := 0], slots := [slot]);
    steps := Do(settings, steps, START, RegisterNew(key, [], headers, 0), s0);
    var s1 := s0.(slots := [slot.(phase := Checking)]);
    steps := Do(settings, steps, s0, Work(0, 0, None), s1);
    var s2 := s0.(slots := [slot.(phase := Evicting)]);
    steps := Do(settings, steps, s1, Work(0, t, None), s2);
    var s3 := s2.(clients := map[0 := Update(0, urls, headers)]);
    steps := Do(settings, steps, s2, RegisterAgain(0, key, urls, headers), s3);
    var full := slot.(phase := Evicting, queue := urls, put := multiset(urls));
    var s4 := s2.(slots := [full], clients := map[0 := Touch(0, false)]);
    assert slot.put + multiset(urls) == multiset(urls) && slot.discarded + multiset(slot.queue) == multiset{};
    steps := Do(settings, steps, s3, Advance(0, t), s4);
    var s5 := s2.(slots := [full.(lastActive := t)], clients := map[0 := Notify(0, true)]);
    steps := Do(settings, steps, s4, Advance(0, t), s5);
    var s6 := s2.(slots := [full.(lastActive := t, wake := true)]);
    steps := Do(settings, steps, s5, Advance(0, t), s6);
    var s7 := s2.(
      entries := map[],
      slots := [slot.(phase := Gone, put := multiset(urls), dropped := multiset(urls), lastActive := t, wake := true)]);
    steps := Do(settings, steps, s6, Work(0, t, None), s7);
  }

  /** It also occurs without any refresh: what a worker does itself does not count as activity, so that a playlist
      nobody asks about any more is removed with whatever is still queued. */
  lemma IdleWithQueue(settings: Settings, key: Text, urls: seq<Text>, headers: seq<Header>) returns (steps: seq<Step>)
    requires urls != []
    ensures Run(settings, START, steps).Some?
    ensures var s := Run(settings, START, steps).value;
            && |s.slots| == 1 && s.slots[0].put == multiset(urls) == s.slots[0].dropped
            && key !in s.entries && s.clients == map[]
  {
    hide Run;
    var t := settings.timeout;
    var slot := Slot(key, urls, headers, 0, false, Starting, multiset(urls), multiset{}, multiset{}, multiset{});
    steps := [];
    RunNothing(settings);
    var s0 := START.(entries := map[key := 0], slots := [slot]);
    steps := Do(settings, steps, START, RegisterNew(key, urls, headers, 0), s0);
    var s1 := s0.(slots := [slot.(phase := Checking)]);
    steps := Do(settings, steps, s0, Work(0, 0, None), s1);
    var s2 := s0.(slots := [slot.(phase := Evicting)]);
    steps := Do(settings, steps, s1, Work(0, t, None), s2);
    var s3 := s0.(entries := map[], slots := [slot.(phase := Gone, queue := [], dropped := multiset(urls))]);
    assert slot.dropped + multiset(urls) == multiset(urls);
    steps := Do(settings, steps, s2, Work(0, t, None), s3);
  }

  lemma RunNothing(settings: Settings)
    ensures Run(settings, START, []) == Some(START)
  {
  }

  lemma Do(settings: Settings, before: seq<Step>, s: State, step: Step, t: State) returns (steps: seq<Step>)
    requires Run(settings, START, before) == Some(s) && Enabled(s, step) && Apply(settings, s, step) == t
    ensures Run(settings, START, steps) == Some(t)
  {
    steps := before + [step];
    RunMore(settings, before, s, step);
  }

  lemma {:induction false} RunClean(settings: Settings, s: State, steps: seq<Step>)
    requires Clean(s) && Run(settings, s, steps).Some? && forall step <- steps :: CleanStep(step)
    ensures Clean(Run(settings, s, steps).value)
    decreases |steps|
  {
    hide Clean, CleanStep, Apply, Enabled;
    if steps != [] {
      assert steps[0] in steps;
      StepClean(settings, s, steps[0]);
      RunClean(settings, Apply(settings, s, steps[0]), steps[1..]);
    }
  }

  /** In every interleaving, what the cache answers to a request was fetched for that very URL with the same headers, or
      for a request it can be confused with. */
  lemma CacheAnswers(settings: Settings, steps: seq<Step>, url: Text, hs: seq<Header>)
    requires Run(settings, START, steps).Some?
    requires SegmentCacheKey(url, hs) in Run(settings, START, steps).value.cache
    ensures var s := Run(settings, START, steps).value;
            exists f <- s.fetched ::
              && f.content == s.cache[SegmentCacheKey(url, hs)]
              && ((f.url == url && SameHeaders(f.headers, hs)) || Confusable(f.url, f.headers, url, hs))
  {
    hide Run, NoLostWakeup, AllAccounted, Matched, SegmentCacheKey, SameHeaders, Confusable, Free;
    StartInvariant(settings);
    RunInvariant(settings, START, steps);
    var s := Run(settings, START, steps).value;
    var f :| f in s.fetched && KeyOf(f) == SegmentCacheKey(url, hs) && f.content == s.cache[SegmentCacheKey(url, hs)];
    KeysApart(f.url, f.headers, url, hs);
  }

  /** So it is right as long as nothing confusable was fetched. */
  lemma CacheAgrees(settings: Settings, steps: seq<Step>, url: Text, hs: seq<Header>)
    requires Run(settings, START, steps).Some?
    requires SegmentCacheKey(url, hs) in Run(settings, START, steps).value.cache
    requires forall f <- Run(settings, START, steps).value.fetched :: !Confusable(f.url, f.headers, url, hs)
    ensures var s := Run(settings, START, steps).value;
            exists f <- s.fetched :: f.url == url && SameHeaders(f.headers, hs)
                                     && f.content == s.cache[SegmentCacheKey(url, hs)]
  {
    hide Run, SegmentCacheKey, SameHeaders, Confusable;
    CacheAnswers(settings, steps, url, hs);
  }

  /** In particular in every interleaving without newlines in URLs. */
  lemma CleanRunsAgree(settings: Settings, steps: seq<Step>, url: Text, hs: seq<Header>)
    requires Run(settings, START, steps).Some? && (forall step <- steps :: CleanStep(step)) && Free(url, NEWLINE)
    requires SegmentCacheKey(url, hs) in Run(settings, START, steps).value.cache
    ensures var s := Run(settings, START, steps).value;
            exists f <- s.fetched :: f.url == url && SameHeaders(f.headers, hs)
                                     && f.content == s.cache[SegmentCacheKey(url, hs)]
  {
    hide Run, SegmentCacheKey, SameHeaders, Confusable, Free;
    RunClean(settings, START, steps);
    forall f <- Run(settings, START, steps).value.fetched ensures !Confusable(f.url, f.headers, url, hs) {
      KeysApart(f.url, f.headers, url, hs);
    }
    CacheAgrees(settings, steps, url, hs);
  }

  /** With a newline in a URL this fails: after one fetch of `other` without headers, the cache answers a request for
      `url` with headers `hs` with the bytes of `other`. */
  lemma CacheConfused(settings: Settings, key: Text, url: Text, hs: seq<Header>, b: Content) returns (steps: seq<Step>)
    requires settings.ahead > 0 && settings.timeout > 0 && hs != []
    ensures Run(settings, START, steps).Some?
    ensures var s := Run(settings, START, steps).value;
            && SegmentCacheKey(url, hs) in s.cache && s.cache[SegmentCacheKey(url, hs)] == b
            && forall f <- s.fetched :: f.url != url && !SameHeaders(f.headers, hs)
  {
    hide Run, SegmentCacheKey, SameHeaders, Free;
    var other := SegmentCacheKey(url, hs);
    NewlineCollides(url, hs);
    var s;
    steps, s := FetchOne(settings, key, other, b);
  }

  /** A run in which one URL is registered, fetched without headers, and cached. */
  lemma FetchOne(settings: Settings, key: Text, url: Text, b: Content) returns (steps: seq<Step>, s: State)
    requires settings.ahead > 0 && settings.timeout > 0
    ensures Run(settings, START, steps) == Some(s)
    ensures s.fetched == {Fetch(url, [], b)} && s.cache == map[SegmentCacheKey(url, []) := b]
  {
    hide Run, SegmentCacheKey, WorkSlot;
    var slot;
    steps, slot := QueueOne(settings, key, url);
    var start := START.(entries := map[key := 0], slots := [slot]);
    var f, empty := Fetch(url, [], b), [];
    assert [f][1..] == empty && empty + [f] == [f];
    var fetching := With(start, slot).(fetched := {f});
    LastWork(settings, slot, f);
    var s1 := With(fetching, slot.(phase := Fetching([], [f], [])));
    steps := Do(settings, steps, With(start, slot), Work(0, 0, Some(b)), s1);
    var s2 := With(fetching, slot.(phase := Storing([f])));
    steps := Do(settings, steps, s1, Work(0, 0, None), s2);
    s := With(fetching, slot.(phase := Storing([]))).(cache := map[SegmentCacheKey(url, []) := b]);
    steps := Do(settings, steps, s2, Work(0, 0, None), s);
  }

  lemma LastWork(settings: Settings, slot: Slot, f: Fetch)
    requires slot.phase == Fetching([f.url], [], []) && f.headers == []
    ensures WorkSlot(settings, slot, map[], 0, Some(f.content)) == slot.(phase := Fetching([], [f], []))
    ensures WorkSlot(settings, slot.(phase := Fetching([], [f], [])), map[], 0, None) == slot.(phase := Storing([f]))
    ensures WorkSlot(settings, slot.(phase := Storing([f])), map[], 0, None) == slot.(phase := Storing([]))
  {
    var urls, fetches: seq<Fetch> := [f.url], [];
    assert urls[1..] == [] && fetches + [f] == [f] && [f][1..] == fetches;
  }

  /** The worker has taken the URL out of the queue and is about to fetch it. */
  lemma QueueOne(settings: Settings, key: Text, url: Text) returns (steps: seq<Step>, slot: Slot)
    requires settings.ahead > 0 && settings.timeout > 0
    ensures slot.phase == Fetching([url], [], []) && slot.key == key
    ensures Run(settings, START, steps) == Some(START.(entries := map[key := 0], slots := [slot]))
  {
    hide Run, SegmentCacheKey;
    var first := Slot(key, [url], [], 0, false, Starting, multiset([url]), multiset{}, multiset{}, multiset{});
    var done := first.(queue := [], popped := multiset([url]));
    var queue: seq<Text>, none: seq<Text> := [url], [];
    assert queue[..1] == queue && queue[1..] == none && multiset{} + multiset(queue) == multiset(queue)
           && none + [url] == queue;
    steps := [];
    RunNothing(settings);
    var s := START.(entries := map[key := 0], slots := [first]);
    steps := Do(settings, steps, START, RegisterNew(key, [url], [], 0), s);
    steps := DoWork(settings, steps, s, None, first.(phase := Checking));
    steps := DoWork(settings, steps, With(s, first.(phase := Checking)), None, first.(phase := Popping));
    steps := DoWork(settings, steps, With(s, first.(phase := Popping)), None, done.(phase := Filtering([url], [], [])));
    steps := DoWork(settings, steps, With(s, done.(phase := Filtering([url], [], []))), None,
                    done.(phase := Filtering([], [url], [])));
    slot := done.(phase := Fetching([url], [], []));
    steps := DoWork(settings, steps, With(s, done.(phase := Filtering([], [url], []))), None, slot);
  }

  /** A pool with a single prefetcher. */
  function With(s: State, slot: Slot): State {
    s.(slots := [slot])
  }

  lemma DoWork(settings: Settings, before: seq<Step>, s: State, outcome: Option<Content>, after: Slot)
    returns (steps: seq<Step>)
    requires Run(settings, START, before) == Some(s) && |s.slots| == 1 && Live(s.slots[0])
    requires var phase := s.slots[0].phase; !phase.Evicting? && !phase.Fetching? && !phase.Storing?
    requires WorkSlot(settings, s.slots[0], s.cache, 0, outcome) == after
    ensures Run(settings, START, steps) == Some(With(s, after))
  {
    hide WorkSlot, Run;
    assert s.slots[0 := after] == [after];
    steps := Do(settings, before, s, Work(0, 0, outcome), With(s, after));
  }
}
