/** What a worker does with the URLs it pops (src/hls/prebuffer.rs:210-256): each is found in the cache or fetched once,
    and every successful fetch goes into the cache. */
module Batches {
  import opened Bytes
  import opened CacheKey
  import opened Prefetcher
  import opened Prebuffer

  /** What an onlooker enters for one worker: the popped URLs whose request had an answer in the cache when the worker
      looked, those it fetched, the successes among these, and the successes found in the cache after they were to be
      stored. */
  datatype Ledger = Ledger(cached: multiset<Text>, fetched: multiset<Text>, got: multiset<Fetch>, kept: multiset<Fetch>)

  const BLANK := Ledger(multiset{}, multiset{}, multiset{}, multiset{})

  /** The cache answers the request of `f` with its content. */
  predicate Answers(cache: map<Text, Content>, f: Fetch) {
    KeyOf(f) in cache && cache[KeyOf(f)] == f.content
  }

  function Entered(settings: Settings, s: State, step: Step, id: nat, l: Ledger): Ledger
    requires Enabled(s, step)
  {
    if !step.Work? || step.id != id then l
    else
      match s.slots[id].phase
      case Filtering(todo, _, headers) =>
        if todo != [] && SegmentCacheKey(todo[0], headers) in s.cache then l.(cached := l.cached + multiset{todo[0]})
        else l
      case Fetching(todo, _, headers) =>
        if todo == [] then l
        else
          l.(fetched := l.fetched + multiset{todo[0]},
             got := if step.outcome.Some? then l.got + multiset{Fetch(todo[0], headers, step.outcome.value)} else l.got)
      case Storing(results) =>
        if results != [] && Answers(Apply(settings, s, step).cache, results[0]) then
          l.(kept := l.kept + multiset{results[0]})
        else l
      case _ => l
  }

  function EnteredOver(settings: Settings, s: State, steps: seq<Step>, id: nat, l: Ledger): Ledger
    decreases |steps|
  {
    if steps == [] || !Enabled(s, steps[0]) then l
    else EnteredOver(settings, Apply(settings, s, steps[0]), steps[1..], id, Entered(settings, s, steps[0], id, l))
  }

  /** The popped URLs a worker has still to deal with. */
  function InHand(phase: Phase): multiset<Text> {
    match phase
    case Filtering(todo, requests, _) => multiset(todo) + multiset(requests)
    case Fetching(todo, _, _) => multiset(todo)
    case _ => multiset{}
  }

  /** The ledger is balanced. */
  predicate Balanced(slot: Slot, l: Ledger) {
    && slot.popped == l.cached + l.fetched + InHand(slot.phase)
    && l.got == l.kept + multiset(Pending(slot.phase))
  }

  predicate Follows(s: State, id: nat, l: Ledger) {
    if id < |s.slots| then Balanced(s.slots[id], l) else l == BLANK
  }

  // ----- One step -----

  lemma HeadAndRest<T>(s: seq<T>)
    requires s != []
    ensures multiset(s) == multiset{s[0]} + multiset(s[1..])
  {
    assert s == [s[0]] + s[1..];
  }

  /** Filtering and fetching change the phase alone. */
  lemma PhaseOnly(settings: Settings, slot: Slot, cache: map<Text, Content>, now: int, outcome: Option<Content>)
    requires slot.phase.Filtering? || slot.phase.Fetching?
    ensures var after := WorkSlot(settings, slot, cache, now, outcome);
            && after.popped == slot.popped
            && (slot.phase.Filtering? ==>
                  var Filtering(todo, requests, headers) := slot.phase;
                  after.phase == if todo == [] then Fetching(requests, [], headers)
                                 else if SegmentCacheKey(todo[0], headers) in cache
                                 then Filtering(todo[1..], requests, headers)
                                 else Filtering(todo[1..], requests + [todo[0]], headers))
            && (slot.phase.Fetching? ==>
                  var Fetching(todo, results, headers) := slot.phase;
                  after.phase == if todo == [] then Storing(results)
                                 else if outcome.None? then Fetching(todo[1..], results, headers)
                                 else Fetching(todo[1..], results + [Fetch(todo[0], headers, outcome.value)], headers))
  {
    hide SegmentCacheKey;
    if slot.phase.Fetching? {
      assert slot.phase.results + [] == slot.phase.results;
    }
  }

  lemma Filtered(settings: Settings, slot: Slot, cache: map<Text, Content>, now: int, outcome: Option<Content>,
                 l: Ledger)
    requires slot.phase.Filtering? && Balanced(slot, l)
    ensures var Filtering(todo, _, headers) := slot.phase;
            Balanced(WorkSlot(settings, slot, cache, now, outcome),
                     if todo != [] && SegmentCacheKey(todo[0], headers) in cache
                     then l.(cached := l.cached + multiset{todo[0]}) else l)
  {
    hide SegmentCacheKey, WorkSlot;
    var Filtering(todo, requests, headers) := slot.phase;
    PhaseOnly(settings, slot, cache, now, outcome);
    if todo == [] {
      assert multiset(todo) + multiset(requests) == multiset(requests);
    } else if SegmentCacheKey(todo[0], headers) in cache {
      Found(slot.popped, l.cached, l.fetched, todo, multiset(requests));
    } else {
      Missing(slot.popped, l.cached, l.fetched, todo, requests);
    }
  }

  lemma Found<T>(all: multiset<T>, a: multiset<T>, b: multiset<T>, todo: seq<T>, c: multiset<T>)
    requires todo != [] && all == a + b + (multiset(todo) + c)
    ensures all == (a + multiset{todo[0]}) + b + (multiset(todo[1..]) + c)
  {
    HeadAndRest(todo);
  }

  lemma Missing<T>(all: multiset<T>, a: multiset<T>, b: multiset<T>, todo: seq<T>, c: seq<T>)
    requires todo != [] && all == a + b + (multiset(todo) + multiset(c))
    ensures all == a + b + (multiset(todo[1..]) + multiset(c + [todo[0]]))
  {
    HeadAndRest(todo);
    assert multiset(c + [todo[0]]) == multiset(c) + multiset{todo[0]};
  }

  lemma Tried(settings: Settings, slot: Slot, cache: map<Text, Content>, now: int, outcome: Option<Content>, l: Ledger)
    requires slot.phase.Fetching? && Balanced(slot, l)
    ensures var Fetching(todo, _, headers) := slot.phase;
            Balanced(WorkSlot(settings, slot, cache, now, outcome),
                     if todo == [] then l
                     else
                       l.(fetched := l.fetched + multiset{todo[0]},
                          got := if outcome.Some? then l.got + multiset{Fetch(todo[0], headers, outcome.value)}
                                 else l.got))
  {
    hide SegmentCacheKey, WorkSlot;
    var Fetching(todo, results, headers) := slot.phase;
    PhaseOnly(settings, slot, cache, now, outcome);
    if todo == [] {
      assert multiset(todo) == multiset{};
    } else {
      HandOver(slot.popped, l.cached, l.fetched, todo);
      if outcome.Some? {
        AddedBoth(l.got, l.kept, results, Fetch(todo[0], headers, outcome.value));
      }
    }
  }

  lemma HandOver<T>(all: multiset<T>, a: multiset<T>, b: multiset<T>, todo: seq<T>)
    requires todo != [] && all == a + b + multiset(todo)
    ensures all == a + (b + multiset{todo[0]}) + multiset(todo[1..])
  {
    HeadAndRest(todo);
  }

  lemma AddedBoth<T>(got: multiset<T>, kept: multiset<T>, results: seq<T>, x: T)
    requires got == kept + multiset(results)
    ensures got + multiset{x} == kept + multiset(results + [x])
  {
  }

  lemma Stored(settings: Settings, slot: Slot, cache: map<Text, Content>, now: int, outcome: Option<Content>, l: Ledger)
    requires slot.phase.Storing? && Balanced(slot, l)
    ensures var Storing(results) := slot.phase;
            Balanced(WorkSlot(settings, slot, cache, now, outcome),
                     if results == [] then l else l.(kept := l.kept + multiset{results[0]}))
  {
    hide SegmentCacheKey;
    var Storing(results) := slot.phase;
    if results == [] {
      assert multiset(results) == multiset{};
    } else {
      PutAway(l.got, l.kept, results);
    }
  }

  lemma StoredAnswers(settings: Settings, s: State, id: nat, now: int, outcome: Option<Content>)
    requires Enabled(s, Work(id, now, outcome)) && s.slots[id].phase.Storing? && s.slots[id].phase.results != []
    ensures Answers(Apply(settings, s, Work(id, now, outcome)).cache, s.slots[id].phase.results[0])
  {
    hide SegmentCacheKey, WorkSlot, Unheld;
  }

  lemma PutAway<T>(got: multiset<T>, kept: multiset<T>, results: seq<T>)
    requires results != [] && got == kept + multiset(results)
    ensures got == (kept + multiset{results[0]}) + multiset(results[1..])
  {
    HeadAndRest(results);
  }

  lemma WorkBalanced(settings: Settings, s: State, id: nat, now: int, outcome: Option<Content>, l: Ledger)
    requires Enabled(s, Work(id, now, outcome)) && Balanced(s.slots[id], l)
    ensures Balanced(WorkSlot(settings, s.slots[id], s.cache, now, outcome),
                     Entered(settings, s, Work(id, now, outcome), id, l))
  {
    hide SegmentCacheKey, WorkSlot, Answers, Unheld, Balanced, Apply;
    var slot := s.slots[id];
    match slot.phase {
      case Filtering(_, _, _) => Filtered(settings, slot, s.cache, now, outcome, l);
      case Fetching(_, _, _) => Tried(settings, slot, s.cache, now, outcome, l);
      case Storing(results) =>
        if results != [] {
          StoredAnswers(settings, s, id, now, outcome);
        }
        Stored(settings, slot, s.cache, now, outcome, l);
      case _ => OtherBalanced(settings, slot, s.cache, now, outcome, l);
    }
  }

  /** The other phases: popping takes the batch in hand, the rest leaves all as it is. */
  lemma InHandAfter(settings: Settings, slot: Slot, cache: map<Text, Content>, now: int, outcome: Option<Content>)
    requires Live(slot) && !slot.phase.Filtering? && !slot.phase.Fetching? && !slot.phase.Storing?
    ensures var after := WorkSlot(settings, slot, cache, now, outcome);
            var batch := if slot.phase.Popping? then slot.queue[..BatchSize(slot.queue, settings.ahead)] else [];
            && InHand(slot.phase) == multiset{} && Pending(slot.phase) == [] && Pending(after.phase) == []
            && InHand(after.phase) == multiset(batch)
            && after.popped == slot.popped + multiset(batch)
  {
    hide BatchSize;
  }

  lemma OtherBalanced(settings: Settings, slot: Slot, cache: map<Text, Content>, now: int, outcome: Option<Content>,
                      l: Ledger)
    requires Live(slot) && !slot.phase.Filtering? && !slot.phase.Fetching? && !slot.phase.Storing? && Balanced(slot, l)
    ensures Balanced(WorkSlot(settings, slot, cache, now, outcome), l)
  {
    hide WorkSlot, BatchSize, InHand, Pending;
    InHandAfter(settings, slot, cache, now, outcome);
    var after := WorkSlot(settings, slot, cache, now, outcome);
    TakenInHand(slot.popped, l.cached + l.fetched, InHand(after.phase));
  }

  lemma TakenInHand<T>(popped: multiset<T>, dealt: multiset<T>, batch: multiset<T>)
    requires popped == dealt + multiset{}
    ensures popped + batch == dealt + batch
  {
  }

  lemma AdvanceBalanced(slot: Slot, c: Client, now: int, l: Ledger)
    requires Balanced(slot, l)
    ensures Balanced(AdvanceSlot(slot, c, now), l)
  {
    hide Promoted;
  }

  lemma StepBalanced(settings: Settings, s: State, step: Step, id: nat, l: Ledger)
    requires Enabled(s, step) && Follows(s, id, l)
    ensures Follows(Apply(settings, s, step), id, Entered(settings, s, step, id, l))
  {
    hide WorkSlot, AdvanceSlot, NextClient, Unheld;
    if id < |s.slots| {
      if step.Work? && step.id == id {
        WorkBalanced(settings, s, id, step.now, step.outcome, l);
      } else if step.Advance? && s.clients[step.client].id == id {
        AdvanceBalanced(s.slots[id], s.clients[step.client], step.now, l);
      }
    }
  }

  lemma {:induction false} RunBalanced(settings: Settings, s: State, steps: seq<Step>, id: nat, l: Ledger)
    requires Run(settings, s, steps).Some? && Follows(s, id, l)
    ensures Follows(Run(settings, s, steps).value, id, EnteredOver(settings, s, steps, id, l))
    decreases |steps|
  {
    hide Enabled, Apply, Entered, Follows;
    if steps != [] {
      StepBalanced(settings, s, steps[0], id, l);
      RunBalanced(settings, Apply(settings, s, steps[0]), steps[1..], id, Entered(settings, s, steps[0], id, l));
    }
  }

  /** In every interleaving every URL popped by a worker was found in the cache, or fetched once, or is still in its
      hands; and every success is in the cache by the time the worker has put it away. */
  lemma EachUrlOnce(settings: Settings, steps: seq<Step>, id: nat)
    requires Run(settings, START, steps).Some? && id < |Run(settings, START, steps).value.slots|
    ensures var slot := Run(settings, START, steps).value.slots[id];
            var l := EnteredOver(settings, START, steps, id, BLANK);
            && slot.popped == l.cached + l.fetched + InHand(slot.phase)
            && l.got == l.kept + multiset(Pending(slot.phase))
  {
    hide Run, EnteredOver, InHand, Pending;
    RunBalanced(settings, START, steps, id, BLANK);
  }
}
