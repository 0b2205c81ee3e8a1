/** With which headers the pool fetches (src/hls/prebuffer.rs:77-83, 109-125): those last registered for the playlist
    when the URL was popped, and not those of a refresh that comes later. */
module FetchHeaders {
  import opened Bytes
  import opened CacheKey
  import opened Prefetcher
  import opened Prebuffer

  datatype Registration = Registration(key: Text, headers: seq<Header>)

  /** `url` was popped for playlist `key`, which was last registered with `headers`. */
  datatype Pop = Pop(key: Text, url: Text, headers: seq<Header>)

  /** What an onlooker notes: the headers last registered for every playlist, the registrations that clients have under
      way, and what was popped. */
  datatype Notes = Notes(latest: map<Text, seq<Header>>, begun: map<nat, Registration>, pops: set<Pop>)

  /** An onlooker sees registrations begin and take effect, and the front of the queue of a worker that pops. */
  function Noted(settings: Settings, s: State, step: Step, notes: Notes): Notes
    requires Enabled(s, step)
  {
    match step
    case RegisterNew(key, _, headers, _) => notes.(latest := notes.latest[key := headers])
    case RegisterAgain(client, key, _, headers) =>
      notes.(begun := notes.begun[client := Registration(key, headers)])
    case Advance(client, _) =>
      if s.clients[client].Update? && client in notes.begun then
        notes.(latest := notes.latest[notes.begun[client].key := notes.begun[client].headers])
      else notes
    case Work(id, _, _) =>
      var slot := s.slots[id];
      if slot.phase.Popping? && slot.key in notes.latest then
        notes.(pops := notes.pops + Pops(slot.key, slot.queue, settings.ahead, notes.latest[slot.key]))
      else notes
    case _ => notes
  }

  /** The first `ahead` URLs, or all if there are fewer. */
  function Pops(key: Text, queue: seq<Text>, ahead: nat, headers: seq<Header>): set<Pop> {
    set j | 0 <= j < |queue| && j < ahead :: Pop(key, queue[j], headers)
  }

  function NotedOver(settings: Settings, s: State, steps: seq<Step>, notes: Notes): Notes
    decreases |steps|
  {
    if steps == [] || !Enabled(s, steps[0]) then notes
    else NotedOver(settings, Apply(settings, s, steps[0]), steps[1..], Noted(settings, s, steps[0], notes))
  }

  // ----- What agrees with the notes -----

  predicate AllPopped(pops: set<Pop>, key: Text, urls: seq<Text>, headers: seq<Header>) {
    forall u <- urls :: Pop(key, u, headers) in pops
  }

  predicate Results(pops: set<Pop>, key: Text, results: seq<Fetch>) {
    forall f <- results :: Pop(key, f.url, f.headers) in pops
  }

  /** A worker holds only URLs that were popped for its playlist, each with the headers of that moment. */
  predicate PhaseNoted(pops: set<Pop>, key: Text, phase: Phase) {
    match phase
    case Filtering(todo, requests, headers) =>
      AllPopped(pops, key, todo, headers) && AllPopped(pops, key, requests, headers)
    case Fetching(todo, results, headers) => AllPopped(pops, key, todo, headers) && Results(pops, key, results)
    case Storing(results) => Results(pops, key, results)
    case _ => true
  }

  predicate SlotNoted(notes: Notes, slot: Slot) {
    && (Live(slot) ==> slot.key in notes.latest && slot.headers == notes.latest[slot.key])
    && PhaseNoted(notes.pops, slot.key, slot.phase)
  }

  predicate ClientNoted(s: State, notes: Notes, client: nat)
    requires client in s.clients
  {
    var c := s.clients[client];
    c.Update? ==>
      c.id < |s.slots| && client in notes.begun && notes.begun[client] == Registration(s.slots[c.id].key, c.headers)
  }

  predicate FetchNoted(pops: set<Pop>, f: Fetch) {
    exists p <- pops :: p.url == f.url && p.headers == f.headers
  }

  predicate AllNoted(s: State, notes: Notes) {
    && (forall i :: 0 <= i < |s.slots| ==> SlotNoted(notes, s.slots[i]))
    && (forall client <- s.clients :: ClientNoted(s, notes, client))
    && (forall f <- s.fetched :: FetchNoted(notes.pops, f))
  }

  // ----- One step of a worker -----

  lemma {:induction false} Taken(key: Text, queue: seq<Text>, ahead: nat, headers: seq<Header>)
    ensures AllPopped(Pops(key, queue, ahead, headers), key, queue[..BatchSize(queue, ahead)], headers)
  {
    var batch := queue[..BatchSize(queue, ahead)];
    forall u <- batch ensures Pop(key, u, headers) in Pops(key, queue, ahead, headers) {
      var j :| 0 <= j < |batch| && batch[j] == u;
      assert queue[j] == u;
    }
  }

  lemma FilterNoted(pops: set<Pop>, key: Text, todo: seq<Text>, requests: seq<Text>, headers: seq<Header>)
    requires todo != [] && AllPopped(pops, key, todo, headers) && AllPopped(pops, key, requests, headers)
    ensures AllPopped(pops, key, todo[1..], headers) && AllPopped(pops, key, requests + [todo[0]], headers)
  {
    assert todo[0] in todo;
  }

  lemma FetchedNoted(pops: set<Pop>, key: Text, todo: seq<Text>, results: seq<Fetch>, headers: seq<Header>, f: Fetch)
    requires todo != [] && AllPopped(pops, key, todo, headers) && Results(pops, key, results)
    requires f.url == todo[0] && f.headers == headers
    ensures AllPopped(pops, key, todo[1..], headers) && Results(pops, key, results) && Results(pops, key, results + [f])
    ensures Pop(key, f.url, f.headers) in pops
  {
    assert todo[0] in todo;
  }

  lemma StoredNoted(pops: set<Pop>, key: Text, results: seq<Fetch>)
    requires Results(pops, key, results) && results != []
    ensures Results(pops, key, results[1..])
  {
  }

  lemma PoppingNoted(settings: Settings, slot: Slot, cache: map<Text, Content>, notes: Notes, now: int,
                     outcome: Option<Content>)
    requires slot.phase.Popping? && SlotNoted(notes, slot)
    ensures PhaseNoted(Pops(slot.key, slot.queue, settings.ahead, notes.latest[slot.key]), slot.key,
                       WorkSlot(settings, slot, cache, now, outcome).phase)
  {
    hide AllPopped, Pops;
    Taken(slot.key, slot.queue, settings.ahead, slot.headers);
    NothingPopped(Pops(slot.key, slot.queue, settings.ahead, slot.headers), slot.key, slot.headers);
  }

  lemma NothingPopped(pops: set<Pop>, key: Text, headers: seq<Header>)
    ensures AllPopped(pops, key, [], headers) && Results(pops, key, [])
  {
  }

  /** What a worker holds in its other phases it held before. */
  lemma HeldNoted(settings: Settings, slot: Slot, cache: map<Text, Content>, pops: set<Pop>, now: int,
                  outcome: Option<Content>)
    requires Live(slot) && !slot.phase.Popping? && PhaseNoted(pops, slot.key, slot.phase)
    ensures PhaseNoted(pops, slot.key, WorkSlot(settings, slot, cache, now, outcome).phase)
    ensures slot.phase.Fetching? && slot.phase.todo != [] ==>
              Pop(slot.key, slot.phase.todo[0], slot.phase.headers) in pops
  {
    hide SegmentCacheKey, AllPopped, Results;
    match slot.phase {
      case Filtering(todo, requests, headers) =>
        NothingPopped(pops, slot.key, headers);
        if todo != [] {
          FilterNoted(pops, slot.key, todo, requests, headers);
        }
      case Fetching(todo, results, headers) =>
        if todo != [] {
          var content := if outcome.Some? then outcome.value else [];
          FetchedNoted(pops, slot.key, todo, results, headers, Fetch(todo[0], headers, content));
          assert results + [] == results;
        }
      case Storing(results) =>
        if results != [] {
          StoredNoted(pops, slot.key, results);
        }
      case _ =>
    }
  }

  lemma WorkKeepsHeaders(settings: Settings, slot: Slot, cache: map<Text, Content>, now: int, outcome: Option<Content>)
    requires Live(slot)
    ensures var after := WorkSlot(settings, slot, cache, now, outcome);
            after.key == slot.key && after.headers == slot.headers
  {
    hide SegmentCacheKey, BatchSize;
  }

  lemma PhaseMore(pops: set<Pop>, more: set<Pop>, key: Text, phase: Phase)
    requires PhaseNoted(pops, key, phase) && pops <= more
    ensures PhaseNoted(more, key, phase)
  {
  }

  lemma FetchMore(pops: set<Pop>, more: set<Pop>, f: Fetch)
    requires FetchNoted(pops, f) && pops <= more
    ensures FetchNoted(more, f)
  {
    var p :| p in pops && p.url == f.url && p.headers == f.headers;
    assert p in more;
  }

  lemma WorkNoted(settings: Settings, s: State, notes: Notes, id: nat, now: int, outcome: Option<Content>)
    requires AllNoted(s, notes) && Enabled(s, Work(id, now, outcome))
    ensures AllNoted(WorkOnce(settings, s, id, now, outcome), Noted(settings, s, Work(id, now, outcome), notes))
  {
    hide WorkSlot, PhaseNoted, FetchNoted, Unheld, Pops, KeyOf;
    var slot, t := s.slots[id], WorkOnce(settings, s, id, now, outcome);
    var more := Noted(settings, s, Work(id, now, outcome), notes);
    assert SlotNoted(notes, slot);
    WorkKeepsHeaders(settings, slot, s.cache, now, outcome);
    if slot.phase.Popping? {
      PoppingNoted(settings, slot, s.cache, notes, now, outcome);
      PhaseMore(Pops(slot.key, slot.queue, settings.ahead, notes.latest[slot.key]), more.pops, slot.key,
                t.slots[id].phase);
    } else {
      HeldNoted(settings, slot, s.cache, notes.pops, now, outcome);
    }
    forall i | 0 <= i < |t.slots| ensures SlotNoted(more, t.slots[i]) {
      if i != id {
        PhaseMore(notes.pops, more.pops, s.slots[i].key, s.slots[i].phase);
      }
    }
    forall client <- t.clients ensures ClientNoted(t, more, client) {
      assert ClientNoted(s, notes, client);
    }
    forall f <- t.fetched ensures FetchNoted(more.pops, f) {
      if f in s.fetched {
        FetchMore(notes.pops, more.pops, f);
      } else {
        PoppedThen(notes.pops, slot.key, f);
      }
    }
  }

  lemma PoppedThen(pops: set<Pop>, key: Text, f: Fetch)
    requires Pop(key, f.url, f.headers) in pops
    ensures FetchNoted(pops, f)
  {
  }

  // ----- The other steps -----

  lemma AdvanceSlotNoted(slot: Slot, c: Client, now: int)
    ensures var after := AdvanceSlot(slot, c, now);
            && after.key == slot.key && after.phase == slot.phase
            && after.headers == if c.Update? then c.headers else slot.headers
  {
    hide Promoted;
  }

  /** A live prefetcher is the only live one of its playlist, so that a registration changes no other's headers. */
  lemma AdvanceNoted(settings: Settings, s: State, notes: Notes, client: nat, now: int)
    requires Matched(s) && AllNoted(s, notes) && Enabled(s, Advance(client, now))
    ensures AllNoted(AdvanceClient(s, client, now), Noted(settings, s, Advance(client, now), notes))
  {
    hide AdvanceSlot, PhaseNoted, FetchNoted;
    var c, t := s.clients[client], AdvanceClient(s, client, now);
    var more := Noted(settings, s, Advance(client, now), notes);
    AdvanceSlotNoted(s.slots[c.id], c, now);
    assert ClientNoted(s, notes, client);
    forall i | 0 <= i < |t.slots| ensures SlotNoted(more, t.slots[i]) {
      assert SlotNoted(notes, s.slots[i]);
    }
    forall other <- t.clients ensures ClientNoted(t, more, other) {
      if other != client {
        assert ClientNoted(s, notes, other);
      }
    }
  }

  lemma RegisterNoted(settings: Settings, s: State, notes: Notes, step: Step)
    requires Matched(s) && AllNoted(s, notes) && Enabled(s, step) && (step.RegisterNew? || step.RegisterAgain?)
    ensures AllNoted(Apply(settings, s, step), Noted(settings, s, step, notes))
  {
    hide PhaseNoted, FetchNoted;
    var t, more := Apply(settings, s, step), Noted(settings, s, step, notes);
    forall i | 0 <= i < |t.slots| ensures SlotNoted(more, t.slots[i]) {
      if i < |s.slots| {
        assert SlotNoted(notes, s.slots[i]) && t.slots[i] == s.slots[i];
      } else {
        StartNoted(more.pops, t.slots[i]);
      }
    }
    forall client <- t.clients ensures ClientNoted(t, more, client) {
      if client in s.clients {
        assert ClientNoted(s, notes, client);
      }
    }
  }

  lemma StartNoted(pops: set<Pop>, slot: Slot)
    requires slot.phase.Starting?
    ensures PhaseNoted(pops, slot.key, slot.phase)
  {
  }

  lemma RequestNoted(settings: Settings, s: State, notes: Notes, step: Step)
    requires AllNoted(s, notes) && Enabled(s, step) && (step.Request? || step.Expire?)
    ensures AllNoted(Apply(settings, s, step), Noted(settings, s, step, notes))
  {
    hide SlotNoted, FetchNoted;
    var t := Apply(settings, s, step);
    forall client <- t.clients ensures ClientNoted(t, notes, client) {
      if client in s.clients {
        assert ClientNoted(s, notes, client);
      }
    }
  }

  lemma StepNoted(settings: Settings, s: State, notes: Notes, step: Step)
    requires Matched(s) && AllNoted(s, notes) && Enabled(s, step)
    ensures AllNoted(Apply(settings, s, step), Noted(settings, s, step, notes))
  {
    hide AllNoted, Noted, Matched, Enabled, AdvanceClient, WorkOnce;
    match step
    case Work(id, now, outcome) => WorkNoted(settings, s, notes, id, now, outcome);
    case Advance(client, now) => AdvanceNoted(settings, s, notes, client, now);
    case Request(_, _, _) => RequestNoted(settings, s, notes, step);
    case Expire(_) => RequestNoted(settings, s, notes, step);
    case RegisterNew(_, _, _, _) => RegisterNoted(settings, s, notes, step);
    case RegisterAgain(_, _, _, _) => RegisterNoted(settings, s, notes, step);
  }

  // ----- Every run -----

  lemma {:induction false} RunNoted(settings: Settings, s: State, steps: seq<Step>, notes: Notes)
    requires Matched(s) && AllNoted(s, notes) && Run(settings, s, steps).Some?
    ensures AllNoted(Run(settings, s, steps).value, NotedOver(settings, s, steps, notes))
    decreases |steps|
  {
    hide Matched, AllNoted, Noted, Enabled, Apply;
    if steps != [] {
      StepMatched(settings, s, steps[0]);
      StepNoted(settings, s, notes, steps[0]);
      RunNoted(settings, Apply(settings, s, steps[0]), steps[1..], Noted(settings, s, steps[0], notes));
    }
  }

  const UNKNOWN := Notes(map[], map[], {})

  /** In every interleaving, every fetch was of a URL popped for some playlist, with the headers that were the last
      registered for that playlist when it was popped;
        and every live prefetcher has the last ones of its playlist now. */
  lemma FetchedAsRegistered(settings: Settings, steps: seq<Step>)
    requires Run(settings, START, steps).Some?
    ensures var s, notes := Run(settings, START, steps).value, NotedOver(settings, START, steps, UNKNOWN);
            && (forall f <- s.fetched :: exists p <- notes.pops :: p.url == f.url && p.headers == f.headers)
            && (forall i :: 0 <= i < |s.slots| && Live(s.slots[i]) ==>
                  && s.slots[i].key in notes.latest && s.slots[i].headers == notes.latest[s.slots[i].key])
  {
    hide Run, NotedOver, PhaseNoted;
    RunNoted(settings, START, steps, UNKNOWN);
    var s, notes := Run(settings, START, steps).value, NotedOver(settings, START, steps, UNKNOWN);
    forall f <- s.fetched ensures exists p <- notes.pops :: p.url == f.url && p.headers == f.headers {
      assert FetchNoted(notes.pops, f);
    }
    forall i | 0 <= i < |s.slots| && Live(s.slots[i])
      ensures s.slots[i].key in notes.latest && s.slots[i].headers == notes.latest[s.slots[i].key]
    {
      assert SlotNoted(notes, s.slots[i]);
    }
  }
}
