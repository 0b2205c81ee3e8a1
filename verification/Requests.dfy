/** What a client gets done at a prefetcher (src/hls/prebuffer.rs:77-100, 170-190 and 241-246), whatever happens between
    its steps. */
module Requests {
  import opened Bytes
  import opened CacheKey
  import opened Prefetcher
  import opened Prebuffer

  /** What a client asks for: new URLs for a playlist, or one segment of it first. */
  datatype Wish = Refresh(key: Text, urls: seq<Text>) | Segment(key: Text, url: Text)

  /** What has been seen to happen in its steps: its wish was met, the time was noted, the worker was notified. */
  datatype Deeds = Deeds(wish: Wish, met: bool, noted: bool, notified: bool)

  predicate Meets(slot: Slot, wish: Wish) {
    match wish
    case Refresh(key, urls) => slot.key == key && slot.queue == urls
    case Segment(key, url) => slot.key == key && slot.queue != [] && slot.queue[0] == url
  }

  /** An onlooker compares the prefetcher after a client's step with what the client asked for. */
  function Seen(settings: Settings, s: State, step: Step, deeds: map<nat, Deeds>): map<nat, Deeds>
    requires Enabled(s, step)
  {
    match step
    case RegisterAgain(client, key, urls, _) => deeds[client := Deeds(Refresh(key, urls), false, false, false)]
    case Request(client, key, url) => deeds[client := Deeds(Segment(key, url), false, false, false)]
    case Advance(client, now) =>
      if client in deeds then
        var d, slot := deeds[client], Apply(settings, s, step).slots[s.clients[client].id];
        deeds[client := Deeds(d.wish, d.met || Meets(slot, d.wish), d.noted || slot.lastActive == now,
                              d.notified || slot.wake)]
      else deeds
    case _ => deeds
  }

  function SeenOver(settings: Settings, s: State, steps: seq<Step>, deeds: map<nat, Deeds>): map<nat, Deeds>
    decreases |steps|
  {
    if steps == [] || !Enabled(s, steps[0]) then deeds
    else SeenOver(settings, Apply(settings, s, steps[0]), steps[1..], Seen(settings, s, steps[0], deeds))
  }

  /** What is done when a client stands at `c`. */
  predicate DoneSoFar(key: Text, c: Client, d: Deeds) {
    match c
    case Update(_, urls, _) => d.wish == Refresh(key, urls)
    case Promote(_, url) => d.wish == Segment(key, url)
    case Touch(_, last) => d.met && (last ==> d.notified)
    case Notify(_, last) => d.met && (last ==> d.noted)
  }

  predicate AllDone(d: Deeds) {
    d.met && d.noted && d.notified
  }

  predicate Agreed(s: State, deeds: map<nat, Deeds>) {
    && (forall c <- s.clients ::
          c in deeds && s.clients[c].id < |s.slots| && DoneSoFar(s.slots[s.clients[c].id].key, s.clients[c], deeds[c]))
    && (forall c <- deeds :: c in s.clients || AllDone(deeds[c]))
  }

  /** Prefetchers keep their keys, and none goes away. */
  lemma KeysStay(settings: Settings, s: State, step: Step)
    requires Enabled(s, step)
    ensures var t := Apply(settings, s, step);
            |s.slots| <= |t.slots| && forall i :: 0 <= i < |s.slots| ==> t.slots[i].key == s.slots[i].key
  {
    hide Promoted, SegmentCacheKey, BatchSize, NextClient, Unheld;
  }

  /** One step of a client. */
  lemma ClientStep(slot: Slot, c: Client, now: int, d: Deeds)
    requires DoneSoFar(slot.key, c, d)
    ensures var after := AdvanceSlot(slot, c, now);
            var e := Deeds(d.wish, d.met || Meets(after, d.wish), d.noted || after.lastActive == now,
                           d.notified || after.wake);
            match NextClient(c)
            case None => AllDone(e)
            case Some(next) => DoneSoFar(slot.key, next, e) && next.id == c.id
  {
  }

  lemma AdvanceAgreed(settings: Settings, s: State, client: nat, now: int, deeds: map<nat, Deeds>)
    requires Enabled(s, Advance(client, now)) && Agreed(s, deeds)
    ensures Agreed(Apply(settings, s, Advance(client, now)), Seen(settings, s, Advance(client, now), deeds))
  {
    hide DoneSoFar, AdvanceSlot, NextClient, AllDone, Meets, Matched, Unheld;
    KeysStay(settings, s, Advance(client, now));
    var c := s.clients[client];
    ClientStep(s.slots[c.id], c, now, deeds[client]);
    var t, after := Apply(settings, s, Advance(client, now)), Seen(settings, s, Advance(client, now), deeds);
    forall x <- t.clients
      ensures x in after && t.clients[x].id < |t.slots|
              && DoneSoFar(t.slots[t.clients[x].id].key, t.clients[x], after[x])
    {
      if x != client {
        assert t.clients[x] == s.clients[x] && after[x] == deeds[x];
      }
    }
    forall x <- after ensures x in t.clients || AllDone(after[x]) {
      if x != client {
        assert after[x] == deeds[x];
      }
    }
  }

  lemma BeginAgreed(settings: Settings, s: State, step: Step, deeds: map<nat, Deeds>)
    requires Matched(s) && Enabled(s, step) && Agreed(s, deeds) && (step.RegisterAgain? || step.Request?)
    ensures Agreed(Apply(settings, s, step), Seen(settings, s, step, deeds))
  {
    hide DoneSoFar, AllDone, Unheld;
    Begun(step.key, if step.Request? then Promote(s.entries[step.key], step.url)
                    else Update(s.entries[step.key], step.urls, step.headers));
  }

  lemma OtherAgreed(settings: Settings, s: State, step: Step, deeds: map<nat, Deeds>)
    requires Enabled(s, step) && Agreed(s, deeds) && (step.RegisterNew? || step.Work? || step.Expire?)
    ensures Agreed(Apply(settings, s, step), Seen(settings, s, step, deeds))
  {
    hide DoneSoFar, AllDone, WorkSlot, Unheld, Matched;
    KeysStay(settings, s, step);
    var t := Apply(settings, s, step);
    assert t.clients == s.clients;
  }

  lemma StepAgreed(settings: Settings, s: State, step: Step, deeds: map<nat, Deeds>)
    requires Matched(s) && Enabled(s, step) && Agreed(s, deeds)
    ensures Agreed(Apply(settings, s, step), Seen(settings, s, step, deeds))
  {
    hide Matched, Agreed, Seen, Enabled, Apply;
    match step
    case Advance(client, now) => AdvanceAgreed(settings, s, client, now, deeds);
    case RegisterAgain(_, _, _, _) => BeginAgreed(settings, s, step, deeds);
    case Request(_, _, _) => BeginAgreed(settings, s, step, deeds);
    case _ => OtherAgreed(settings, s, step, deeds);
  }

  lemma Begun(key: Text, c: Client)
    ensures c.Update? ==> DoneSoFar(key, c, Deeds(Refresh(key, c.urls), false, false, false))
    ensures c.Promote? ==> DoneSoFar(key, c, Deeds(Segment(key, c.url), false, false, false))
  {
  }

  lemma {:induction false} RunAgreed(settings: Settings, s: State, steps: seq<Step>, deeds: map<nat, Deeds>)
    requires Matched(s) && Agreed(s, deeds) && Run(settings, s, steps).Some?
    ensures Agreed(Run(settings, s, steps).value, SeenOver(settings, s, steps, deeds))
    decreases |steps|
  {
    hide Matched, Agreed, Seen, Enabled, Apply;
    if steps != [] {
      StepMatched(settings, s, steps[0]);
      StepAgreed(settings, s, steps[0], deeds);
      RunAgreed(settings, Apply(settings, s, steps[0]), steps[1..], Seen(settings, s, steps[0], deeds));
    }
  }

  /** In every interleaving a client that has finished has had its wish met at the prefetcher of its playlist: the queue
      was exactly its URLs, or began with its segment; and the time was noted and the worker notified. */
  lemma WishesMet(settings: Settings, steps: seq<Step>, client: nat)
    requires Run(settings, START, steps).Some?
    ensures var s, deeds := Run(settings, START, steps).value, SeenOver(settings, START, steps, map[]);
            && (client in s.clients ==> client in deeds)
            && (client in deeds && client !in s.clients ==>
                  deeds[client].met && deeds[client].noted && deeds[client].notified)
  {
    hide Run, SeenOver, DoneSoFar;
    RunAgreed(settings, START, steps, map[]);
  }
}
