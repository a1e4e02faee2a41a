/**
 The shared poll for finance events: one cursor and one cached batch serve all subscribers, and each subscriber
 remembers the keys of its latest events so that repeated notifications deliver nothing twice.
 */
module RealtimeFeed {
  import opened Wrappers

  const REMEMBERED: nat := 200

  /** An event by the six fields of its delivery key, an absent field being the empty text. */
  datatype Event = Event(kind: string, entityId: string, ts: int, status: string, liquidacao: string, asaas: string)

  /**
   A subscriber. The keys are the remembered ones, oldest first; `delivered` is everything its callback has received.
   */
  datatype Subscriber = Subscriber(
    enabled: bool, cobrancaId: Option<string>, keys: seq<Event>, delivered: seq<Event>)

  predicate HasNoRepeats(s: seq<Event>) {
    forall i, j :: 0 <= i < j < |s| ==> s[i] != s[j]
  }

  /** The events not among the keys, each once, in the order of their first occurrence. */
  function Fresh(keys: seq<Event>, events: seq<Event>): (r: seq<Event>)
    ensures HasNoRepeats(r) && |r| <= |events|
    ensures forall e :: e in r <==> e in events && e !in keys
  {
    if events == [] then []
    else
      var n := |events| - 1;
      var r := Fresh(keys, events[..n]);
      assert forall e :: e in events <==> e in events[..n] || e == events[n];
      if events[n] in keys || events[n] in r then r else r + [events[n]]
  }

  function LastOf(s: seq<Event>, n: nat): (r: seq<Event>)
    ensures |r| <= n && (|s| <= n ==> r == s)
  {
    if |s| <= n then s else s[|s| - n..]
  }

  predicate IsRelevant(s: Subscriber, e: Event) {
    s.cobrancaId.None? || s.cobrancaId.value == "" || e.entityId == s.cobrancaId.value
  }

  /** The filter of the events by the subscriber's charge. */
  function Relevant(s: Subscriber, events: seq<Event>): (r: seq<Event>)
    ensures |r| <= |events| && forall e :: e in r <==> e in events && IsRelevant(s, e)
  {
    if events == [] then []
    else
      var n := |events| - 1;
      assert forall e :: e in events <==> e in events[..n] || e == events[n];
      Relevant(s, events[..n]) + if IsRelevant(s, events[n]) then [events[n]] else []
  }

  /** A subscriber without a charge, or with the empty one, takes every event, any other those of its charge. */
  lemma RelevantExactly(s: Subscriber, events: seq<Event>, e: Event)
    ensures e in Relevant(s, events) <==>
            e in events && (s.cobrancaId == None || s.cobrancaId == Some("") || s.cobrancaId == Some(e.entityId))
  {
  }

  /** An event of a batch before which another one does not occur. */
  ghost predicate ComesFirst(events: seq<Event>, e: Event, other: Event) {
    exists a :: 0 <= a < |events| && events[a] == e && other !in events[..a + 1]
  }

  lemma ComesFirstBefore(events: seq<Event>, last: Event, e: Event, other: Event)
    requires ComesFirst(events, e, other)
    ensures ComesFirst(events + [last], e, other)
  {
    var a :| 0 <= a < |events| && events[a] == e && other !in events[..a + 1];
    assert (events + [last])[..a + 1] == events[..a + 1];
  }

  lemma ComesBeforeLast(events: seq<Event>, last: Event, e: Event)
    requires e in events && last !in events
    ensures ComesFirst(events + [last], e, last)
  {
    var a :| 0 <= a < |events| && events[a] == e;
    assert (events + [last])[..a + 1] == events[..a + 1];
    assert forall x :: x in events[..a + 1] ==> x in events;
  }

  /** Of two new events, the one that comes first in the batch is delivered first. */
  lemma {:induction false} FreshIsInOrder(keys: seq<Event>, events: seq<Event>, i: nat, j: nat)
    requires i < j < |Fresh(keys, events)|
    ensures ComesFirst(events, Fresh(keys, events)[i], Fresh(keys, events)[j])
  {
    hide ComesFirst, HasNoRepeats;
    var n := |events| - 1;
    var before := Fresh(keys, events[..n]);
    assert events == events[..n] + [events[n]];
    if j < |before| {
      FreshIsInOrder(keys, events[..n], i, j);
      ComesFirstBefore(events[..n], events[n], before[i], before[j]);
    } else {
      assert before[i] in before;
      ComesBeforeLast(events[..n], events[n], before[i]);
    }
  }

  /** One notification of one subscriber. */
  function Notified(s: Subscriber, events: seq<Event>): Subscriber {
    if !s.enabled then s
    else
      var unseen := Fresh(s.keys, Relevant(s, events));
      s.(keys := LastOf(s.keys + unseen, REMEMBERED), delivered := s.delivered + unseen)
  }

  // ---------------------------------------------------------------- the methods

  /** `markSubscriberEvents`: collects the new events, then evicts the oldest keys beyond the limit. */
  method MarkSubscriberEvents(keys: seq<Event>, events: seq<Event>) returns (kept: seq<Event>, unseen: seq<Event>)
    ensures unseen == Fresh(keys, events)
    ensures kept == LastOf(keys + unseen, REMEMBERED)
  {
    kept, unseen := keys, [];
    for i := 0 to |events|
      invariant unseen == Fresh(keys, events[..i]) && kept == keys + unseen
    {
      assert events[..i + 1][..i] == events[..i];
      if events[i] !in kept {
        kept := kept + [events[i]];
        unseen := unseen + [events[i]];
      }
    }
    assert events[..|events|] == events;
    if |kept| > REMEMBERED {
      var overflow := |kept| - REMEMBERED;
      var removed := 0;
      ghost var all := kept;
      while removed < overflow
        invariant 0 <= removed <= overflow && kept == all[removed..]
      {
        kept := kept[1..];
        removed := removed + 1;
      }
    }
  }

  class SharedFeed {
    var since: int
    var cached: seq<Event>
    var subscribers: seq<Subscriber>

    /** No subscriber remembers more keys than the limit. */
    ghost predicate Valid()
      reads this
    {
      forall i :: 0 <= i < |subscribers| ==> |subscribers[i].keys| <= REMEMBERED
    }

    constructor (now: int)
      ensures Valid() && since == now && cached == [] && subscribers == []
    {
      since, cached, subscribers := now, [], [];
    }

    /** A fetch that succeeded: the cursor moves past the newest event and the batch is cached. */
    method Fetched(events: seq<Event>)
      requires Valid()
      modifies this`since, this`cached
      ensures Valid()
      ensures cached == events && since == Cursor(old(since), events)
    {
      hide Cursor;
      if |events| > 0 {
        var latest := events[0].ts;
        for i := 1 to |events|
          invariant latest == Latest(events[..i])
        {
          assert events[..i + 1][..i] == events[..i];
          if events[i].ts > latest {
            latest := events[i].ts;
          }
        }
        assert events[..|events|] == events;
        since := if since >= latest + 1 then since else latest + 1;
      }
      CursorIs(old(since), events);
      cached := events;
    }

    /** `notifySubscribers` with the cached batch: every subscriber present is notified by itself. */
    method NotifySubscribers()
      requires Valid()
      modifies this`subscribers
      ensures Valid()
      ensures |subscribers| == |old(subscribers)|
      ensures forall i :: 0 <= i < |subscribers| ==> subscribers[i] == Notified(old(subscribers)[i], cached)
    {
      if |cached| == 0 {
        forall i | 0 <= i < |subscribers| ensures subscribers[i] == Notified(subscribers[i], cached) {
          NothingNotified(subscribers[i]);
        }
        return;
      }
      for i := 0 to |subscribers|
        invariant |subscribers| == |old(subscribers)|
        invariant forall j :: 0 <= j < i ==> subscribers[j] == Notified(old(subscribers)[j], cached)
        invariant forall j :: i <= j < |subscribers| ==> subscribers[j] == old(subscribers)[j]
      {
        var s := subscribers[i];
        if s.enabled {
          var kept, unseen := MarkSubscriberEvents(s.keys, Relevant(s, cached));
          subscribers := subscribers[i := s.(keys := kept, delivered := s.delivered + unseen)];
        }
      }
    }
  }

  /** A subscriber that is not enabled is left as it is. */
  lemma DisabledGetsNothing(s: Subscriber, events: seq<Event>)
    requires !s.enabled
    ensures Notified(s, events) == s
  {
  }

  /** A notification without events leaves a subscriber as it is, within the limit of remembered keys. */
  lemma NothingNotified(s: Subscriber)
    ensures |s.keys| <= REMEMBERED ==> Notified(s, []) == s
  {
  }

  function Latest(events: seq<Event>): (r: int)
    requires events != []
    ensures forall i :: 0 <= i < |events| ==> events[i].ts <= r
    ensures exists i :: 0 <= i < |events| && events[i].ts == r
  {
    var n := |events| - 1;
    if n == 0 then events[0].ts
    else
      var r := Latest(events[..n]);
      assert forall i :: 0 <= i < n ==> events[..n][i] == events[i];
      if events[n].ts > r then events[n].ts else r
  }

  /** The cursor after a batch: past every event of the batch, and never back. */
  function Cursor(since: int, events: seq<Event>): (r: int)
    ensures r >= since && forall i :: 0 <= i < |events| ==> events[i].ts < r
  {
    if events == [] || since >= Latest(events) + 1 then since else Latest(events) + 1
  }

  /** The cursor is the least one that is past every event and not before the old one. */
  lemma CursorIsLeast(since: int, events: seq<Event>, other: int)
    requires other >= since && forall i :: 0 <= i < |events| ==> events[i].ts < other
    ensures Cursor(since, events) <= other
  {
  }

  lemma CursorIs(since: int, events: seq<Event>)
    ensures Cursor(since, events) == if events == [] || since >= Latest(events) + 1 then since else Latest(events) + 1
  {
  }

  // ---------------------------------------------------------------- whole runs

  /** A fetch that succeeds, or a notification with the cached batch by any poll that found it. */
  datatype Step = Fetch(events: seq<Event>) | Notify

  /** The feed as one subscriber sees it, and whether it has been notified of the cached batch. */
  datatype View = View(since: int, cached: seq<Event>, subscriber: Subscriber, wasNotified: bool)

  function After(v: View, s: Step): View {
    match s
    case Fetch(events) => View(Cursor(v.since, events), events, v.subscriber, false)
    case Notify => v.(subscriber := Notified(v.subscriber, v.cached), wasNotified := true)
  }

  function Run(v: View, steps: seq<Step>): View {
    if steps == [] then v else After(Run(v, steps[..|steps| - 1]), steps[|steps| - 1])
  }

  /** The server honours the cursor and sends at most 200 events at a time. */
  ghost predicate IsServed(v: View, steps: seq<Step>) {
    forall i :: 0 <= i < |steps| && steps[i].Fetch? ==>
      && |steps[i].events| <= REMEMBERED
      && forall e :: e in steps[i].events ==> e.ts >= Run(v, steps[..i]).since
  }

  /** A subscriber that has just been added, enabled, while some batch is cached. */
  predicate IsJoining(v: View) {
    && v.subscriber.enabled && v.subscriber.keys == [] && v.subscriber.delivered == [] && !v.wasNotified
    && |v.cached| <= REMEMBERED && forall i :: 0 <= i < |v.cached| ==> v.cached[i].ts < v.since
  }

  /** Step `i` notifies the subscriber of an event. */
  predicate Announces(v: View, steps: seq<Step>, i: nat, e: Event) {
    i < |steps| && steps[i].Notify? && e in Run(v, steps[..i]).cached && IsRelevant(v.subscriber, e)
  }

  /** Some step of the run notifies the subscriber of an event. */
  ghost predicate IsAnnounced(v: View, steps: seq<Step>, e: Event) {
    exists i: nat :: Announces(v, steps, i, e)
  }

  ghost predicate IsKept(v: View) {
    && v.subscriber.enabled
    && HasNoRepeats(v.subscriber.delivered)
    && v.subscriber.keys == LastOf(v.subscriber.delivered, REMEMBERED)
    && |v.cached| <= REMEMBERED
    && (forall e :: e in v.cached || e in v.subscriber.delivered ==> e.ts < v.since)
    && (if v.wasNotified
        then forall e :: e in Relevant(v.subscriber, v.cached) ==> e in v.subscriber.keys
        else forall e :: e in v.cached ==> e !in v.subscriber.delivered)
  }

  lemma FetchKeeps(v: View, events: seq<Event>)
    requires IsKept(v) && |events| <= REMEMBERED && forall e :: e in events ==> e.ts >= v.since
    ensures IsKept(After(v, Fetch(events)))
  {
  }

  /** The last keys of a history to which few enough events were added contain all of them. */
  lemma LastAfterAdding(history: seq<Event>, unseen: seq<Event>)
    requires |unseen| <= REMEMBERED
    ensures LastOf(LastOf(history, REMEMBERED) + unseen, REMEMBERED) == LastOf(history + unseen, REMEMBERED)
    ensures forall e :: e in unseen ==> e in LastOf(history + unseen, REMEMBERED)
  {
    var all := history + unseen;
    var last := LastOf(all, REMEMBERED);
    forall e | e in unseen ensures e in last {
      var i :| 0 <= i < |unseen| && unseen[i] == e;
      assert last[|last| - |unseen| + i] == e;
    }
  }

  lemma HasMember(s: seq<Event>)
    ensures s != [] ==> exists e :: e in s
  {
    if s != [] { assert s[0] in s; }
  }

  lemma FreshOfKept(v: View)
    requires IsKept(v)
    ensures var unseen := Fresh(v.subscriber.keys, Relevant(v.subscriber, v.cached));
            && |unseen| <= REMEMBERED
            && (v.wasNotified ==> unseen == [])
            && (forall e :: e in unseen ==> e !in v.subscriber.delivered)
  {
    var unseen := Fresh(v.subscriber.keys, Relevant(v.subscriber, v.cached));
    HasMember(unseen);
  }

  /** Appending new events to a history without repeats leaves it without repeats. */
  lemma AppendingKeepsOnce(history: seq<Event>, unseen: seq<Event>)
    requires HasNoRepeats(history) && HasNoRepeats(unseen) && forall e :: e in unseen ==> e !in history
    ensures HasNoRepeats(history + unseen)
  {
    var all := history + unseen;
    forall i, j | 0 <= i < j < |all| ensures all[i] != all[j] {
      if i < |history| <= j {
        assert all[j] in unseen;
      }
    }
  }

  lemma NotifyKeeps(v: View)
    requires IsKept(v)
    ensures IsKept(After(v, Notify))
    ensures forall e :: e in After(v, Notify).subscriber.delivered <==>
              e in v.subscriber.delivered || e in Relevant(v.subscriber, v.cached)
    ensures After(v, Notify).subscriber.cobrancaId == v.subscriber.cobrancaId
  {
    hide Relevant, Fresh, LastOf, HasNoRepeats;
    var s := v.subscriber;
    var relevant := Relevant(s, v.cached);
    var unseen := Fresh(s.keys, relevant);
    FreshOfKept(v);
    LastAfterAdding(s.delivered, unseen);
    AppendingKeepsOnce(s.delivered, unseen);
    LastIsPart(s.delivered);
    var next := After(v, Notify).subscriber;
    SameFilter(s, next, v.cached);
    if v.wasNotified {
      assert s.keys + [] == s.keys && s.delivered + [] == s.delivered;
    } else {
      forall e | e in relevant ensures e in next.keys { assert e !in s.keys; }
    }
  }

  lemma LastIsPart(s: seq<Event>)
    ensures forall e :: e in LastOf(s, REMEMBERED) ==> e in s
    ensures LastOf(LastOf(s, REMEMBERED), REMEMBERED) == LastOf(s, REMEMBERED)
  {
  }

  lemma {:induction false} SameFilter(s: Subscriber, t: Subscriber, events: seq<Event>)
    requires s.cobrancaId == t.cobrancaId
    ensures Relevant(s, events) == Relevant(t, events)
  {
    if events != [] {
      SameFilter(s, t, events[..|events| - 1]);
    }
  }

  lemma {:induction false} RunKeeps(v: View, steps: seq<Step>)
    requires IsJoining(v) && IsServed(v, steps)
    ensures IsKept(Run(v, steps))
    ensures Run(v, steps).subscriber.cobrancaId == v.subscriber.cobrancaId
    ensures forall e :: e in Run(v, steps).subscriber.delivered <==> IsAnnounced(v, steps, e)
  {
    hide IsKept, Relevant, Fresh, LastOf, Notified, Cursor, HasNoRepeats;
    if steps == [] {
      JoiningIsKept(v);
    } else {
      var n := |steps| - 1;
      var before := Run(v, steps[..n]);
      ServedPrefix(v, steps);
      RunKeeps(v, steps[..n]);
      forall e
        ensures e in Run(v, steps).subscriber.delivered <==> IsAnnounced(v, steps, e)
      {
        AnnouncedBefore(v, steps, e);
        if steps[n].Notify? { NotifyKeeps(before); }
      }
      match steps[n]
      case Fetch(events) => FetchKeeps(before, events);
      case Notify => NotifyKeeps(before);
    }
  }

  lemma JoiningIsKept(v: View)
    requires IsJoining(v)
    ensures IsKept(v)
  {
  }

  lemma ServedPrefix(v: View, steps: seq<Step>)
    requires IsServed(v, steps) && steps != []
    ensures IsServed(v, steps[..|steps| - 1])
  {
    var n := |steps| - 1;
    forall i | 0 <= i < n && steps[i].Fetch? ensures steps[..n][..i] == steps[..i] {
    }
  }

  /** An event is announced by a run exactly when it is announced before the last step or by it. */
  lemma AnnouncedBefore(v: View, steps: seq<Step>, e: Event)
    requires steps != []
    ensures IsAnnounced(v, steps, e) <==>
            IsAnnounced(v, steps[..|steps| - 1], e) || Announces(v, steps, |steps| - 1, e)
  {
    var n := |steps| - 1;
    forall i: nat | i < n ensures Announces(v, steps[..n], i, e) <==> Announces(v, steps, i, e) {
      assert steps[..n][..i] == steps[..i];
    }
    if IsAnnounced(v, steps[..n], e) {
      var i :| Announces(v, steps[..n], i, e);
      assert Announces(v, steps, i, e);
    }
  }

  /**
   If the server honours the cursor and no batch exceeds 200 events, a subscriber receives exactly the matching
   events of the notifications made while it was present, each of them once, whatever polls share the batch.
   */
  lemma DeliveredExactlyOnce(v: View, steps: seq<Step>)
    requires IsJoining(v) && IsServed(v, steps)
    ensures HasNoRepeats(Run(v, steps).subscriber.delivered)
    ensures forall e :: e in Run(v, steps).subscriber.delivered <==> IsAnnounced(v, steps, e)
    ensures |Run(v, steps).subscriber.keys| <= REMEMBERED
  {
    RunKeeps(v, steps);
  }

  /** The cursor never goes back. */
  lemma {:induction false} CursorNeverGoesBack(v: View, steps: seq<Step>)
    ensures Run(v, steps).since >= v.since
  {
    hide Cursor;
    if steps != [] {
      CursorNeverGoesBack(v, steps[..|steps| - 1]);
    }
  }

  /** A second notification with the same new batch delivers something again exactly when it matched over 200 events. */
  lemma RepeatedNotification(s: Subscriber, events: seq<Event>)
    requires s.enabled && |s.keys| <= REMEMBERED
    requires forall e :: e in events ==> e !in s.keys
    ensures Notified(Notified(s, events), events).delivered == Notified(s, events).delivered <==>
            |Fresh(s.keys, Relevant(s, events))| <= REMEMBERED
  {
    hide Relevant, Fresh;
    var relevant := Relevant(s, events);
    var unseen := Fresh(s.keys, relevant);
    var once := Notified(s, events);
    SameFilter(s, once, events);
    var again := Fresh(once.keys, relevant);
    if |unseen| <= REMEMBERED {
      LastAfterAdding(s.keys, unseen);
      HasMember(again);
    } else {
      LastDropsFirst(s.keys, unseen);
      assert unseen[0] in unseen;
      assert unseen[0] in again;
    }
  }

  lemma LastDropsFirst(keys: seq<Event>, unseen: seq<Event>)
    requires |unseen| > REMEMBERED && HasNoRepeats(unseen)
    ensures unseen[0] !in LastOf(keys + unseen, REMEMBERED)
  {
    var kept := LastOf(keys + unseen, REMEMBERED);
    assert forall i :: 0 <= i < |kept| ==> kept[i] == unseen[|unseen| - REMEMBERED + i];
  }
}
