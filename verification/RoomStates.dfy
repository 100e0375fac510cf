/**
 A room's custom state: the last write per type and key, by the servers' timestamps.

 The store keeps its entries in the order the keys were first seen; `notified` is what `on_custom` announced.
 */
module RoomStates {
  import Lists
  import opened Prelude

  datatype Event = Event(kind: string, stateKey: Option<string>, time: int, data: string)

  /** One `/sync` response's part about the room: the timeline is handled before the separate state list. */
  datatype Batch = Batch(timeline: seq<Event>, state: seq<Event>)

  type Key = (string, string)

  datatype Custom = Custom(key: Key, data: string, time: int)

  datatype State = State(customs: seq<Custom>, notified: seq<Custom>)

  const START := State([], [])

  /** Which events set custom state: state events outside the standard's own "m." namespace. */
  predicate IsCustom(event: Event) {
    event.stateKey.Some? && !(|event.kind| >= 2 && event.kind[..2] == "m.")
  }

  predicate About(event: Event, key: Key) {
    IsCustom(event) && (event.kind, event.stateKey.value) == key
  }

  function CustomOf(event: Event): Custom
    requires IsCustom(event)
  {
    Custom((event.kind, event.stateKey.value), event.data, event.time)
  }

  function Keys(list: seq<Custom>): (keys: seq<Key>)
    ensures |keys| == |list| && forall i :: 0 <= i < |keys| ==> keys[i] == list[i].key
  {
    seq(|list|, i requires 0 <= i < |list| => list[i].key)
  }

  function Find(customs: seq<Custom>, key: Key): (i: nat)
    ensures i <= |customs|
    ensures forall k :: 0 <= k < i ==> customs[k].key != key
    ensures i < |customs| ==> customs[i].key == key
  {
    Lists.Find(Keys(customs), key)
  }

  /** What the store holds under a key. */
  function Held(s: State, key: Key): Option<Custom> {
    var i := Find(s.customs, key);
    if i < |s.customs| then Some(s.customs[i]) else None
  }

  function SyncEvent(s: State, event: Event): State {
    if !IsCustom(event) then s
    else
      var c := CustomOf(event);
      var i := Find(s.customs, c.key);
      if i == |s.customs| then State(s.customs + [c], s.notified + [c])
      else if s.customs[i].time < c.time then State(s.customs[i := c], s.notified + [c])
      else s
  }

  function OnEvents(s: State, events: seq<Event>): State
    decreases events
  {
    if events == [] then s else OnEvents(SyncEvent(s, events[0]), events[1..])
  }

  function Sync(s: State, batch: Batch): State {
    OnEvents(OnEvents(s, batch.timeline), batch.state)
  }

  function SyncAll(s: State, batches: seq<Batch>): State
    decreases batches
  {
    if batches == [] then s else SyncAll(Sync(s, batches[0]), batches[1..])
  }

  /** All events of some batches, in the order they are handled. */
  function Events(batches: seq<Batch>): seq<Event> {
    if batches == [] then [] else batches[0].timeline + batches[0].state + Events(batches[1..])
  }

  // ---------------------------------------------------------------- one event

  /** The later of what is held and what an event brings; the held one wins a tie. */
  function Later(held: Option<Custom>, event: Event, key: Key): Option<Custom> {
    if About(event, key) && (held.None? || held.value.time < event.time) then Some(CustomOf(event)) else held
  }

  lemma FindAfterAppend(customs: seq<Custom>, c: Custom, key: Key)
    ensures var r := customs + [c];
      Find(r, key) == if Find(customs, key) < |customs| then Find(customs, key)
                      else if c.key == key then |customs| else |customs| + 1
  {
    var r, f := customs + [c], Find(customs, key);
    assert forall k :: 0 <= k < |customs| ==> r[k] == customs[k];
    assert r[|customs|] == c && (f < |customs| ==> r[f].key == key);
  }

  lemma FindAfterReplace(customs: seq<Custom>, i: nat, c: Custom, key: Key)
    requires i < |customs| && customs[i].key == c.key
    ensures Find(customs[i := c], key) == Find(customs, key)
  {
    var r := customs[i := c];
    assert forall k :: 0 <= k < |customs| ==> r[k].key == customs[k].key;
  }

  lemma SyncEventHolds(s: State, event: Event, key: Key)
    ensures Held(SyncEvent(s, event), key) == Later(Held(s, key), event, key)
  {
    if IsCustom(event) {
      var c := CustomOf(event);
      var i := Find(s.customs, c.key);
      FindAfterAppend(s.customs, c, key);
      if i < |s.customs| { FindAfterReplace(s.customs, i, c, key); }
    }
  }

  /** In full: an event without a state key, or of a kind that begins with "m.", is ignored; any other is stored and
      announced as it is, unless what is held under its kind and key is as new; and nothing else changes. */
  lemma EventIsStored(s: State, event: Event)
    ensures var t := SyncEvent(s, event);
      if event.stateKey.None? || (|event.kind| >= 2 && event.kind[0] == 'm' && event.kind[1] == '.') then t == s
      else
        var key := (event.kind, event.stateKey.value);
        var news := Custom(key, event.data, event.time);
        if Held(s, key).Some? && Held(s, key).value.time >= event.time then t == s
        else
          && Held(t, key) == Some(news) && t.notified == s.notified + [news]
          && forall other :: other != key ==> Held(t, other) == Held(s, other)
  {
    if |event.kind| >= 2 {
      assert event.kind[..2] == "m." <==> event.kind[0] == 'm' && event.kind[1] == '.';
    }
    forall key ensures Held(SyncEvent(s, event), key) == Later(Held(s, key), event, key) {
      SyncEventHolds(s, event, key);
    }
  }

  // ---------------------------------------------------------------- the latest event of a key

  /** Event `i` is the first of the latest ones about a key, and brings `c`. */
  ghost predicate FirstLatest(events: seq<Event>, key: Key, c: Custom, i: int) {
    && 0 <= i < |events| && About(events[i], key) && c == CustomOf(events[i])
    && forall j :: 0 <= j < |events| && About(events[j], key) ==>
         events[j].time <= c.time && (j < i ==> events[j].time < c.time)
  }

  ghost predicate NothingAbout(events: seq<Event>, key: Key) {
    forall i :: 0 <= i < |events| ==> !About(events[i], key)
  }

  ghost predicate Wins(events: seq<Event>, key: Key, c: Custom) {
    exists i :: FirstLatest(events, key, c, i)
  }

  /** What the store holds is exactly the first of the latest events about each key; nothing if there is none. */
  lemma {:induction false} HoldsTheLatest(events: seq<Event>, key: Key)
    ensures Held(OnEvents(START, events), key).None? <==> NothingAbout(events, key)
    ensures forall c :: Held(OnEvents(START, events), key) == Some(c) <==> Wins(events, key, c)
    decreases |events|
  {
    if events != [] {
      var e, rest := events[|events| - 1], events[..|events| - 1];
      HoldsTheLatest(rest, key);
      OnEventsLast(START, events);
      SyncEventHolds(OnEvents(START, rest), e, key);
      OneMore(rest, e, key, Held(OnEvents(START, rest), key));
      assert rest + [e] == events;
    }
    forall c, d | Wins(events, key, c) && Wins(events, key, d) ensures c == d {
      WinnerIsOne(events, key, c, d);
    }
  }

  lemma WinnerIsOne(events: seq<Event>, key: Key, c: Custom, d: Custom)
    requires Wins(events, key, c) && Wins(events, key, d)
    ensures c == d
  {
    var i :| FirstLatest(events, key, c, i);
    var j :| FirstLatest(events, key, d, j);
  }

  lemma OneMore(events: seq<Event>, e: Event, key: Key, held: Option<Custom>)
    requires held.None? <==> NothingAbout(events, key)
    requires held.Some? ==> Wins(events, key, held.value)
    ensures Later(held, e, key).None? <==> NothingAbout(events + [e], key)
    ensures Later(held, e, key).Some? ==> Wins(events + [e], key, Later(held, e, key).value)
  {
    var es := events + [e];
    assert es[|events|] == e && forall i :: 0 <= i < |events| ==> es[i] == events[i];
    if held.Some? {
      var i :| FirstLatest(events, key, held.value, i);
      if Later(held, e, key) == held {
        assert FirstLatest(es, key, held.value, i);
      } else {
        assert FirstLatest(es, key, CustomOf(e), |events|);
      }
    } else if About(e, key) {
      assert FirstLatest(es, key, CustomOf(e), |events|);
    }
  }

  lemma {:induction false} OnEventsLast(s: State, events: seq<Event>)
    requires events != []
    ensures OnEvents(s, events) == SyncEvent(OnEvents(s, events[..|events| - 1]), events[|events| - 1])
    decreases events
  {
    if |events| > 1 {
      OnEventsLast(SyncEvent(s, events[0]), events[1..]);
      assert events[1..][..|events| - 2] == events[..|events| - 1][1..];
    } else {
      assert events[..0] == [] && events[1..] == [];
      assert OnEvents(s, events) == OnEvents(SyncEvent(s, events[0]), []);
    }
  }

  // ---------------------------------------------------------------- convergence

  ghost predicate SameEvents(a: seq<Event>, b: seq<Event>) {
    forall e :: e in a <==> e in b
  }

  ghost predicate SameState(s: State, t: State) {
    forall key :: Held(s, key) == Held(t, key)
  }

  predicate IsLatest(events: seq<Event>, key: Key, e: Event) {
    e in events && About(e, key) && forall f <- events :: About(f, key) ==> f.time <= e.time
  }

  /** Under every key, the latest events bring the same. */
  ghost predicate Agreed(events: seq<Event>) {
    forall key, e, f :: IsLatest(events, key, e) && IsLatest(events, key, f) ==> e.data == f.data
  }

  lemma WinnerIsLatest(events: seq<Event>, key: Key, c: Custom) returns (e: Event)
    requires Wins(events, key, c)
    ensures IsLatest(events, key, e) && c == CustomOf(e)
  {
    var i :| FirstLatest(events, key, c, i);
    e := events[i];
  }

  lemma LatestElsewhere(a: seq<Event>, b: seq<Event>, key: Key, e: Event)
    requires SameEvents(a, b) && IsLatest(a, key, e)
    ensures IsLatest(b, key, e)
  {
  }

  lemma SameEventsSameHeld(a: seq<Event>, b: seq<Event>, key: Key)
    requires Agreed(a) && SameEvents(a, b)
    ensures Held(OnEvents(START, a), key) == Held(OnEvents(START, b), key)
  {
    HoldsTheLatest(a, key);
    HoldsTheLatest(b, key);
    if Held(OnEvents(START, a), key).Some? {
      var e := WinnerIsLatest(a, key, Held(OnEvents(START, a), key).value);
      assert e in b && !NothingAbout(b, key);
      var f := WinnerIsLatest(b, key, Held(OnEvents(START, b), key).value);
      LatestElsewhere(b, a, key, f);
    } else {
      forall i | 0 <= i < |b| ensures !About(b[i], key) { assert b[i] in a; }
    }
  }

  lemma FirstOfEqualsWins(events: seq<Event>, key: Key, e: Event)
    requires IsLatest(events, key, e)
    ensures SameEvents(events, [e] + events) && Held(OnEvents(START, [e] + events), key) == Some(CustomOf(e))
  {
    var es := [e] + events;
    HoldsTheLatest(es, key);
    assert es[0] == e && forall i :: 1 <= i < |es| ==> es[i] == events[i - 1];
    assert FirstLatest(es, key, CustomOf(e), 0);
  }

  lemma DisagreementShows(events: seq<Event>, key: Key, e: Event, f: Event) returns (other: seq<Event>)
    requires IsLatest(events, key, e) && IsLatest(events, key, f) && e.data != f.data
    ensures SameEvents(events, other)
    ensures Held(OnEvents(START, events), key) != Held(OnEvents(START, other), key)
  {
    FirstOfEqualsWins(events, key, e);
    FirstOfEqualsWins(events, key, f);
    other := if Held(OnEvents(START, events), key) == Some(CustomOf(e)) then [f] + events else [e] + events;
  }

  /** Clients that see the same events, in any order, repeated, and split over timelines and state lists in any way,
      end up with the same state exactly when the latest events of each key agree. */
  lemma Converges(events: seq<Event>)
    ensures Agreed(events) <==>
      forall other :: SameEvents(events, other) ==> SameState(OnEvents(START, events), OnEvents(START, other))
  {
    if Agreed(events) {
      forall other, key | SameEvents(events, other)
        ensures Held(OnEvents(START, events), key) == Held(OnEvents(START, other), key)
      {
        SameEventsSameHeld(events, other, key);
      }
    } else {
      var key, e, f :| IsLatest(events, key, e) && IsLatest(events, key, f) && e.data != f.data;
      var other := DisagreementShows(events, key, e, f);
      assert !SameState(OnEvents(START, events), OnEvents(START, other));
    }
  }

  lemma {:induction false} OnEventsConcat(s: State, a: seq<Event>, b: seq<Event>)
    ensures OnEvents(s, a + b) == OnEvents(OnEvents(s, a), b)
    decreases a
  {
    if a == [] {
      assert a + b == b;
    } else {
      assert (a + b)[0] == a[0] && (a + b)[1..] == a[1..] + b;
      OnEventsConcat(SyncEvent(s, a[0]), a[1..], b);
    }
  }

  /** Responses are one long list of events. */
  lemma {:induction false} BatchesAreOneList(s: State, batches: seq<Batch>)
    ensures SyncAll(s, batches) == OnEvents(s, Events(batches))
    decreases batches
  {
    if batches != [] {
      var b, rest := batches[0], Events(batches[1..]);
      OnEventsConcat(s, b.timeline + b.state, rest);
      OnEventsConcat(s, b.timeline, b.state);
      BatchesAreOneList(Sync(s, b), batches[1..]);
    }
  }

  /** ... which has the events of every timeline and of every state list, and no others. */
  lemma {:induction false} NoEventIsLeftOut(batches: seq<Batch>, e: Event)
    ensures e in Events(batches) <==>
      exists i :: 0 <= i < |batches| && (e in batches[i].timeline || e in batches[i].state)
  {
    if batches != [] {
      NoEventIsLeftOut(batches[1..], e);
      if e in batches[0].timeline || e in batches[0].state { assert e in Events(batches); }
      if i :| 0 < i < |batches| && (e in batches[i].timeline || e in batches[i].state) {
        assert batches[1..][i - 1] == batches[i];
      }
      if i :| 0 <= i < |batches[1..]| && (e in batches[1..][i].timeline || e in batches[1..][i].state) {
        assert batches[i + 1] == batches[1..][i];
      }
    }
  }

  lemma BatchesConverge(a: seq<Batch>, b: seq<Batch>)
    requires SameEvents(Events(a), Events(b)) && Agreed(Events(a))
    ensures SameState(SyncAll(START, a), SyncAll(START, b))
  {
    BatchesAreOneList(START, a);
    BatchesAreOneList(START, b);
    Converges(Events(a));
  }

  // ---------------------------------------------------------------- notifications

  /** The last announcement about a key. */
  function LastAbout(notified: seq<Custom>, key: Key): Option<Custom> {
    if notified == [] then None
    else if notified[|notified| - 1].key == key then Some(notified[|notified| - 1])
    else LastAbout(notified[..|notified| - 1], key)
  }

  /** Announced times rise strictly under each key, and what is held is what was announced last. */
  ghost predicate Announced(s: State) {
    && (forall i, j :: 0 <= i < j < |s.notified| && s.notified[i].key == s.notified[j].key ==>
          s.notified[i].time < s.notified[j].time)
    && (forall key :: Held(s, key) == LastAbout(s.notified, key))
  }

  lemma {:induction false} LastAboutIsLatest(s: State, i: nat)
    requires i < |s.notified|
    requires forall i, j :: 0 <= i < j < |s.notified| && s.notified[i].key == s.notified[j].key ==>
      s.notified[i].time < s.notified[j].time
    ensures var last := LastAbout(s.notified, s.notified[i].key);
      last.Some? && s.notified[i].time <= last.value.time
    decreases |s.notified|
  {
    var n := |s.notified| - 1;
    if s.notified[n].key != s.notified[i].key { LastAboutIsLatest(s.(notified := s.notified[..n]), i); }
  }

  lemma SyncEventAnnounces(s: State, event: Event)
    requires Announced(s)
    ensures Announced(SyncEvent(s, event))
  {
    var t := SyncEvent(s, event);
    forall key ensures Held(t, key) == LastAbout(t.notified, key) {
      SyncEventHolds(s, event, key);
      if t != s { assert t.notified[..|t.notified| - 1] == s.notified; }
    }
    forall i, j | 0 <= i < j < |t.notified| && t.notified[i].key == t.notified[j].key
      ensures t.notified[i].time < t.notified[j].time
    {
      if j == |s.notified| {
        LastAboutIsLatest(s, i);
        assert Held(s, t.notified[j].key) == LastAbout(s.notified, t.notified[j].key);
      }
    }
  }

  /** After any events the announcements about a key rise strictly in time, and replaying them rebuilds the state. */
  lemma {:induction false} AnnouncementsRebuildTheState(s: State, events: seq<Event>)
    requires Announced(s)
    ensures Announced(OnEvents(s, events))
    decreases events
  {
    if events != [] {
      SyncEventAnnounces(s, events[0]);
      AnnouncementsRebuildTheState(SyncEvent(s, events[0]), events[1..]);
    }
  }

  // ---------------------------------------------------------------- the store

  class RoomStateStore {
    var customs: seq<Custom>
    var notified: seq<Custom>

    ghost function View(): State
      reads this
    {
      State(customs, notified)
    }

    constructor ()
      ensures View() == START
    {
      customs, notified := [], [];
    }

    /** `room_states_impl::sync_event`: whether the event was a custom one. */
    method Take(event: Event) returns (taken: bool)
      modifies this
      ensures View() == SyncEvent(old(View()), event) && taken == IsCustom(event)
    {
      taken := IsCustom(event);
      if !taken { return; }
      var addOrSet := CustomOf(event);
      var found := 0;
      while found < |customs| && customs[found].key != addOrSet.key
        invariant found <= |customs| && forall k :: 0 <= k < found ==> customs[k].key != addOrSet.key
      {
        found := found + 1;
      }
      if found == |customs| {
        customs := customs + [addOrSet];
        notified := notified + [addOrSet];
      } else if customs[found].time < addOrSet.time {
        customs := customs[found := addOrSet];
        notified := notified + [addOrSet];
      }
    }

    method TakeAll(events: seq<Event>)
      modifies this
      ensures View() == OnEvents(old(View()), events)
    {
      var i := 0;
      while i < |events|
        invariant i <= |events| && OnEvents(View(), events[i..]) == OnEvents(old(View()), events)
      {
        var _ := Take(events[i]);
        assert events[i..][1..] == events[i + 1..];
        i := i + 1;
      }
    }

    /** `room::sync` */
    method TakeBatch(batch: Batch)
      modifies this
      ensures View() == Sync(old(View()), batch)
    {
      TakeAll(batch.timeline);
      TakeAll(batch.state);
    }
  }
}
