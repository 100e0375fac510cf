/**
 The signaling server's registration handler: every pair of clients meets under one key.

 An entry holds up to two devices and the handles by which it listens for their connections closing.
 A registration numbers the device it creates and the handle it connects alike, so the objects these
 stand for can be told apart; `live` are the handles still connected, `partner` the devices' weak links.
 An assertion of the source that fails sets `failed`, and execution goes on as in a release build.
 */
module Rendezvous {
  import Lists
  import opened PairKeys
  import opened Prelude

  datatype Device = Device(id: nat, token: string, connection: nat)

  datatype Entry = Entry(key: string, devices: Pair<Option<Device>>, handles: Pair<Option<nat>>)

  datatype State = State(
    entries: seq<Entry>,
    partner: map<nat, Option<nat>>,
    live: set<nat>,
    bound: map<nat, (string, string)>,   // the key and token a handle's callback closes with
    next: nat,
    closing: seq<nat>,                   // connections told to close, in order
    failed: bool)

  datatype Event =
    | Registers(connection: nat, key: string, token: string)
    | Closes(handle: nat)                // a connection's close reaches one of its handles

  function Keys(list: seq<Entry>): (keys: seq<string>)
    ensures |keys| == |list| && forall i :: 0 <= i < |keys| ==> keys[i] == list[i].key
  {
    seq(|list|, i requires 0 <= i < |list| => list[i].key)
  }

  function Find(entries: seq<Entry>, key: string): (i: nat)
    ensures i <= |entries|
    ensures forall k :: 0 <= k < i ==> entries[k].key != key
    ensures i < |entries| ==> entries[i].key == key
  {
    Lists.Find(Keys(entries), key)
  }

  predicate HasToken(device: Option<Device>, token: string) {
    device.Some? && device.value.token == token
  }

  function Other(i: nat): nat {
    if i == 0 then 1 else 0
  }

  const EMPTY: Pair<Option<Device>> := Pair(None, None)

  function FoundOrCreated(entries: seq<Entry>, key: string): seq<Entry> {
    if Find(entries, key) < |entries| then entries else entries + [Entry(key, EMPTY, Pair(None, None))]
  }

  /** The place a registration takes: that of its token, else the first if it is free, else the second. */
  function PlaceFor(devices: Pair<Option<Device>>, token: string): nat {
    if HasToken(devices.second, token) then 1
    else if HasToken(devices.first, token) then 0
    else if devices.first.None? then 0 else 1
  }

  /** Both places are taken by other tokens. */
  predicate Crowded(devices: Pair<Option<Device>>, token: string) {
    devices.first.Some? && devices.second.Some? && !HasToken(devices.first, token) && !HasToken(devices.second, token)
  }

  function HandleIds(handle: Option<nat>): set<nat> {
    if handle.Some? then {handle.value} else {}
  }

  function Registered(s: State, connection: nat, key: string, token: string): State {
    var entries, i, n := FoundOrCreated(s.entries, key), Find(s.entries, key), s.next;
    var e := entries[i];
    var my := PlaceFor(e.devices, token);
    var old_, other := e.devices.At(my), e.devices.At(Other(my));
    var alone := s.partner[n := None];
    s.(entries := entries[i := e.(devices := e.devices.With(my, Some(Device(n, token, connection))),
                                  handles := e.handles.With(my, Some(n)))],
       partner := if other.Some? then alone[n := Some(other.value.id)][other.value.id := Some(n)] else alone,
       live := s.live + {n} - HandleIds(e.handles.At(my)),
       bound := s.bound[n := (key, token)],
       next := n + 1,
       closing := s.closing + (if old_.Some? then [old_.value.connection] else []),
       failed := s.failed || Crowded(e.devices, token) || HasToken(other, token))
  }

  /** A removed device's handle is disconnected; an erased entry's handles both are. */
  function Unheard(live: set<nat>, handles: Pair<Option<nat>>, my: nat, erased: bool): set<nat> {
    var left := live - HandleIds(handles.At(my));
    if erased then left - HandleIds(handles.first) - HandleIds(handles.second) else left
  }

  /** `on_device_closed` */
  function DeviceClosed(s: State, key: string, token: string): State {
    var i := Find(s.entries, key);
    if i == |s.entries| then s.(failed := true)
    else
      var e := s.entries[i];
      var my := if HasToken(e.devices.first, token) then 0 else if HasToken(e.devices.second, token) then 1 else 0;
      var other := e.devices.At(Other(my));
      var left := e.(devices := e.devices.With(my, None));
      s.(entries := if left.devices == EMPTY then s.entries[..i] + s.entries[i + 1..] else s.entries[i := left],
         partner := if other.Some? then s.partner[other.value.id := None] else s.partner,
         live := Unheard(s.live, e.handles, my, left.devices == EMPTY),
         failed := s.failed || !(HasToken(e.devices.first, token) || HasToken(e.devices.second, token)))
  }

  function Step(s: State, event: Event): State {
    match event
    case Registers(connection, key, token) => Registered(s, connection, key, token)
    case Closes(h) => if h in s.live && h in s.bound then DeviceClosed(s, s.bound[h].0, s.bound[h].1) else s
  }

  function Run(s: State, events: seq<Event>): State
    decreases events
  {
    if events == [] then s else Run(Step(s, events[0]), events[1..])
  }

  const START := State([], map[], {}, map[], 0, [], false)

  // ---------------------------------------------------------------- invariant

  function IdOf(device: Option<Device>): Option<nat> {
    if device.Some? then Some(device.value.id) else None
  }

  /** A place is filled exactly when its handle is live for its token, and links to whoever is in the other place. */
  predicate PlaceOk(s: State, e: Entry, i: nat) {
    var d, h := e.devices.At(i), e.handles.At(i);
    && (h.Some? ==> h.value < s.next)
    && (d.None? ==> h.None? || h.value !in s.live)
    && (d.Some? ==>
          var n := d.value.id;
          && h == Some(n) && n in s.live && n in s.bound && s.bound[n] == (e.key, d.value.token)
          && n in s.partner && s.partner[n] == IdOf(e.devices.At(Other(i))))
  }

  predicate EntryOk(s: State, e: Entry) {
    && PlaceOk(s, e, 0) && PlaceOk(s, e, 1)
    && e.devices != EMPTY
    && (e.devices.first.Some? && e.devices.second.Some? ==> e.devices.first.value.token != e.devices.second.value.token)
  }

  ghost predicate UniqueKeys(entries: seq<Entry>) {
    forall i, j :: 0 <= i < j < |entries| ==> entries[i].key != entries[j].key
  }

  /** A live handle listens for a device that is there. */
  ghost predicate Listening(entries: seq<Entry>, n: nat) {
    exists i, p :: 0 <= i < |entries| && 0 <= p < 2 && IdOf(entries[i].devices.At(p)) == Some(n)
  }

  ghost predicate Inv(s: State) {
    && UniqueKeys(s.entries)
    && (forall i :: 0 <= i < |s.entries| ==> EntryOk(s, s.entries[i]))
    && (forall n :: n in s.live ==> n < s.next && Listening(s.entries, n))
  }

  // ---------------------------------------------------------------- one event

  /** Nothing an entry is about has changed, and no old handle came back to life. */
  predicate Untouched(s: State, s': State, device: Option<Device>) {
    device.Some? ==>
      var n := device.value.id;
      && (n in s.live ==> n in s'.live)
      && (n in s.bound ==> n in s'.bound && s'.bound[n] == s.bound[n])
      && (n in s.partner ==> n in s'.partner && s'.partner[n] == s.partner[n])
  }

  lemma EntryStays(s: State, s': State, e: Entry)
    requires EntryOk(s, e) && s.next <= s'.next
    requires Untouched(s, s', e.devices.first) && Untouched(s, s', e.devices.second)
    requires forall n :: n in s'.live && n < s.next ==> n in s.live
    ensures EntryOk(s', e)
  {
  }

  lemma OtherEntryStays(s: State, s': State, e: Entry, mine: Entry)
    requires Inv(s) && EntryOk(s, e) && s.next <= s'.next && e.key != mine.key
    requires PlaceOk(s, mine, 0) && PlaceOk(s, mine, 1)
    requires forall n :: n in s'.live && n < s.next ==> n in s.live
    requires forall n :: n in s.live && n !in s'.live ==>
      mine.handles.first == Some(n) || mine.handles.second == Some(n)
    requires forall n :: n in s.bound && n < s.next ==> n in s'.bound && s'.bound[n] == s.bound[n]
    requires forall n ::
      n in s.partner && n < s.next && IdOf(mine.devices.first) != Some(n) && IdOf(mine.devices.second) != Some(n) ==>
        n in s'.partner && s'.partner[n] == s.partner[n]
    ensures EntryOk(s', e)
  {
    forall p | 0 <= p < 2 ensures Untouched(s, s', e.devices.At(p)) {
      assert PlaceOk(s, e, p);
    }
    assert Untouched(s, s', e.devices.At(0)) && Untouched(s, s', e.devices.At(1));
    EntryStays(s, s', e);
  }

  /** The entry a registration changes, as it stands before. */
  function EntryFor(s: State, key: string): Entry {
    FoundOrCreated(s.entries, key)[Find(s.entries, key)]
  }

  lemma EntryForOk(s: State, key: string)
    requires Inv(s)
    ensures var e := EntryFor(s, key);
      e.key == key && PlaceOk(s, e, 0) && PlaceOk(s, e, 1) && (e.devices == EMPTY || EntryOk(s, e))
  {
    var i := Find(s.entries, key);
    if i < |s.entries| { assert EntryOk(s, s.entries[i]); }
  }

  lemma RegisteredOwnEntry(s: State, connection: nat, key: string, token: string)
    requires Inv(s)
    ensures var s' := Registered(s, connection, key, token); EntryOk(s', s'.entries[Find(s.entries, key)])
  {
    EntryForOk(s, key);
  }

  lemma RegisteredOtherEntry(s: State, connection: nat, key: string, token: string, j: nat)
    requires Inv(s) && j < |s.entries| && s.entries[j].key != key
    ensures EntryOk(Registered(s, connection, key, token), s.entries[j])
  {
    EntryForOk(s, key);
    OtherEntryStays(s, Registered(s, connection, key, token), s.entries[j], EntryFor(s, key));
  }

  /** Where a live handle's device is: entry and place. */
  predicate Lives(s: State, n: nat, i: nat, p: nat) {
    && i < |s.entries| && p < 2 && EntryOk(s, s.entries[i]) && n in s.live && n in s.bound
    && IdOf(s.entries[i].devices.At(p)) == Some(n) && s.bound[n].0 == s.entries[i].key
  }

  lemma HandleOf(s: State, n: nat) returns (i: nat, p: nat)
    requires Inv(s) && n in s.live
    ensures Lives(s, n, i, p)
  {
    i, p :| 0 <= i < |s.entries| && 0 <= p < 2 && IdOf(s.entries[i].devices.At(p)) == Some(n);
    assert EntryOk(s, s.entries[i]) && PlaceOk(s, s.entries[i], p);
  }

  lemma RegisteredListening(s: State, connection: nat, key: string, token: string, n: nat)
    requires Inv(s) && n in Registered(s, connection, key, token).live
    ensures Listening(Registered(s, connection, key, token).entries, n)
  {
    var s', i, e := Registered(s, connection, key, token), Find(s.entries, key), EntryFor(s, key);
    var my := PlaceFor(e.devices, token);
    if n == s.next {
      assert IdOf(s'.entries[i].devices.At(my)) == Some(n);
    } else {
      var j, p := HandleOf(s, n);
      assert PlaceOk(s, s.entries[j], p);
      assert IdOf(s'.entries[j].devices.At(p)) == Some(n);
    }
  }

  lemma RegisteredKeepsInv(s: State, connection: nat, key: string, token: string)
    requires Inv(s)
    ensures Inv(Registered(s, connection, key, token))
  {
    var s', i := Registered(s, connection, key, token), Find(s.entries, key);
    assert forall j :: 0 <= j < |s'.entries| ==> s'.entries[j].key == if j == i then key else s.entries[j].key;
    forall j | 0 <= j < |s'.entries| ensures EntryOk(s', s'.entries[j]) {
      if j == i {
        RegisteredOwnEntry(s, connection, key, token);
      } else {
        RegisteredOtherEntry(s, connection, key, token, j);
      }
    }
    forall n | n in s'.live ensures n < s'.next && Listening(s'.entries, n) {
      RegisteredListening(s, connection, key, token, n);
    }
  }

  /** The device in place `p` of entry `i` is gone, and its entry too if nobody else was there. */
  function Without(s: State, i: nat, p: nat): State
    requires i < |s.entries|
  {
    var e := s.entries[i];
    var mine, other := e.devices.At(p), e.devices.At(Other(p));
    s.(entries := if other.None? then s.entries[..i] + s.entries[i + 1..]
                  else s.entries[i := e.(devices := e.devices.With(p, None))],
       partner := if other.Some? then s.partner[other.value.id := None] else s.partner,
       live := if mine.Some? then s.live - {mine.value.id} else s.live)
  }

  lemma ClosedLocally(s: State, n: nat, i: nat, p: nat)
    requires Lives(s, n, i, p) && i == Find(s.entries, s.bound[n].0)
    ensures DeviceClosed(s, s.bound[n].0, s.bound[n].1) == Without(s, i, p)
  {
    var e := s.entries[i];
    assert PlaceOk(s, e, p) && PlaceOk(s, e, Other(p));
    assert Unheard(s.live, e.handles, p, e.devices.At(Other(p)).None?) == s.live - {n};
  }

  /** When a live handle's connection closes, both lookups succeed and exactly its device goes. */
  lemma ClosedIsWithout(s: State, n: nat) returns (i: nat, p: nat)
    requires Inv(s) && n in s.live
    ensures Lives(s, n, i, p) && i == Find(s.entries, s.bound[n].0)
    ensures DeviceClosed(s, s.bound[n].0, s.bound[n].1) == Without(s, i, p)
  {
    i, p := HandleOf(s, n);
    assert Find(s.entries, s.bound[n].0) == i;
    ClosedLocally(s, n, i, p);
  }

  lemma WithoutOwnEntry(s: State, n: nat, i: nat, p: nat)
    requires Lives(s, n, i, p) && s.entries[i].devices.At(Other(p)).Some?
    ensures EntryOk(Without(s, i, p), Without(s, i, p).entries[i])
  {
    assert PlaceOk(s, s.entries[i], p) && PlaceOk(s, s.entries[i], Other(p));
  }

  lemma WithoutOtherEntry(s: State, n: nat, i: nat, p: nat, j: nat)
    requires Inv(s) && Lives(s, n, i, p) && j < |s.entries| && j != i
    ensures EntryOk(Without(s, i, p), s.entries[j])
  {
    var s', e, mine := Without(s, i, p), s.entries[j], s.entries[i];
    assert e.key != mine.key;
    assert EntryOk(s, e) && PlaceOk(s, mine, p) && PlaceOk(s, mine, Other(p));
    OtherEntryStays(s, s', e, mine);
  }

  lemma WithoutListening(s: State, n: nat, i: nat, p: nat, m: nat)
    requires i < |s.entries| && p < 2 && IdOf(s.entries[i].devices.At(p)) == Some(n) && m != n
    requires Listening(s.entries, m)
    ensures Listening(Without(s, i, p).entries, m)
  {
    var r, e := Without(s, i, p).entries, s.entries[i];
    var j, q :| 0 <= j < |s.entries| && 0 <= q < 2 && IdOf(s.entries[j].devices.At(q)) == Some(m);
    var j' := if e.devices.At(Other(p)).None? && j > i then j - 1 else j;
    assert IdOf(r[j'].devices.At(q)) == Some(m);
  }

  lemma WithoutKeepsInv(s: State, n: nat, i: nat, p: nat)
    requires Inv(s) && Lives(s, n, i, p)
    ensures Inv(Without(s, i, p))
  {
    var s' := Without(s, i, p);
    var gone := s.entries[i].devices.At(Other(p)).None?;
    forall j | 0 <= j < |s'.entries| ensures EntryOk(s', s'.entries[j]) {
      var k := if gone && j >= i then j + 1 else j;
      if k != i {
        assert s'.entries[j] == s.entries[k];
        WithoutOtherEntry(s, n, i, p, k);
      } else {
        WithoutOwnEntry(s, n, i, p);
      }
    }
    forall m | m in s'.live ensures m < s'.next && Listening(s'.entries, m) {
      WithoutListening(s, n, i, p, m);
    }
  }

  /** Every event keeps the handler's invariant, and the only assertion that can fail is the one against a third
      token. */
  lemma StepKeepsInv(s: State, event: Event)
    requires Inv(s)
    ensures Inv(Step(s, event))
    ensures Step(s, event).failed ==
      (s.failed || (event.Registers? && Crowded(EntryFor(s, event.key).devices, event.token)))
  {
    match event
    case Registers(connection, key, token) =>
      RegisteredKeepsInv(s, connection, key, token);
      EntryForOk(s, key);
    case Closes(n) =>
      if n in s.live && n in s.bound {
        var i, p := ClosedIsWithout(s, n);
        WithoutKeepsInv(s, n, i, p);
      }
  }

  // ---------------------------------------------------------------- what the handler is for

  function DeviceIn(devices: Pair<Option<Device>>, token: string): Option<nat> {
    if HasToken(devices.first, token) then IdOf(devices.first)
    else if HasToken(devices.second, token) then IdOf(devices.second)
    else None
  }

  /** The device registered under a key with a token, by number. */
  function DeviceAt(s: State, key: string, token: string): Option<nat> {
    var i := Find(s.entries, key);
    if i == |s.entries| then None else DeviceIn(s.entries[i].devices, token)
  }

  /** The token a registration pushes out: only a third one does. */
  predicate PushedOut(s: State, key: string, token: string, t: string) {
    var e := EntryFor(s, key);
    Crowded(e.devices, token) && HasToken(e.devices.second, t)
  }

  lemma FindAfterReplace(entries: seq<Entry>, i: nat, e: Entry, key: string)
    requires i < |entries| && e.key == entries[i].key
    ensures Find(entries[i := e], key) == Find(entries, key)
  {
    var r := entries[i := e];
    assert forall k :: 0 <= k < |entries| ==> r[k].key == entries[k].key;
  }

  lemma FindAfterAppend(entries: seq<Entry>, e: Entry, key: string)
    ensures Find(entries + [e], key) == if Find(entries, key) < |entries| then Find(entries, key)
                                         else if key == e.key then |entries| else |entries| + 1
  {
    var r := entries + [e];
    var f := Find(entries, key);
    assert forall k :: 0 <= k < |entries| ==> r[k] == entries[k];
    assert r[|entries|] == e;
    assert f < |entries| ==> r[f].key == key;
  }

  lemma FindAfterErase(entries: seq<Entry>, i: nat, key: string)
    requires UniqueKeys(entries) && i < |entries|
    ensures var f, r := Find(entries, key), entries[..i] + entries[i + 1..];
      Find(r, key) == if f < i then f else if f == i then |r| else f - 1
  {
    var f, r := Find(entries, key), entries[..i] + entries[i + 1..];
    var g := Find(r, key);
    if f < |entries| && f != i {
      assert r[if f < i then f else f - 1] == entries[f];
    }
    if g < |r| {
      assert r[g] == entries[if g < i then g else g + 1];
    }
  }

  lemma RegisteredFind(s: State, connection: nat, key: string, token: string, k: string)
    ensures var s' := Registered(s, connection, key, token);
      if k == key then Find(s'.entries, k) == Find(s.entries, key) < |s'.entries|
      else if Find(s.entries, k) == |s.entries| then Find(s'.entries, k) == |s'.entries|
      else Find(s'.entries, k) == Find(s.entries, k) && s'.entries[Find(s.entries, k)] == s.entries[Find(s.entries, k)]
  {
    var i, e, s' := Find(s.entries, key), EntryFor(s, key), Registered(s, connection, key, token);
    assert e.key == key;
    FindAfterAppend(s.entries, e, k);
    FindAfterReplace(FoundOrCreated(s.entries, key), i, s'.entries[i], k);
  }

  /** A registration puts its new device under its key and token, and replaces nothing else. */
  lemma RegisteredDevices(s: State, connection: nat, key: string, token: string, k: string, t: string)
    requires Inv(s)
    ensures DeviceAt(Registered(s, connection, key, token), k, t) ==
      if k == key && t == token then Some(s.next)
      else if k == key && PushedOut(s, key, token, t) then None
      else DeviceAt(s, k, t)
  {
    RegisteredFind(s, connection, key, token, k);
    if k == key {
      EntryForOk(s, key);
      var e := EntryFor(s, key);
      assert DeviceAt(s, key, t) == DeviceIn(e.devices, t);
    }
  }

  /** The connection of the device registered under a key with a token. */
  function ConnectionAt(s: State, key: string, token: string): Option<nat> {
    var i := Find(s.entries, key);
    if i == |s.entries| then None
    else
      var devices := s.entries[i].devices;
      if HasToken(devices.first, token) then Some(devices.first.value.connection)
      else if HasToken(devices.second, token) then Some(devices.second.value.connection)
      else None
  }

  /** The connection that has the place a registration takes: that of its token, else, if both places are taken, the
      second. */
  function Replaced(s: State, key: string, token: string): Option<nat> {
    var devices := EntryFor(s, key).devices;
    if Crowded(devices, token) then Some(devices.second.value.connection) else ConnectionAt(s, key, token)
  }

  /** A registration puts its connection under its key and token, and tells exactly the one it replaces to close. */
  lemma RegisteredConnections(s: State, connection: nat, key: string, token: string)
    requires Inv(s)
    ensures var s', replaced := Registered(s, connection, key, token), Replaced(s, key, token);
      && ConnectionAt(s', key, token) == Some(connection)
      && s'.closing == s.closing + (if replaced.Some? then [replaced.value] else [])
  {
    RegisteredFind(s, connection, key, token, key);
    EntryForOk(s, key);
  }

  lemma WithoutFind(s: State, i: nat, p: nat, k: string)
    requires UniqueKeys(s.entries) && i < |s.entries| && p < 2
    ensures var r, f := Without(s, i, p).entries, Find(s.entries, k);
      if f == |s.entries| then Find(r, k) == |r|
      else if f != i then Find(r, k) < |r| && r[Find(r, k)] == s.entries[f]
      else if s.entries[i].devices.At(Other(p)).None? then Find(r, k) == |r|
      else Find(r, k) == i < |r|
  {
    if s.entries[i].devices.At(Other(p)).None? {
      FindAfterErase(s.entries, i, k);
    } else {
      FindAfterReplace(s.entries, i, Without(s, i, p).entries[i], k);
    }
  }

  /** A close takes away exactly the device whose handle it reached. */
  lemma ClosedDevices(s: State, n: nat, k: string, t: string)
    requires Inv(s) && n in s.live && n in s.bound
    ensures DeviceAt(s, s.bound[n].0, s.bound[n].1) == Some(n)
    ensures DeviceAt(Step(s, Closes(n)), k, t) == if (k, t) == s.bound[n] then None else DeviceAt(s, k, t)
  {
    var i, p := ClosedIsWithout(s, n);
    WithoutFind(s, i, p, k);
    assert PlaceOk(s, s.entries[i], p) && PlaceOk(s, s.entries[i], Other(p));
  }

  /** A device's link leads to the other device under its key, and nowhere when it is alone. */
  lemma PartnersAreMutual(s: State, key: string, t: string, n: nat)
    requires Inv(s) && DeviceAt(s, key, t) == Some(n)
    ensures n in s.live && n in s.partner && s.bound[n] == (key, t)
    ensures s.partner[n].None? ==> forall u :: u != t ==> DeviceAt(s, key, u).None?
    ensures s.partner[n].Some? ==>
      var m := s.partner[n].value;
      m in s.partner && s.partner[m] == Some(n) && exists u :: u != t && DeviceAt(s, key, u) == Some(m)
  {
    var e := s.entries[Find(s.entries, key)];
    assert EntryOk(s, e);
    var p := if HasToken(e.devices.first, t) then 0 else 1;
    assert PlaceOk(s, e, p) && PlaceOk(s, e, Other(p));
    if e.devices.At(Other(p)).Some? {
      var u := e.devices.At(Other(p)).value.token;
      assert DeviceAt(s, key, u) == s.partner[n];
    }
  }

  /** Two devices under one key are each other's partners. */
  lemma DevicesArePartners(s: State, key: string, t: string, u: string, n: nat, m: nat)
    requires Inv(s) && t != u && DeviceAt(s, key, t) == Some(n) && DeviceAt(s, key, u) == Some(m)
    ensures n in s.partner && s.partner[n] == Some(m) && m in s.partner && s.partner[m] == Some(n)
  {
    var e := s.entries[Find(s.entries, key)];
    assert EntryOk(s, e) && PlaceOk(s, e, 0) && PlaceOk(s, e, 1);
  }

  lemma {:induction false} RunKeepsInv(s: State, events: seq<Event>)
    requires Inv(s)
    ensures Inv(Run(s, events)) && s.next <= Run(s, events).next
    ensures forall n :: n < s.next && n !in s.live ==> n !in Run(s, events).live
    decreases events
  {
    if events != [] {
      StepKeepsInv(s, events[0]);
      RunKeepsInv(Step(s, events[0]), events[1..]);
    }
  }

  lemma ReplacedHandleDies(s: State, connection: nat, key: string, token: string, n: nat)
    requires Inv(s) && DeviceAt(s, key, token) == Some(n)
    ensures n < s.next && n !in Registered(s, connection, key, token).live
  {
    var e := EntryFor(s, key);
    assert EntryOk(s, e);
    assert PlaceOk(s, e, PlaceFor(e.devices, token));
  }

  /** Once a connection has been replaced, its close, however late, changes nothing. */
  lemma LateCloseIsHarmless(s: State, connection: nat, key: string, token: string, n: nat, later: seq<Event>)
    requires Inv(s) && DeviceAt(s, key, token) == Some(n)
    ensures var s' := Run(Registered(s, connection, key, token), later); Step(s', Closes(n)) == s'
  {
    ReplacedHandleDies(s, connection, key, token, n);
    RegisteredKeepsInv(s, connection, key, token);
    RunKeepsInv(Registered(s, connection, key, token), later);
  }

  // ---------------------------------------------------------------- a mesh of clients

  /** What a client of the mesh registers: its own id as token, under the key it computes for another user. */
  ghost predicate FromMesh(event: Event) {
    event.Registers? ==>
      exists id, name ::
        UserId(event.token) && UserId(id) && Create(event.token, id, name) == Remote(event.token, event.key)
  }

  ghost predicate Meets(e: Entry, a: string, b: string) {
    && UserId(a) && UserId(b) && e.key == PairKey(a, b)
    && (e.devices.first.Some? ==> e.devices.first.value.token in {a, b})
    && (e.devices.second.Some? ==> e.devices.second.value.token in {a, b})
  }

  ghost predicate MeshInv(s: State) {
    forall i :: 0 <= i < |s.entries| ==> OfOnePair(s.entries[i])
  }

  ghost predicate OfOnePair(e: Entry) {
    exists a, b :: Meets(e, a, b)
  }

  lemma MeshEntry(s: State, event: Event) returns (a: string, b: string)
    requires MeshInv(s) && event.Registers? && FromMesh(event)
    ensures Meets(EntryFor(s, event.key), a, b) && event.token in {a, b}
  {
    var id, name :|
      UserId(event.token) && UserId(id) && Create(event.token, id, name) == Remote(event.token, event.key);
    var i := Find(s.entries, event.key);
    if i < |s.entries| {
      assert OfOnePair(s.entries[i]);
      a, b :| Meets(s.entries[i], a, b);
      PairsNeverShareAKey(event.token, id, a, b);
    } else {
      a, b := event.token, id;
    }
  }

  lemma RegistrationKeepsMesh(s: State, event: Event)
    requires Inv(s) && MeshInv(s) && event.Registers? && FromMesh(event)
    ensures MeshInv(Step(s, event)) && !Crowded(EntryFor(s, event.key).devices, event.token)
  {
    var s', i, e := Step(s, event), Find(s.entries, event.key), EntryFor(s, event.key);
    var a, b := MeshEntry(s, event);
    EntryForOk(s, event.key);
    assert Meets(s'.entries[i], a, b);
    forall j | 0 <= j < |s'.entries| ensures OfOnePair(s'.entries[j]) {
      if j != i { assert s'.entries[j] == s.entries[j]; }
    }
  }

  lemma ClosedEntries(s: State, key: string, token: string, j: nat)
    requires j < |DeviceClosed(s, key, token).entries|
    ensures var e := DeviceClosed(s, key, token).entries[j];
      exists k :: 0 <= k < |s.entries| && s.entries[k].key == e.key
        && e.devices.first in {s.entries[k].devices.first, None}
          && e.devices.second in {s.entries[k].devices.second, None}
  {
    var s', i := DeviceClosed(s, key, token), Find(s.entries, key);
    var k := if |s'.entries| < |s.entries| && j >= i then j + 1 else j;
    assert s.entries[k].key == s'.entries[j].key;
  }

  lemma CloseKeepsMesh(s: State, n: nat)
    requires Inv(s) && MeshInv(s)
    ensures MeshInv(Step(s, Closes(n)))
  {
    if n in s.live && n in s.bound {
      var s' := DeviceClosed(s, s.bound[n].0, s.bound[n].1);
      forall j | 0 <= j < |s'.entries| ensures OfOnePair(s'.entries[j]) {
        var e := s'.entries[j];
        ClosedEntries(s, s.bound[n].0, s.bound[n].1, j);
        var k :| 0 <= k < |s.entries| && s.entries[k].key == e.key
          && e.devices.first in {s.entries[k].devices.first, None}
          && e.devices.second in {s.entries[k].devices.second, None};
        EmptyingKeepsPair(s.entries[k], e);
      }
    }
  }

  lemma EmptyingKeepsPair(e: Entry, e': Entry)
    requires OfOnePair(e) && e'.key == e.key
    requires e'.devices.first in {e.devices.first, None} && e'.devices.second in {e.devices.second, None}
    ensures OfOnePair(e')
  {
    var a, b :| Meets(e, a, b);
    assert Meets(e', a, b);
  }

  lemma {:induction false} MeshRun(s: State, events: seq<Event>)
    requires Inv(s) && MeshInv(s) && !s.failed && forall i :: 0 <= i < |events| ==> FromMesh(events[i])
    ensures Inv(Run(s, events)) && MeshInv(Run(s, events)) && !Run(s, events).failed
    decreases events
  {
    if events != [] {
      StepKeepsInv(s, events[0]);
      if events[0].Registers? { RegistrationKeepsMesh(s, events[0]); } else { CloseKeepsMesh(s, events[0].handle); }
      MeshRun(Step(s, events[0]), events[1..]);
    }
  }

  /** In a whole mesh of users, whatever connects, reconnects and closes, no assertion of the handler ever fails,
      and the devices that meet under a key are those of one pair of users. */
  lemma NoAssertionFailsInAMesh(events: seq<Event>)
    requires forall i :: 0 <= i < |events| ==> FromMesh(events[i])
    ensures Inv(Run(START, events)) && MeshInv(Run(START, events)) && !Run(START, events).failed
  {
    MeshRun(START, events);
  }

  /** Two users of the mesh who are both registered for each other are connected to each other. */
  lemma PairsMeet(events: seq<Event>, a: string, b: string, n: nat, m: nat)
    requires forall i :: 0 <= i < |events| ==> FromMesh(events[i])
    requires a != b && DeviceAt(Run(START, events), PairKey(a, b), a) == Some(n)
    requires DeviceAt(Run(START, events), PairKey(b, a), b) == Some(m)
    ensures var s := Run(START, events);
      n in s.partner && s.partner[n] == Some(m) && m in s.partner && s.partner[m] == Some(n)
  {
    NoAssertionFailsInAMesh(events);
    BothEndsAgree(a, b);
    DevicesArePartners(Run(START, events), PairKey(a, b), a, b, n, m);
  }

  /** A third token under one key trips the assertion and takes over the second place. */
  lemma ThirdTokenExample()
    ensures var s := Step(Step(Step(START, Registers(0, "k", "a")), Registers(1, "k", "b")), Registers(2, "k", "c"));
      s.failed && DeviceAt(s, "k", "b").None? && DeviceAt(s, "k", "c") == Some(2)
  {
    var s1 := Step(START, Registers(0, "k", "a"));
    var s2 := Step(s1, Registers(1, "k", "b"));
    assert s1.entries == [Entry("k", Pair(Some(Device(0, "a", 0)), None), Pair(Some(0), None))];
    assert s2.entries == [Entry("k", Pair(Some(Device(0, "a", 0)), Some(Device(1, "b", 1))), Pair(Some(0), Some(1)))];
  }

  // ---------------------------------------------------------------- the handler

  class RegistrationHandler {
    var entries: seq<Entry>              // `devices` in the source
    // the state of the objects the entries refer to
    var partner: map<nat, Option<nat>>
    var live: set<nat>
    var bound: map<nat, (string, string)>
    var next: nat
    var closing: seq<nat>
    var failed: bool

    ghost function View(): State
      reads this
    {
      State(entries, partner, live, bound, next, closing, failed)
    }

    constructor ()
      ensures View() == START
    {
      entries, partner, live, bound, next, closing, failed := [], map[], {}, map[], 0, [], false;
    }

    method FindEntry(key: string) returns (i: nat)
      ensures i == Find(entries, key)
    {
      i := 0;
      while i < |entries| && entries[i].key != key
        invariant i <= |entries| && forall k :: 0 <= k < i ==> entries[k].key != key
      {
        i := i + 1;
      }
    }

    method FindOrCreate(key: string) returns (i: nat)
      modifies this`entries
      ensures entries == FoundOrCreated(old(entries), key) && i == Find(old(entries), key)
    {
      i := FindEntry(key);
      if i == |entries| {
        entries := entries + [Entry(key, EMPTY, Pair(None, None))];
      }
    }

    /** Disconnects a handle, as the move assignment and the destructor of a scoped connection do. */
    method DisconnectHandle(handle: Option<nat>)
      modifies this`live
      ensures live == old(live) - HandleIds(handle)
    {
      if handle.Some? { live := live - {handle.value}; }
    }

    method SetPartner(device: nat, other: Option<nat>)
      modifies this`partner
      ensures partner == old(partner)[device := other]
    {
      partner := partner[device := other];
    }

    method ChoosePlace(i: nat, token: string) returns (my: nat)
      requires i < |entries|
      modifies this`failed
      ensures my == PlaceFor(entries[i].devices, token)
      ensures failed == (old(failed) || Crowded(entries[i].devices, token))
    {
      var first, second := entries[i].devices.first, entries[i].devices.second;
      var mine: Option<nat> := None;
      if first.Some? && first.value.token == token { mine := Some(0); }
      if second.Some? && second.value.token == token { mine := Some(1); }
      if mine.None? {
        failed := failed || (first.Some? && second.Some?);
        mine := Some(if first.None? then 0 else 1);
      }
      my := mine.value;
    }

    method Register(connection: nat, key: string, token: string)
      modifies this
      ensures View() == Registered(old(View()), connection, key, token)
    {
      var i := FindOrCreate(key);
      var my := ChoosePlace(i, token);
      var e := entries[i];
      var device := Device(next, token, connection);
      next, partner := next + 1, partner[next := None];
      live, bound := live + {device.id}, bound[device.id := (key, token)];
      Occupy(i, my, device);
      Introduce(device, e.devices.At(Other(my)));
    }

    /** Closes the connection of the device in a place, if any, and puts the new one there. */
    method Occupy(i: nat, my: nat, device: Device)
      requires i < |entries|
      modifies this`entries, this`live, this`closing
      ensures var e := old(entries[i]);
        && entries == old(entries)[i := e.(devices := e.devices.With(my, Some(device)),
                                           handles := e.handles.With(my, Some(device.id)))]
        && live == old(live) - HandleIds(e.handles.At(my))
        && closing == old(closing) + (if e.devices.At(my).Some? then [e.devices.At(my).value.connection] else [])
    {
      var e := entries[i];
      if e.devices.At(my).Some? {
        closing := closing + [e.devices.At(my).value.connection];
      }
      entries := entries[i := e.(devices := e.devices.With(my, Some(device)))];
      DisconnectHandle(e.handles.At(my));
      entries := entries[i := entries[i].(handles := e.handles.With(my, Some(device.id)))];
    }

    method Introduce(device: Device, other: Option<Device>)
      modifies this`partner, this`failed
      ensures failed == (old(failed) || HasToken(other, device.token))
      ensures partner ==
        if other.Some? then old(partner)[device.id := Some(other.value.id)][other.value.id := Some(device.id)]
        else old(partner)
    {
      if other.Some? {
        failed := failed || other.value.token == device.token;
        SetPartner(device.id, Some(other.value.id));
        SetPartner(other.value.id, Some(device.id));
      }
    }

    /** A handle of an entry fires; a connection's close reaches the handles still connected. */
    method OnClosed(handle: nat)
      modifies this
      ensures View() == Step(old(View()), Closes(handle))
    {
      if handle in live && handle in bound {
        OnDeviceClosed(bound[handle].0, bound[handle].1);
      }
    }

    method OnDeviceClosed(key: string, token: string)
      modifies this
      ensures View() == DeviceClosed(old(View()), key, token)
    {
      var i := FindEntry(key);
      if i == |entries| {
        failed := true;
        return;
      }
      var e := entries[i];
      var my := 0;
      if e.devices.first.Some? && e.devices.first.value.token == token {
      } else if e.devices.second.Some? && e.devices.second.value.token == token {
        my := 1;
      } else {
        failed := true;
      }
      var other := e.devices.At(Other(my));
      if other.Some? {
        SetPartner(other.value.id, None);
      }
      DisconnectHandle(e.handles.At(my));
      entries := entries[i := e.(devices := e.devices.With(my, None))];
      if entries[i].devices.first.Some? || entries[i].devices.second.Some? {
        return;
      }
      Erase(i);
      assert entries == old(entries[..i] + entries[i + 1..]);
      assert e.devices.With(my, None) == EMPTY;
      assert live == Unheard(old(live), e.handles, my, true);
    }

    /** `vector::erase`: every later entry is moved one place down, handle by handle, and the last one is destroyed. */
    method Erase(i: nat)
      requires i < |entries|
      modifies this`entries, this`live
      ensures entries == old(entries[..i] + entries[i + 1..])
      ensures live == old(live) - HandleIds(old(entries[i]).handles.first) - HandleIds(old(entries[i]).handles.second)
    {
      var k, gone := i, entries[i].handles;
      while k + 1 < |entries|
        invariant i <= k < |entries| == |old(entries)|
        invariant forall j :: 0 <= j < k ==> entries[j] == old(entries)[if j < i then j else j + 1]
        invariant forall j :: k < j < |entries| ==> entries[j] == old(entries)[j]
        invariant entries[k].handles == gone
        invariant k == i ==> live == old(live)
        invariant k > i ==> live == old(live) - HandleIds(gone.first) - HandleIds(gone.second)
      {
        DisconnectHandle(entries[k].handles.first);
        DisconnectHandle(entries[k].handles.second);
        entries := entries[k := entries[k + 1]][k + 1 := entries[k + 1].(devices := EMPTY, handles := gone)];
        k := k + 1;
      }
      DisconnectHandle(entries[k].handles.first);
      DisconnectHandle(entries[k].handles.second);
      entries := entries[..k];
    }
  }
}
