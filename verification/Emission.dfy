/**
 Emitting a signal while the callbacks change it.

 What the callbacks do is a script: one behaviour for each callback an emission makes, in order, and
 nothing once the script is used up.  A behaviour may connect, disconnect, block, let a tracked object
 expire, and emit the same signal again with a script of its own.
 */
module Emission {
  import opened SlotLists

  datatype Act =
    | Connect(gid: int)
    | Disconnect(slot: SlotId)                 // through the slot's connection
    | DisconnectMatching(doomed: set<SlotId>)  // through the signal, by callable or object
    | DisconnectGroupOf(gid: int)
    | DisconnectEvery
    | Block(slot: SlotId)
    | Unblock(slot: SlotId)
    | Expire(slot: SlotId)                     // the object a slot tracks is destroyed
    | Mute
    | Unmute
    | Emit(script: seq<Behaviour>)

  datatype Behaviour = Behaviour(acts: seq<Act>)

  /** The signal and its slots; slot ids are handed out in connection order. */
  datatype View = View(
    groups: Groups,
    gids: seq<int>,
    connected: set<SlotId>,
    blocked: set<SlotId>,
    expired: set<SlotId>,
    muted: bool)

  /** `called` lists the callbacks an emission made itself, `heard` those of nested emissions as well;
      `unplayed` is what is left of its script. */
  datatype Outcome = Outcome(view: View, called: seq<SlotId>, heard: seq<SlotId>, unplayed: seq<Behaviour>)

  /** A change made through the signal leaves the slots' own state alone. */
  function Edited(v: View, edit: Edit): View {
    v.(groups := Apply(v.groups, edit))
  }

  function Connected(v: View, gid: int): View {
    v.(groups := Inserted(v.groups, |v.gids|, gid), gids := v.gids + [gid], connected := v.connected + {|v.gids|})
  }

  /** `slot_state::disconnect`: only the first time takes the slot out of the list. */
  function Disconnected(v: View, s: SlotId): View {
    if s in v.connected && s < |v.gids|
    then v.(groups := Cleaned(v.groups, s, v.gids[s]), connected := v.connected - {s}) else v
  }

  predicate Live(v: View, s: SlotId) {
    s in v.connected && s !in v.blocked
  }

  function Silent(v: View, script: seq<Behaviour>): Outcome {
    Outcome(v, [], [], script)
  }

  function Then(first: Outcome, second: Outcome): Outcome {
    Outcome(second.view, first.called + second.called, first.heard + second.heard, second.unplayed)
  }

  function Emitted(v: View, script: seq<Behaviour>): Outcome
    decreases script, 1, 0
  {
    if v.muted then Silent(v, script) else Walk(v, Flatten(v.groups), script)
  }

  /** Emits to the rest of a snapshot. */
  function Walk(v: View, todo: seq<SlotId>, script: seq<Behaviour>): Outcome
    decreases script, 0, |todo|
  {
    if todo == [] then Silent(v, script)
    else
      var turn := Turn(v, todo[0], script);
      Then(turn, Walk(turn.view, todo[1..], turn.unplayed))
  }

  /** `slot_base::operator()`: a blocked or disconnected slot is passed over, one whose object expired is
      disconnected. */
  function Turn(v: View, s: SlotId, script: seq<Behaviour>): Outcome
    decreases script, 0, 0
  {
    if !Live(v, s) then Silent(v, script)
    else if s in v.expired then Silent(Disconnected(v, s), script)
    else if script == [] then Outcome(v, [s], [s], [])
    else
      var during := PerformAll(v, script[0].acts);
      Outcome(during.view, [s], [s] + during.heard, script[1..])
  }

  function PerformAll(v: View, acts: seq<Act>): Outcome
    decreases acts, 0, 0
  {
    if acts == [] then Silent(v, [])
    else
      var first := Perform(v, acts[0]);
      Then(first, PerformAll(first.view, acts[1..]))
  }

  function Perform(v: View, act: Act): Outcome
    decreases act, 0, 0
  {
    match act
    case Emit(script) =>
      var out := Emitted(v, script);
      Outcome(out.view, [], out.heard, [])
    case Connect(gid) => Silent(Connected(v, gid), [])
    case Disconnect(s) => Silent(Disconnected(v, s), [])
    case DisconnectMatching(doomed) => Silent(Edited(v, DisconnectIf(doomed)), [])
    case DisconnectGroupOf(gid) => Silent(Edited(v, DisconnectGroup(gid)), [])
    case DisconnectEvery => Silent(Edited(v, DisconnectAll), [])
    case Block(s) => Silent(if s < |v.gids| then v.(blocked := v.blocked + {s}) else v, [])
    case Unblock(s) => Silent(v.(blocked := v.blocked - {s}), [])
    case Expire(s) => Silent(if s < |v.gids| then v.(expired := v.expired + {s}) else v, [])
    case Mute => Silent(v.(muted := true), [])
    case Unmute => Silent(v.(muted := false), [])
  }

  // ---------------------------------------------------------------- what every callback keeps

  /** The list is well formed, and holds connected slots only; a connected slot need not be listed. */
  ghost predicate Inv(v: View) {
    && WellFormed(v.groups, v.gids)
    && (forall s :: s in v.connected || s in v.blocked || s in v.expired ==> s < |v.gids|)
    && (forall gid, s :: s in Bag(v.groups, gid) ==> s in v.connected)
  }

  /** From `v` to `v'` slots were only added, no disconnected one came back, and only connected ones were heard. */
  ghost predicate Follows(v: View, v': View, heard: seq<SlotId>) {
    && Inv(v') && v.gids <= v'.gids
    && (forall s :: s in v'.connected && s < |v.gids| ==> s in v.connected)
    && (forall s :: s in heard ==> s < |v'.gids| && (s < |v.gids| ==> s in v.connected))
  }

  lemma FollowsOn(v: View, v': View, v'': View, heard: seq<SlotId>, heard': seq<SlotId>)
    requires Follows(v, v', heard) && Follows(v', v'', heard')
    ensures Follows(v, v'', heard + heard')
  {
  }

  lemma Relisted(v: View, r: Groups, connected: set<SlotId>)
    requires Inv(v) && WellFormed(r, v.gids) && connected <= v.connected
    requires forall gid, s :: s in Bag(r, gid) ==> s in connected
    ensures Follows(v, v.(groups := r, connected := connected), [])
  {
  }

  lemma EditFollows(v: View, edit: Edit)
    requires Inv(v) && Fits(edit, v.gids) && !edit.AddSlot?
    ensures Follows(v, Edited(v, edit), [])
  {
    var r := Apply(v.groups, edit);
    EditRefines(v.groups, v.gids, edit);
    forall gid, s | s in Bag(r, gid) ensures s in v.connected {
      EditListsNoOther(v.groups, v.gids, edit, gid, s);
    }
    Relisted(v, r, v.connected);
  }

  lemma CleanFollows(v: View, edit: Edit)
    requires Inv(v) && Fits(edit, v.gids) && edit.Clean?
    ensures Follows(v, Edited(v, edit).(connected := v.connected - {edit.slot}), [])
  {
    var r := Apply(v.groups, edit);
    EditRefines(v.groups, v.gids, edit);
    forall gid, s | s in Bag(r, gid) ensures s in v.connected && s != edit.slot {
      EditListsNoOther(v.groups, v.gids, edit, gid, s);
    }
    Relisted(v, r, v.connected - {edit.slot});
  }

  lemma ConnectFollows(v: View, gid: int)
    requires Inv(v)
    ensures Follows(v, Connected(v, gid), [])
  {
    var edit := AddSlot(|v.gids|, gid);
    EditRefines(v.groups, v.gids, edit);
    var r := Apply(v.groups, edit);
    forall g, s | s in Bag(r, g) ensures s in v.connected + {|v.gids|} {
      EditListsNoOther(v.groups, v.gids, edit, g, s);
    }
    NewlyListed(v, r, gid);
  }

  lemma NewlyListed(v: View, r: Groups, gid: int)
    requires Inv(v) && WellFormed(r, v.gids + [gid])
    requires forall g, s :: s in Bag(r, g) ==> s in v.connected + {|v.gids|}
    ensures Follows(v, v.(groups := r, gids := v.gids + [gid], connected := v.connected + {|v.gids|}), [])
  {
  }

  lemma DisconnectFollows(v: View, s: SlotId)
    requires Inv(v)
    ensures Follows(v, Disconnected(v, s), []) && s !in Disconnected(v, s).connected
  {
    if s in v.connected {
      CleanFollows(v, Clean(s, v.gids[s]));
    }
  }

  lemma {:induction false} PerformFollows(v: View, act: Act)
    requires Inv(v)
    ensures Follows(v, Perform(v, act).view, Perform(v, act).heard)
    decreases act, 0, 0
  {
    match act
    case Emit(script) => EmissionFollows(v, script);
    case Connect(gid) => ConnectFollows(v, gid);
    case Disconnect(s) => DisconnectFollows(v, s);
    case DisconnectMatching(doomed) => EditFollows(v, DisconnectIf(doomed));
    case DisconnectGroupOf(gid) => EditFollows(v, DisconnectGroup(gid));
    case DisconnectEvery => EditFollows(v, DisconnectAll);
    case _ =>
  }

  lemma {:induction false} PerformAllFollows(v: View, acts: seq<Act>)
    requires Inv(v)
    ensures Follows(v, PerformAll(v, acts).view, PerformAll(v, acts).heard)
    decreases acts, 0, 0
  {
    if acts != [] {
      PerformFollows(v, acts[0]);
      var first := Perform(v, acts[0]);
      PerformAllFollows(first.view, acts[1..]);
      var rest := PerformAll(first.view, acts[1..]);
      FollowsOn(v, first.view, rest.view, first.heard, rest.heard);
    }
  }

  lemma {:induction false} EmissionFollows(v: View, script: seq<Behaviour>)
    requires Inv(v)
    ensures Follows(v, Emitted(v, script).view, Emitted(v, script).heard)
    decreases script, 1, 0
  {
    if !v.muted { WalkFollows(v, Flatten(v.groups), script); }
  }

  lemma {:induction false} WalkFollows(v: View, todo: seq<SlotId>, script: seq<Behaviour>)
    requires Inv(v)
    ensures Follows(v, Walk(v, todo, script).view, Walk(v, todo, script).heard)
    decreases script, 0, |todo|
  {
    if todo != [] {
      TurnFollows(v, todo[0], script);
      var turn := Turn(v, todo[0], script);
      WalkFollows(turn.view, todo[1..], turn.unplayed);
      var after := Walk(turn.view, todo[1..], turn.unplayed);
      FollowsOn(v, turn.view, after.view, turn.heard, after.heard);
    }
  }

  lemma HearsFirst(v: View, v': View, s: SlotId, heard: seq<SlotId>)
    requires Follows(v, v', heard) && s in v.connected && s < |v.gids|
    ensures Follows(v, v', [s] + heard)
  {
  }

  lemma {:induction false} TurnFollows(v: View, s: SlotId, script: seq<Behaviour>)
    requires Inv(v)
    ensures Follows(v, Turn(v, s, script).view, Turn(v, s, script).heard)
    decreases script, 0, 0
  {
    if Live(v, s) {
      if s in v.expired {
        DisconnectFollows(v, s);
      } else if script != [] {
        PerformAllFollows(v, script[0].acts);
        var during := PerformAll(v, script[0].acts);
        HearsFirst(v, during.view, s, during.heard);
      }
    }
  }

  const NEW := View([], [], {}, {}, {}, false)

  /** Whatever is done with a new signal, callbacks and nested emissions included: its list is well formed and holds
      connected slots only, and only slots that were connected to it are heard. */
  lemma SignalsStaySound(acts: seq<Act>)
    ensures var out := PerformAll(NEW, acts); Inv(out.view)
    ensures var out := PerformAll(NEW, acts); forall s :: s in out.heard ==> s < |out.view.gids|
  {
    assert Inv(NEW);
    PerformAllFollows(NEW, acts);
  }

  /** Whatever callbacks do, nested emissions included: the signal stays sound, and a slot disconnected through its
      connection is never heard again. */
  lemma DisconnectedIsNeverHeardAgain(v: View, script: seq<Behaviour>, s: SlotId, later: seq<Act>)
    requires Inv(v) && s < |v.gids| && s !in v.connected
    ensures s !in Emitted(v, script).heard
    ensures s !in PerformAll(Emitted(v, script).view, later).heard
  {
    EmissionFollows(v, script);
    PerformAllFollows(Emitted(v, script).view, later);
  }

  // ---------------------------------------------------------------- what one emission calls

  /** The states in which the slots of a snapshot get their turns. */
  function Turns(v: View, todo: seq<SlotId>, script: seq<Behaviour>): (turns: seq<View>)
    ensures |turns| == |todo| && (todo != [] ==> turns[0] == v)
    decreases |todo|
  {
    if todo == [] then []
    else
      var turn := Turn(v, todo[0], script);
      [v] + Turns(turn.view, todo[1..], turn.unplayed)
  }

  predicate Due(v: View, s: SlotId) {
    Live(v, s) && s !in v.expired
  }

  lemma {:induction false} WalkOrdered(v: View, todo: seq<SlotId>, script: seq<Behaviour>, gids: seq<int>)
    requires Ordered(todo, gids)
    ensures Ordered(Walk(v, todo, script).called, gids)
    ensures forall s :: s in Walk(v, todo, script).called ==> s in todo
    decreases |todo|
  {
    if todo != [] {
      var turn := Turn(v, todo[0], script);
      WalkOrdered(turn.view, todo[1..], turn.unplayed, gids);
      var after := Walk(turn.view, todo[1..], turn.unplayed).called;
      forall j | 0 <= j < |after| ensures todo[0] != after[j] && gids[todo[0]] <= gids[after[j]] {
        assert after[j] in todo[1..];
        var k :| 0 <= k < |todo[1..]| && todo[1..][k] == after[j];
        assert todo[k + 1] == after[j];
      }
      OrderedJoin(turn.called, after, gids);
    }
  }

  lemma {:induction false} WalkDue(v: View, todo: seq<SlotId>, script: seq<Behaviour>, gids: seq<int>, i: nat)
    requires Ordered(todo, gids) && i < |todo|
    ensures todo[i] in Walk(v, todo, script).called <==> Due(Turns(v, todo, script)[i], todo[i])
    decreases |todo|
  {
    var turn := Turn(v, todo[0], script);
    WalkOrdered(turn.view, todo[1..], turn.unplayed, gids);
    if i > 0 {
      WalkDue(turn.view, todo[1..], turn.unplayed, gids, i - 1);
    }
  }

  lemma {:induction false} TurnsFollow(v: View, todo: seq<SlotId>, script: seq<Behaviour>, i: nat)
    requires Inv(v) && i < |todo|
    ensures Follows(v, Turns(v, todo, script)[i], [])
    decreases |todo|
  {
    if i > 0 {
      var turn := Turn(v, todo[0], script);
      TurnFollows(v, todo[0], script);
      TurnsFollow(turn.view, todo[1..], turn.unplayed, i - 1);
      FollowsOn(v, turn.view, Turns(v, todo, script)[i], turn.heard, []);
    }
  }

  /** One emission calls, in ascending group order and each at most once, exactly those slots of its starting
      snapshot that are connected, unblocked and unexpired when their turn comes; none connected meanwhile. */
  lemma EmissionCallsTheSnapshot(v: View, script: seq<Behaviour>)
    requires Inv(v) && !v.muted
    ensures var snapshot, called := Flatten(v.groups), Emitted(v, script).called;
      var turns := Turns(v, snapshot, script);
      && Ordered(called, v.gids) && (forall s :: s in called ==> s in snapshot && s < |v.gids|)
      && (forall i :: 0 <= i < |snapshot| ==> (snapshot[i] in called <==> Due(turns[i], snapshot[i])))
      && (forall i :: 0 <= i < |snapshot| ==> Follows(v, turns[i], []))
  {
    var snapshot := Flatten(v.groups);
    FlattenOrdered(v.groups, v.gids);
    WalkOrdered(v, snapshot, script, v.gids);
    forall i | 0 <= i < |snapshot|
      ensures snapshot[i] in Emitted(v, script).called <==> Due(Turns(v, snapshot, script)[i], snapshot[i])
      ensures Follows(v, Turns(v, snapshot, script)[i], [])
    {
      WalkDue(v, snapshot, script, v.gids, i);
      TurnsFollow(v, snapshot, script, i);
    }
  }

  /** A change made through the signal that takes slots out of its list. */
  predicate Removes(act: Act) {
    act.DisconnectMatching? || act.DisconnectGroupOf? || act.DisconnectEvery?
  }

  predicate OnlyRemoves(script: seq<Behaviour>) {
    forall b <- script, act <- b.acts :: Removes(act)
  }

  /** Those of some slots that are due. */
  function DueOf(v: View, slts: seq<SlotId>): seq<SlotId> {
    if slts == [] then [] else (if Due(v, slts[0]) then [slts[0]] else []) + DueOf(v, slts[1..])
  }

  /** Taking slots out of the list from the signal's side stops no emission that is already walking: whatever callbacks
      remove like that, at whichever turn, exactly the slots of the snapshot that were due at the start are called. */
  lemma RemovalByTheSignalDoesNotStopAnEmission(v: View, script: seq<Behaviour>)
    requires Inv(v) && !v.muted && OnlyRemoves(script)
    ensures Emitted(v, script).called == DueOf(v, Flatten(v.groups))
  {
    FlattenOrdered(v.groups, v.gids);
    UndisturbedWalk(v, v, Flatten(v.groups), script);
  }

  /** So even a first callback that empties the list. */
  lemma EmptyingDoesNotStopAnEmission(v: View)
    requires Inv(v) && !v.muted
    ensures Emitted(v, [Behaviour([DisconnectEvery])]).called == DueOf(v, Flatten(v.groups))
  {
    RemovalByTheSignalDoesNotStopAnEmission(v, [Behaviour([DisconnectEvery])]);
  }

  /** The slots themselves are as they were. */
  predicate SameSlots(v: View, v': View) {
    v'.gids == v.gids && v'.connected == v.connected && v'.blocked == v.blocked && v'.expired == v.expired
  }

  lemma {:induction false} RemovalsLeaveTheSlots(v: View, acts: seq<Act>)
    requires forall act <- acts :: Removes(act)
    ensures SameSlots(v, PerformAll(v, acts).view)
    decreases |acts|
  {
    if acts != [] {
      assert acts[0] in acts;
      RemovalsLeaveTheSlots(Perform(v, acts[0]).view, acts[1..]);
    }
  }

  /** What a slot of `todo` is, in `v'` as in `v`. */
  ghost predicate SameFor(v: View, v': View, todo: seq<SlotId>) {
    forall s <- todo :: Due(v', s) == Due(v, s) && Live(v', s) == Live(v, s)
  }

  lemma TurnLeavesTheRest(v: View, now: View, todo: seq<SlotId>, script: seq<Behaviour>)
    requires todo != [] && SameFor(v, now, todo) && todo[0] !in todo[1..] && OnlyRemoves(script)
    ensures var turn := Turn(now, todo[0], script);
      && turn.called == (if Due(v, todo[0]) then [todo[0]] else [])
      && SameFor(v, turn.view, todo[1..]) && OnlyRemoves(turn.unplayed)
  {
    assert todo[0] in todo;
    forall s | s in todo[1..] ensures s in todo {}
    if Due(now, todo[0]) && script != [] { RemovalsLeaveTheSlots(now, script[0].acts); }
  }

  lemma {:induction false} UndisturbedWalk(v: View, now: View, todo: seq<SlotId>, script: seq<Behaviour>)
    requires SameFor(v, now, todo) && OnlyRemoves(script)
    requires forall i, j :: 0 <= i < j < |todo| ==> todo[i] != todo[j]
    ensures Walk(now, todo, script).called == DueOf(v, todo)
    decreases |todo|
  {
    if todo != [] {
      assert todo[0] !in todo[1..];
      TurnLeavesTheRest(v, now, todo, script);
      var turn := Turn(now, todo[0], script);
      UndisturbedWalk(v, turn.view, todo[1..], turn.unplayed);
    }
  }

  // ---------------------------------------------------------------- what each act does

  /** An emission with callbacks that do nothing calls a slot. */
  predicate Calls(v: View, s: SlotId) {
    s in Emitted(v, []).called
  }

  lemma {:induction false} DueOfIs(v: View, slts: seq<SlotId>, s: SlotId)
    ensures s in DueOf(v, slts) <==> s in slts && Due(v, s)
  {
    if slts != [] { DueOfIs(v, slts[1..], s); }
  }

  lemma CallsIs(v: View, s: SlotId)
    requires Inv(v)
    ensures Calls(v, s) <==>
      !v.muted && s in Flatten(v.groups) && s in v.connected && s !in v.blocked && s !in v.expired
  {
    if !v.muted {
      RemovalByTheSignalDoesNotStopAnEmission(v, []);
      DueOfIs(v, Flatten(v.groups), s);
    }
  }

  /** Which slots the next emission calls, by those it would have called before an act. */
  predicate CallsAfter(v: View, act: Act, s: SlotId) {
    match act
    case Connect(_) => Calls(v, s) || (s == |v.gids| && !v.muted)
    case Disconnect(x) => Calls(v, s) && s != x
    case DisconnectMatching(doomed) => Calls(v, s) && s !in doomed
    case DisconnectGroupOf(gid) => Calls(v, s) && !(s < |v.gids| && v.gids[s] == gid)
    case DisconnectEvery => false
    case Block(x) => Calls(v, s) && s != x
    case Unblock(x) =>
      Calls(v, s) || (s == x && !v.muted && s in Flatten(v.groups) && s in v.connected && s !in v.expired)
    case Expire(x) => Calls(v, s) && s != x
    case Mute => false
    case Unmute => s in Flatten(v.groups) && s in v.connected && s !in v.blocked && s !in v.expired
    case Emit(_) => true
  }

  lemma ListActs(v: View, act: Act, s: SlotId)
    requires Inv(v)
    ensures act.Connect? ==> (s in Flatten(Perform(v, act).view.groups) <==> s in Flatten(v.groups) || s == |v.gids|)
    ensures act.Disconnect? && act.slot in v.connected ==>
      (s in Flatten(Perform(v, act).view.groups) <==> s in Flatten(v.groups) && s != act.slot)
    ensures act.DisconnectMatching? ==>
      (s in Flatten(Perform(v, act).view.groups) <==> s in Flatten(v.groups) && s !in act.doomed)
    ensures act.DisconnectGroupOf? ==>
      (s in Flatten(Perform(v, act).view.groups) <==>
         s in Flatten(v.groups) && !(s < |v.gids| && v.gids[s] == act.gid))
  {
    match act
    case Connect(gid) => EditListed(v.groups, v.gids, AddSlot(|v.gids|, gid), s);
    case Disconnect(x) => if x in v.connected { EditListed(v.groups, v.gids, Clean(x, v.gids[x]), s); }
    case DisconnectMatching(doomed) => EditListed(v.groups, v.gids, DisconnectIf(doomed), s);
    case DisconnectGroupOf(gid) => EditListed(v.groups, v.gids, DisconnectGroup(gid), s);
    case _ =>
  }

  /** Connecting makes the next emission call the new slot, disconnecting and the rest silence exactly what they name,
      and nothing else changes. */
  lemma ActsDoAsTheySay(v: View, act: Act, s: SlotId)
    requires Inv(v) && !act.Emit?
    ensures Calls(Perform(v, act).view, s) <==> CallsAfter(v, act, s)
    ensures Perform(v, act).heard == []
  {
    var w := Perform(v, act).view;
    PerformFollows(v, act);
    CallsIs(v, s);
    CallsIs(w, s);
    ListActs(v, act, s);
  }

  /** The bag of the group a slot is connected to gains exactly that slot, and no other bag changes. */
  lemma ConnectLists(v: View, gid: int, g: int, s: SlotId)
    requires Inv(v)
    ensures var w := Perform(v, Connect(gid)).view;
      && Bag(w.groups, g)[s] == Bag(v.groups, g)[s] + (if g == gid && s == |v.gids| then 1 else 0)
      && w.gids == v.gids + [gid] && w.connected == v.connected + {|v.gids|}
      && w.blocked == v.blocked && w.expired == v.expired && w.muted == v.muted
  {
    EditRefines(v.groups, v.gids, AddSlot(|v.gids|, gid));
    assert Bag(Apply(v.groups, AddSlot(|v.gids|, gid)), g)[s]
      == TimesAfter(AddSlot(|v.gids|, gid), g, s, Bag(v.groups, g)[s]);
  }

  /** Disconnecting a connected slot takes it out of its bag, and changes no other; the second time nothing happens. */
  lemma DisconnectUnlists(v: View, x: SlotId, g: int, s: SlotId)
    requires Inv(v)
    ensures var w := Perform(v, Disconnect(x)).view;
      && w.connected == v.connected - {x}
      && Bag(w.groups, g)[s] == (if s == x then 0 else Bag(v.groups, g)[s])
      && Perform(w, Disconnect(x)).view == w
  {
    if x in v.connected {
      EditRefines(v.groups, v.gids, Clean(x, v.gids[x]));
      assert Bag(Apply(v.groups, Clean(x, v.gids[x])), g)[s]
        == TimesAfter(Clean(x, v.gids[x]), g, s, Bag(v.groups, g)[s]);
      if s == x && g != v.gids[x] && s in Bag(v.groups, g) { ListedInItsGroup(v.groups, v.gids, g, s); }
    }
  }

  /** A slot whose object expired is not called: an emission that comes to it takes it out for good, and no other. */
  lemma ExpiredAreTakenOut(v: View, x: SlotId, script: seq<Behaviour>, g: int, s: SlotId)
    requires Inv(v) && Live(v, x) && x in v.expired
    ensures var turn := Turn(v, x, script);
      && turn.called == [] && turn.heard == [] && turn.unplayed == script
      && turn.view.connected == v.connected - {x}
      && Bag(turn.view.groups, g)[s] == (if s == x then 0 else Bag(v.groups, g)[s])
  {
    DisconnectUnlists(v, x, g, s);
  }

  lemma {:induction false} CalledAreHeard(v: View, todo: seq<SlotId>, script: seq<Behaviour>, s: SlotId)
    requires s in Walk(v, todo, script).called
    ensures s in Walk(v, todo, script).heard
    decreases |todo|
  {
    var turn := Turn(v, todo[0], script);
    if s !in turn.called { CalledAreHeard(turn.view, todo[1..], turn.unplayed, s); }
  }

  /** A callback that emits again is heard to do so: every slot that would be called is, inside its turn. */
  lemma NestedEmissionsAreHeard(v: View, s: SlotId, x: SlotId)
    requires Inv(v) && Due(v, s) && Calls(v, x)
    ensures var turn := Turn(v, s, [Behaviour([Emit([])])]);
      turn.called == [s] && turn.heard[0] == s && x in turn.heard[1..]
  {
    var acts := [Emit([])];
    CalledAreHeard(v, Flatten(v.groups), [], x);
    var first := Perform(v, acts[0]);
    assert acts[1..] == [] && PerformAll(first.view, []).heard == [];
    assert PerformAll(v, acts).heard == first.heard + [] == first.heard;
    assert Turn(v, s, [Behaviour(acts)]).heard == [s] + first.heard;
    assert x in first.heard;
  }

  lemma ThenAssociates(a: Outcome, b: Outcome, c: Outcome)
    ensures Then(Then(a, b), c) == Then(a, Then(b, c))
  {
  }

  /** A walk may be interrupted between two slots and resumed. */
  lemma {:induction false} WalkSplits(v: View, a: seq<SlotId>, b: seq<SlotId>, script: seq<Behaviour>)
    ensures var first := Walk(v, a, script);
      Walk(v, a + b, script) == Then(first, Walk(first.view, b, first.unplayed))
    decreases |a|
  {
    if a == [] {
      assert a + b == b;
    } else {
      var turn, first := Turn(v, a[0], script), Walk(v, a, script);
      WalkSplits(turn.view, a[1..], b, turn.unplayed);
      assert (a + b)[1..] == a[1..] + b;
      ThenAssociates(turn, Walk(turn.view, a[1..], turn.unplayed), Walk(first.view, b, first.unplayed));
    }
  }

  lemma WalkOne(v: View, s: SlotId, script: seq<Behaviour>)
    ensures Walk(v, [s], script) == Turn(v, s, script)
  {
    var turn := Turn(v, s, script);
    assert Walk(turn.view, [s][1..], turn.unplayed) == Silent(turn.view, turn.unplayed);
  }

  lemma WalkExtended(v: View, todo: seq<SlotId>, script: seq<Behaviour>, sofar: Outcome, s: SlotId, turn: Outcome)
    requires sofar == Walk(v, todo, script) && turn == Turn(sofar.view, s, sofar.unplayed)
    ensures Then(sofar, turn) == Walk(v, todo + [s], script)
  {
    WalkSplits(v, todo, [s], script);
    WalkOne(sofar.view, s, sofar.unplayed);
  }
}
