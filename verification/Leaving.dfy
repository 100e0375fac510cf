/**
 Leaving a room: all participants are closed, and a waiter walks their futures.

 A run starts when `close()` has copied the list. Closes complete in any order, at once or later and with any outcome;
 one that completes at once does so before the next is started. Members may still come and go, since stopping the sync
 is no guarantee against it. Participants are numbered as they are listed, those of the copy first, so that a member's
 participant can be told from the one made when the member came back. A failed assertion sets `failed`, and execution
 goes on as in a release build.
 */
module Leaving {
  import Membership
  import opened Prelude
  import opened Lists

  type Change = Membership.Change

  datatype Outcome = Fine | KnownException | UnknownException

  datatype Event =
    | Starts                             // the next participant's `close()` is called
    | Waits                              // `wait_for_done`
    | Completes(k: nat, outcome: Outcome)
    | Joins(id: string)
    | Leaves(id: string)

  datatype Participant = Participant(id: string, number: nat)

  datatype State = State(
    participants: seq<Participant>,
    next: nat,
    announced: seq<Change>,
    closing: seq<string>,                // the copy
    started: nat,
    completed: seq<nat>,                 // indices into the copy, in the order of their completion
    waiting: bool,
    current: nat,                        // the waiter's iterator
    resolved: nat,                       // how often the future returned by `close()` was fulfilled
    failed: bool)

  function Ids(list: seq<Participant>): (ids: seq<string>)
    ensures |ids| == |list| && forall i :: 0 <= i < |ids| ==> ids[i] == list[i].id
  {
    seq(|list|, i requires 0 <= i < |list| => list[i].id)
  }

  /** The list without the first participant of an id. */
  function WithoutId(list: seq<Participant>, id: string): seq<Participant> {
    var i := Find(Ids(list), id);
    if i < |list| then list[..i] + list[i + 1..] else list
  }

  function Numbered(ids: seq<string>): (list: seq<Participant>)
    ensures |list| == |ids| && forall i :: 0 <= i < |list| ==> list[i] == Participant(ids[i], i)
  {
    seq(|ids|, i requires 0 <= i < |ids| => Participant(ids[i], i))
  }

  function Begin(ids: seq<string>): State {
    State(Numbered(ids), |ids|, [], ids, 0, [], false, 0, 0, false)
  }

  /** The first participant of an id goes, and is announced. */
  function Erased(s: State, id: string): State {
    if id in Ids(s.participants) then
      s.(participants := WithoutId(s.participants, id), announced := s.announced + [Membership.Removed(id)])
    else s.(failed := true)
  }

  /** `participants::on_async_closed` for participant `k` of the copy. */
  function AsyncClosed(s: State, k: nat, outcome: Outcome): State
    requires k < |s.closing|
  {
    Erased(s.(failed := s.failed || outcome.UnknownException?), s.closing[k])
  }

  /** The waiter's walk over the futures that are ready. */
  function Walk(s: State): State
    decreases |s.closing| - s.current
  {
    if s.current >= |s.closing| then s.(resolved := s.resolved + 1)
    else if s.current in s.completed then Walk(s.(current := s.current + 1))
    else s
  }

  /** Whether the close of participant `k` can complete now. */
  predicate Pending(s: State, k: nat) {
    k < s.started && k < |s.closing| && k !in s.completed
  }

  function Step(s: State, event: Event): State {
    match event
    case Starts => if s.started < |s.closing| then s.(started := s.started + 1) else s
    case Waits => if s.started == |s.closing| && !s.waiting then Walk(s.(waiting := true)) else s
    case Completes(k, outcome) =>
      if !Pending(s, k) then s
      else
        var t := AsyncClosed(s, k, outcome).(completed := s.completed + [k]);
        if s.waiting && s.current == k then Walk(t) else t
    case Joins(id) =>
      s.(participants := s.participants + [Participant(id, s.next)],
         next := s.next + 1,
         announced := s.announced + [Membership.Added(id)],
         failed := s.failed || id in Ids(s.participants))
    case Leaves(id) => Erased(s, id)
  }

  function Run(s: State, events: seq<Event>): State
    decreases events
  {
    if events == [] then s else Run(Step(s, events[0]), events[1..])
  }

  // ---------------------------------------------------------------- resolving

  predicate AllClosed(s: State) {
    forall k :: 0 <= k < |s.closing| ==> k in s.completed
  }

  predicate WaiterInv(s: State) {
    && s.current <= |s.closing| && s.started <= |s.closing|
    && (forall k :: 0 <= k < s.current ==> k in s.completed)
    && (s.waiting && s.current < |s.closing| ==> s.current !in s.completed)
    && (!s.waiting ==> s.current == 0)
    && s.resolved == (if s.waiting && s.current == |s.closing| then 1 else 0)
    && (forall i :: 0 <= i < |s.completed| ==> s.completed[i] < s.started)
    && (forall i, j :: 0 <= i < j < |s.completed| ==> s.completed[i] != s.completed[j])
  }

  lemma {:induction false} WalkSettles(s: State)
    requires s.waiting && s.current <= |s.closing| && s.resolved == 0
    requires forall k :: 0 <= k < s.current ==> k in s.completed
    ensures var t := Walk(s);
      && t == s.(current := t.current, resolved := t.resolved)
      && s.current <= t.current <= |s.closing|
      && (forall k :: 0 <= k < t.current ==> k in s.completed)
      && (t.current < |s.closing| ==> t.current !in s.completed)
      && t.resolved == if t.current == |s.closing| then 1 else 0
    decreases |s.closing| - s.current
  {
    if s.current < |s.closing| && s.current in s.completed { WalkSettles(s.(current := s.current + 1)); }
  }

  lemma CompletionKeepsWaiter(s: State, k: nat, outcome: Outcome)
    requires WaiterInv(s) && Pending(s, k)
    ensures WaiterInv(Step(s, Completes(k, outcome)))
  {
    var t := AsyncClosed(s, k, outcome).(completed := s.completed + [k]);
    assert t.completed[|s.completed|] == k && forall i :: 0 <= i < |s.completed| ==> t.completed[i] == s.completed[i];
    assert forall j :: j in t.completed <==> j in s.completed || j == k;
    if s.waiting && s.current == k { WalkSettles(t); }
  }

  lemma StepKeepsWaiter(s: State, event: Event)
    requires WaiterInv(s)
    ensures WaiterInv(Step(s, event)) && Step(s, event).closing == s.closing
  {
    match event
    case Waits =>
      if s.started == |s.closing| && !s.waiting { WalkSettles(s.(waiting := true)); }
    case Completes(k, outcome) =>
      if Pending(s, k) {
        CompletionKeepsWaiter(s, k, outcome);
        StepOnList(s, event);
      }
    case _ =>
  }

  lemma {:induction false} RunKeepsWaiter(s: State, events: seq<Event>)
    requires WaiterInv(s)
    ensures WaiterInv(Run(s, events)) && Run(s, events).closing == s.closing
    decreases events
  {
    if events != [] {
      StepKeepsWaiter(s, events[0]);
      RunKeepsWaiter(Step(s, events[0]), events[1..]);
    }
  }

  /** Whatever completes when and how, and whoever comes and goes: the future of `close()` is fulfilled at most once,
      and it is fulfilled exactly when the waiter was started and every participant's close has completed. */
  lemma ResolvesOnceWhenAllAreClosed(ids: seq<string>, events: seq<Event>)
    ensures var s := Run(Begin(ids), events); s.resolved == if s.waiting && AllClosed(s) then 1 else 0
  {
    RunKeepsWaiter(Begin(ids), events);
  }

  // ---------------------------------------------------------------- the list, while nobody comes or goes

  /** The participants of the copy whose close has not completed. */
  function Rest(ids: seq<string>, completed: seq<nat>): seq<string> {
    if ids == [] then []
    else
      var n := |ids| - 1;
      Rest(ids[..n], completed) + if n in completed then [] else [ids[n]]
  }

  function Removals(ids: seq<string>, completed: seq<nat>): (r: seq<Change>)
    requires forall i :: 0 <= i < |completed| ==> completed[i] < |ids|
    ensures |r| == |completed|
    ensures forall i :: 0 <= i < |r| ==> r[i] == Membership.Removed(ids[completed[i]])
  {
    seq(|completed|, i requires 0 <= i < |completed| => Membership.Removed(ids[completed[i]]))
  }

  lemma {:induction false} RestListed(ids: seq<string>, completed: seq<nat>, id: string)
    ensures id in Rest(ids, completed) <==> exists k :: 0 <= k < |ids| && ids[k] == id && k !in completed
  {
    if ids != [] {
      var n := |ids| - 1;
      RestListed(ids[..n], completed, id);
      if id in Rest(ids[..n], completed) {
        var k :| 0 <= k < n && ids[..n][k] == id && k !in completed;
        assert ids[k] == id;
      }
      if k :| 0 <= k < n && ids[k] == id && k !in completed { assert ids[..n][k] == id; }
    }
  }

  lemma {:induction false} RestShrinks(ids: seq<string>, completed: seq<nat>, k: nat)
    requires Distinct(ids) && k < |ids| && k !in completed
    ensures ids[k] in Rest(ids, completed)
    ensures Without(Rest(ids, completed), ids[k]) == Rest(ids, completed + [k])
  {
    var n := |ids| - 1;
    var before := Rest(ids[..n], completed);
    var last := if n in completed then [] else [ids[n]];
    RestListed(ids, completed, ids[k]);
    RestListed(ids[..n], completed, ids[k]);
    assert Rest(ids, completed) == before + last;
    if k == n {
      assert ids[n] !in ids[..n];
      WithoutLast(before, ids[n]);
      RestSame(ids[..n], completed, k);
    } else {
      RestShrinks(ids[..n], completed, k);
      WithoutInFront(before, last, ids[k]);
    }
  }

  lemma {:induction false} RestSame(ids: seq<string>, completed: seq<nat>, k: nat)
    requires k >= |ids|
    ensures Rest(ids, completed + [k]) == Rest(ids, completed)
  {
    if ids != [] { RestSame(ids[..|ids| - 1], completed, k); }
  }

  lemma IdsWithout(list: seq<Participant>, id: string)
    ensures Ids(WithoutId(list, id)) == Without(Ids(list), id)
  {
  }

  /** The list holds those not closed yet, in order, and the announcements are the completions, in order. */
  ghost predicate ListInv(s: State) {
    && WaiterInv(s) && Distinct(s.closing)
    && Ids(s.participants) == Rest(s.closing, s.completed)
    && s.announced == Removals(s.closing, s.completed)
  }

  predicate MembersStay(events: seq<Event>) {
    forall i :: 0 <= i < |events| ==> !events[i].Joins? && !events[i].Leaves?
  }

  lemma StepOnList(s: State, event: Event)
    requires WaiterInv(s)
    ensures var t := Step(s, event);
      match event
      case Starts => t == s.(started := t.started)
      case Waits => t == s.(waiting := t.waiting, current := t.current, resolved := t.resolved)
      case Completes(k, outcome) =>
        if Pending(s, k) then
          var u := AsyncClosed(s, k, outcome);
          t == u.(completed := s.completed + [k], current := t.current, resolved := t.resolved)
        else t == s
      case _ => true
  {
    match event
    case Waits =>
      if s.started == |s.closing| && !s.waiting { WalkSettles(s.(waiting := true)); }
    case Completes(k, outcome) =>
      if Pending(s, k) && s.waiting && s.current == k {
        WalkSettles(AsyncClosed(s, k, outcome).(completed := s.completed + [k]));
      }
    case _ =>
  }

  lemma StepKeepsList(s: State, event: Event)
    requires ListInv(s) && !event.Joins? && !event.Leaves?
    ensures ListInv(Step(s, event))
    ensures Step(s, event).failed <==>
      s.failed || (event.Completes? && Pending(s, event.k) && event.outcome.UnknownException?)
  {
    StepKeepsWaiter(s, event);
    StepOnList(s, event);
    if event.Completes? && Pending(s, event.k) {
      RestShrinks(s.closing, s.completed, event.k);
      IdsWithout(s.participants, s.closing[event.k]);
    }
  }

  lemma {:induction false} RunKeepsList(s: State, events: seq<Event>)
    requires ListInv(s) && MembersStay(events)
    ensures ListInv(Run(s, events))
    decreases events
  {
    if events != [] {
      StepKeepsList(s, events[0]);
      RunKeepsList(Step(s, events[0]), events[1..]);
    }
  }

  lemma {:induction false} NothingLeft(ids: seq<string>, completed: seq<nat>)
    requires forall k :: 0 <= k < |ids| ==> k in completed
    ensures Rest(ids, completed) == []
  {
    if ids != [] { NothingLeft(ids[..|ids| - 1], completed); }
  }

  lemma {:induction false} AllAtStart(ids: seq<string>)
    ensures Rest(ids, []) == ids
  {
    if ids != [] { AllAtStart(ids[..|ids| - 1]); }
  }

  lemma RemovalsListed(ids: seq<string>, completed: seq<nat>)
    requires forall i :: 0 <= i < |completed| ==> completed[i] < |ids|
    requires forall i, j :: 0 <= i < j < |completed| ==> completed[i] != completed[j]
    requires forall k :: 0 <= k < |ids| ==> k in completed
    requires Distinct(ids)
    ensures var r := Removals(ids, completed);
      && (forall i, j :: 0 <= i < j < |r| ==> r[i] != r[j])
      && (forall change: Change :: change in r <==> change.Removed? && change.id in ids)
  {
    var r := Removals(ids, completed);
    forall change: Change | change.Removed? && change.id in ids ensures change in r {
      var k: nat :| 0 <= k < |ids| && ids[k] == change.id;
      assert k in completed;
      var i :| 0 <= i < |completed| && completed[i] == k;
      assert r[i] == change;
    }
  }

  /** If nobody comes or goes meanwhile, the list is empty once the future is fulfilled, and by then each participant
      has been announced removed exactly once and nothing else was announced. */
  lemma EveryoneIsGoneWhenItResolves(ids: seq<string>, events: seq<Event>)
    requires Distinct(ids) && MembersStay(events) && Run(Begin(ids), events).resolved > 0
    ensures var s := Run(Begin(ids), events);
      && s.participants == [] && |s.announced| == |s.completed|
      && (forall i, j :: 0 <= i < j < |s.announced| ==> s.announced[i] != s.announced[j])
      && (forall change: Change :: change in s.announced <==> change.Removed? && change.id in ids)
  {
    var s := Run(Begin(ids), events);
    AllAtStart(ids);
    RunKeepsList(Begin(ids), events);
    RunKeepsWaiter(Begin(ids), events);
    NothingLeft(ids, s.completed);
    RemovalsListed(ids, s.completed);
  }

  /** Nobody coming or going, only an exception of an unknown kind fails an assertion. */
  lemma {:induction false} OnlyUnknownExceptionsFail(s: State, events: seq<Event>)
    requires ListInv(s) && MembersStay(events)
    requires forall i :: 0 <= i < |events| && events[i].Completes? ==> !events[i].outcome.UnknownException?
    ensures Run(s, events).failed == s.failed
    decreases events
  {
    if events != [] {
      StepKeepsList(s, events[0]);
      OnlyUnknownExceptionsFail(Step(s, events[0]), events[1..]);
    }
  }

  // ---------------------------------------------------------------- members that come and go

  /** The number of the first participant of an id. */
  function NumberOf(list: seq<Participant>, id: string): Option<nat> {
    var i := Find(Ids(list), id);
    if i < |list| then Some(list[i].number) else None
  }

  /** The last that was heard of a member is that it left. */
  predicate Away(events: seq<Event>, id: string) {
    events != [] &&
    match events[|events| - 1]
    case Leaves(x) => x == id || Away(events[..|events| - 1], id)
    case Joins(x) => x != id && Away(events[..|events| - 1], id)
    case _ => Away(events[..|events| - 1], id)
  }

  lemma {:induction false} AwayHasLeft(events: seq<Event>, id: string)
    requires Away(events, id)
    ensures Leaves(id) in events
  {
    if events[|events| - 1] != Leaves(id) { AwayHasLeft(events[..|events| - 1], id); }
  }

  lemma NumberAfterAppend(list: seq<Participant>, p: Participant, id: string)
    ensures NumberOf(list + [p], id) ==
      if NumberOf(list, id).Some? then NumberOf(list, id) else if p.id == id then Some(p.number) else None
  {
    var l, i := list + [p], Find(Ids(list), id);
    assert Ids(l) == Ids(list) + [p.id];
    FindInAppend(Ids(list), [p.id], id);
    if i == |list| { assert Find([p.id], id) == if p.id == id then 0 else 1; }
  }

  lemma NumberAfterErase(list: seq<Participant>, x: string, id: string)
    requires Distinct(Ids(list))
    ensures Distinct(Ids(WithoutId(list, x)))
    ensures NumberOf(WithoutId(list, x), id) == if id == x then None else NumberOf(list, id)
  {
    var r, i, f := WithoutId(list, x), Find(Ids(list), x), Find(Ids(list), id);
    IdsWithout(list, x);
    WithoutDistinct(Ids(list), x);
    if id != x && f < |list| {
      var g := if f < i then f else f - 1;
      assert r[g] == list[f] && Ids(r)[g] == id;
      UniqueFind(Ids(r), id, g);
    }
  }

  lemma UniqueFind(ids: seq<string>, id: string, g: nat)
    requires Distinct(ids) && g < |ids| && ids[g] == id
    ensures Find(ids, id) == g
  {
  }

  /** What a list says about the member whose participant is `k` of the copy, before that one's close completes: it is
      not listed exactly while it is away, and listed as the one of the copy exactly if it never left. */
  ghost predicate Tells(list: seq<Participant>, next: nat, ids: seq<string>, k: nat, away: bool, left: bool)
    requires k < |ids|
  {
    var number := NumberOf(list, ids[k]);
    && Distinct(Ids(list)) && next >= |ids| && (away ==> left)
    && (number.None? <==> away)
    && (number == Some(k) <==> !left)
    && (number.Some? && left ==> number.value >= |ids|)
  }

  lemma JoinTells(list: seq<Participant>, next: nat, ids: seq<string>, k: nat, away: bool, left: bool, id: string)
    requires k < |ids| && Tells(list, next, ids, k, away, left) && id !in Ids(list)
    ensures Tells(list + [Participant(id, next)], next + 1, ids, k, away && id != ids[k], left)
  {
    NumberAfterAppend(list, Participant(id, next), ids[k]);
    assert Ids(list + [Participant(id, next)]) == Ids(list) + [id];
  }

  lemma LeaveTells(list: seq<Participant>, next: nat, ids: seq<string>, k: nat, away: bool, left: bool, id: string)
    requires k < |ids| && Tells(list, next, ids, k, away, left)
    ensures Tells(WithoutId(list, id), next, ids, k, away || id == ids[k], left || id == ids[k])
  {
    NumberAfterErase(list, id, ids[k]);
  }

  ghost predicate Follows(s: State, events: seq<Event>, ids: seq<string>, k: nat)
    requires k < |ids|
  {
    s.closing == ids && Tells(s.participants, s.next, ids, k, Away(events, ids[k]), Leaves(ids[k]) in events)
  }

  lemma HeardOf(events: seq<Event>, event: Event, id: string)
    ensures Away(events + [event], id) == ((Away(events, id) && event != Joins(id)) || event == Leaves(id))
    ensures (Leaves(id) in events + [event]) == (Leaves(id) in events || event == Leaves(id))
  {
    assert (events + [event])[..|events|] == events;
  }

  lemma FollowsMembers(s: State, events: seq<Event>, ids: seq<string>, k: nat, event: Event)
    requires k < |ids| && Follows(s, events, ids, k) && !Step(s, event).failed && (event.Joins? || event.Leaves?)
    ensures Follows(Step(s, event), events + [event], ids, k)
  {
    var away, left := Away(events, ids[k]), Leaves(ids[k]) in events;
    HeardOf(events, event, ids[k]);
    if event.Joins? {
      JoinTells(s.participants, s.next, ids, k, away, left, event.id);
    } else {
      LeaveTells(s.participants, s.next, ids, k, away, left, event.id);
    }
  }

  lemma FollowsCloses(s: State, events: seq<Event>, ids: seq<string>, k: nat, event: Event)
    requires k < |ids| && Distinct(ids) && Follows(s, events, ids, k) && WaiterInv(s) && !event.Joins? && !event.Leaves?
    requires !Step(s, event).failed && k !in Step(s, event).completed
    ensures Follows(Step(s, event), events + [event], ids, k)
  {
    HeardOf(events, event, ids[k]);
    StepOnList(s, event);
    if event.Completes? && Pending(s, event.k) {
      assert Step(s, event).completed[|s.completed|] == event.k;
      LeaveTells(s.participants, s.next, ids, k, Away(events, ids[k]), Leaves(ids[k]) in events, ids[event.k]);
    }
  }

  lemma StepOnlyAdds(s: State, event: Event)
    requires WaiterInv(s)
    ensures s.failed ==> Step(s, event).failed
    ensures s.completed <= Step(s, event).completed
  {
    StepOnList(s, event);
  }

  lemma {:induction false} RunLast(s: State, events: seq<Event>)
    requires events != []
    ensures Run(s, events) == Step(Run(s, events[..|events| - 1]), events[|events| - 1])
  {
    var front, last := events[..|events| - 1], events[|events| - 1];
    assert events == front + [last];
    RunConcat(s, front, [last]);
    RunFirst(Run(s, front), last, []);
  }

  lemma {:induction false} RunFollows(ids: seq<string>, events: seq<Event>, k: nat)
    requires Distinct(ids) && k < |ids|
    requires !Run(Begin(ids), events).failed && k !in Run(Begin(ids), events).completed
    ensures Follows(Run(Begin(ids), events), events, ids, k)
    decreases |events|
  {
    if events == [] {
      assert Ids(Numbered(ids)) == ids;
      UniqueFind(ids, ids[k], k);
    } else {
      var front, last := events[..|events| - 1], events[|events| - 1];
      var s := Run(Begin(ids), front);
      RunLast(Begin(ids), events);
      RunKeepsWaiter(Begin(ids), front);
      StepOnlyAdds(s, last);
      RunFollows(ids, front, k);
      assert front + [last] == events;
      if last.Joins? || last.Leaves? {
        FollowsMembers(s, front, ids, k, last);
      } else {
        FollowsCloses(s, front, ids, k, last);
      }
    }
  }

  /** In any run in which no assertion has failed, the completion of a close fails one exactly if it brings an exception
      of an unknown kind or its member is away: it left meanwhile and did not come back. */
  lemma LeavingMeanwhileFails(ids: seq<string>, events: seq<Event>, k: nat, outcome: Outcome)
    requires Distinct(ids) && !Run(Begin(ids), events).failed && Pending(Run(Begin(ids), events), k)
    ensures k < |ids|
    ensures Step(Run(Begin(ids), events), Completes(k, outcome)).failed <==>
      outcome.UnknownException? || Away(events, ids[k])
  {
    RunKeepsWaiter(Begin(ids), events);
    RunFollows(ids, events, k);
    StepOnList(Run(Begin(ids), events), Completes(k, outcome));
  }

  /** And it takes off the list its own participant exactly if the member never left, and the participant that was made
      when the member came back exactly if it left and is not away. */
  lemma CloseTakesOff(ids: seq<string>, events: seq<Event>, k: nat, outcome: Outcome)
    requires Distinct(ids) && !Run(Begin(ids), events).failed && Pending(Run(Begin(ids), events), k)
    ensures k < |ids|
    ensures var s := Run(Begin(ids), events);
      var t, taken := Step(s, Completes(k, outcome)), NumberOf(s.participants, ids[k]);
      && t.participants == WithoutId(s.participants, ids[k])
      && (taken == Some(k) <==> Leaves(ids[k]) !in events)
      && (taken.Some? && taken.value >= |ids| <==> Leaves(ids[k]) in events && !Away(events, ids[k]))
  {
    RunKeepsWaiter(Begin(ids), events);
    RunFollows(ids, events, k);
    StepOnList(Run(Begin(ids), events), Completes(k, outcome));
    if Away(events, ids[k]) { AwayHasLeft(events, ids[k]); }
  }

  /** A member that came back is taken off the list by the close of the participant it had before. */
  lemma BackAgainExample()
    ensures var back := Step(Step(Step(Begin(["u"]), Starts), Leaves("u")), Joins("u"));
      var s := Step(back, Completes(0, Fine));
      back.participants == [Participant("u", 1)] && s.participants == [] && !s.failed
  {
    var first, second := Participant("u", 0), Participant("u", 1);
    OneErased(first);
    OneErased(second);
    var s := Step(Begin(["u"]), Starts);
    assert s.participants == [first];
    assert Step(Step(s, Leaves("u")), Joins("u")).participants == [second];
  }

  lemma OneErased(p: Participant)
    ensures Ids([p]) == [p.id] && WithoutId([p], p.id) == []
  {
    assert Find(Ids([p]), p.id) == 0;
  }

  /** The close of participant `k`, which may complete at once. */
  function CloseOf(k: nat, atOnce: Option<Outcome>): seq<Event> {
    if atOnce.Some? then [Starts, Completes(k, atOnce.value)] else [Starts]
  }

  /** What happens inside `close()`: from participant `k` on, some closes complete at once; then the waiter starts. */
  function CloseEvents(atOnce: seq<Option<Outcome>>, k: nat): seq<Event>
    requires k <= |atOnce|
    decreases |atOnce| - k
  {
    if k == |atOnce| then [Waits] else CloseOf(k, atOnce[k]) + CloseEvents(atOnce, k + 1)
  }

  lemma {:induction false} RunConcat(s: State, a: seq<Event>, b: seq<Event>)
    ensures Run(s, a + b) == Run(Run(s, a), b)
    decreases a
  {
    if a == [] {
      assert a + b == b;
    } else {
      assert (a + b)[0] == a[0] && (a + b)[1..] == a[1..] + b;
      RunConcat(Step(s, a[0]), a[1..], b);
    }
  }

  lemma CloseOfIs(s: State, k: nat, atOnce: Option<Outcome>)
    ensures var t := Step(s, Starts);
      Run(s, CloseOf(k, atOnce)) == if atOnce.Some? then Step(t, Completes(k, atOnce.value)) else t
  {
    RunFirst(s, Starts, []);
    if atOnce.Some? {
      RunFirst(s, Starts, [Completes(k, atOnce.value)]);
      RunFirst(Step(s, Starts), Completes(k, atOnce.value), []);
    }
  }

  lemma CloseOfKeepsWaiter(s: State, atOnce: Option<Outcome>)
    requires WaiterInv(s) && !s.waiting && s.started < |s.closing|
    ensures var t := Run(s, CloseOf(s.started, atOnce));
      WaiterInv(t) && !t.waiting && t.started == s.started + 1 && t.closing == s.closing
  {
    CloseOfIs(s, s.started, atOnce);
    StepKeepsWaiter(s, Starts);
    if atOnce.Some? { StepKeepsWaiter(Step(s, Starts), Completes(s.started, atOnce.value)); }
  }

  lemma RunFirst(s: State, event: Event, rest: seq<Event>)
    ensures Run(s, [event] + rest) == Run(Step(s, event), rest)
  {
    assert ([event] + rest)[1..] == rest;
  }

  /** The closes that complete at once, from participant `k` on. */
  ghost predicate DoneAtOnce(completed: seq<nat>, atOnce: seq<Option<Outcome>>, k: nat)
    requires k <= |atOnce|
  {
    forall j: nat :: j in completed <==> j < k && atOnce[j].Some?
  }

  lemma CloseOfDone(s: State, atOnce: seq<Option<Outcome>>)
    requires WaiterInv(s) && !s.waiting && s.started < |s.closing| == |atOnce|
    requires DoneAtOnce(s.completed, atOnce, s.started)
    ensures DoneAtOnce(Run(s, CloseOf(s.started, atOnce[s.started])).completed, atOnce, s.started + 1)
  {
    var k := s.started;
    CloseOfIs(s, k, atOnce[k]);
    var t := Step(s, Starts);
    if atOnce[k].Some? {
      StepKeepsWaiter(s, Starts);
      StepOnList(t, Completes(k, atOnce[k].value));
      assert Step(t, Completes(k, atOnce[k].value)).completed == s.completed + [k];
    }
  }

  lemma {:induction false} ClosingFrom(s: State, atOnce: seq<Option<Outcome>>)
    requires WaiterInv(s) && !s.waiting && |s.closing| == |atOnce| && DoneAtOnce(s.completed, atOnce, s.started)
    ensures var t := Run(s, CloseEvents(atOnce, s.started));
      && WaiterInv(t) && t.closing == s.closing && t.started == |s.closing| && t.waiting
      && DoneAtOnce(t.completed, atOnce, |atOnce|)
    decreases |s.closing| - s.started
  {
    if s.started == |atOnce| {
      RunFirst(s, Waits, []);
      StepKeepsWaiter(s, Waits);
      StepOnList(s, Waits);
      WalkSettles(s.(waiting := true));
    } else {
      var k := s.started;
      var t := Run(s, CloseOf(k, atOnce[k]));
      RunConcat(s, CloseOf(k, atOnce[k]), CloseEvents(atOnce, k + 1));
      CloseOfKeepsWaiter(s, atOnce[k]);
      CloseOfDone(s, atOnce);
      ClosingFrom(t, atOnce);
    }
  }

  /** `close()` starts the close of every participant, and then the waiter. */
  lemma CloseStartsAll(ids: seq<string>, atOnce: seq<Option<Outcome>>)
    requires |atOnce| == |ids|
    ensures var s := Run(Begin(ids), CloseEvents(atOnce, 0));
      && s.started == |ids| && s.waiting
      && (forall k: nat :: k in s.completed <==> k < |ids| && atOnce[k].Some?)
      && s.resolved == if forall k :: 0 <= k < |ids| ==> atOnce[k].Some? then 1 else 0
  {
    ClosingFrom(Begin(ids), atOnce);
  }

  lemma {:induction false} StaysWaiting(s: State, events: seq<Event>)
    requires WaiterInv(s) && s.waiting
    ensures Run(s, events).waiting
    decreases events
  {
    if events != [] {
      StepKeepsWaiter(s, events[0]);
      StepOnList(s, events[0]);
      StaysWaiting(Step(s, events[0]), events[1..]);
    }
  }

  /** So whatever happens after `close()`, its future is fulfilled exactly when every close has completed. */
  lemma CloseResolves(ids: seq<string>, atOnce: seq<Option<Outcome>>, later: seq<Event>)
    requires |atOnce| == |ids|
    ensures var s := Run(Run(Begin(ids), CloseEvents(atOnce, 0)), later);
      s.resolved == if forall k :: 0 <= k < |ids| ==> k in s.completed then 1 else 0
  {
    ClosingFrom(Begin(ids), atOnce);
    var s := Run(Begin(ids), CloseEvents(atOnce, 0));
    StaysWaiting(s, later);
    RunKeepsWaiter(s, later);
  }

  lemma ReplayLast(ids: seq<string>, changes: seq<Change>, change: Change)
    ensures Membership.Replay(ids, changes + [change]) ==
      var before := Membership.Replay(ids, changes);
      if change.Added? then before + [change.id] else Without(before, change.id)
  {
    assert (changes + [change])[..|changes|] == changes;
  }

  /** Members coming and going or not, replaying what was announced onto the copy gives the list. */
  lemma {:induction false} AnnouncementsGiveTheList(ids: seq<string>, s: State, events: seq<Event>)
    requires WaiterInv(s) && Membership.Replay(ids, s.announced) == Ids(s.participants)
    ensures Membership.Replay(ids, Run(s, events).announced) == Ids(Run(s, events).participants)
    decreases events
  {
    if events != [] {
      StepKeepsWaiter(s, events[0]);
      StepReplays(ids, s, events[0]);
      AnnouncementsGiveTheList(ids, Step(s, events[0]), events[1..]);
    }
  }

  lemma ErasedReplays(ids: seq<string>, s: State, id: string)
    requires Membership.Replay(ids, s.announced) == Ids(s.participants)
    ensures Membership.Replay(ids, Erased(s, id).announced) == Ids(Erased(s, id).participants)
  {
    ReplayLast(ids, s.announced, Membership.Removed(id));
    IdsWithout(s.participants, id);
  }

  lemma StepReplays(ids: seq<string>, s: State, event: Event)
    requires WaiterInv(s) && Membership.Replay(ids, s.announced) == Ids(s.participants)
    ensures Membership.Replay(ids, Step(s, event).announced) == Ids(Step(s, event).participants)
  {
    StepOnList(s, event);
    match event
    case Completes(k, outcome) => if Pending(s, k) { ErasedReplays(ids, s, s.closing[k]); }
    case Joins(id) =>
      ReplayLast(ids, s.announced, Membership.Added(id));
      assert Ids(s.participants + [Participant(id, s.next)]) == Ids(s.participants) + [id];
    case Leaves(id) => ErasedReplays(ids, s, id);
    case _ =>
  }

  // ---------------------------------------------------------------- the participants and their waiter

  class Leaver {
    var participants: seq<Participant>
    var next: nat
    var announced: seq<Change>
    var closing: seq<string>
    var started: nat
    var completed: seq<nat>
    var waiting: bool
    var current: nat
    var resolved: nat
    var failed: bool

    ghost function View(): State
      reads this
    {
      State(participants, next, announced, closing, started, completed, waiting, current, resolved, failed)
    }

    constructor (ids: seq<string>)
      ensures View() == Begin(ids)
    {
      participants, next, announced, closing, started, completed := Numbered(ids), |ids|, [], ids, 0, [];
      waiting, current, resolved, failed := false, 0, 0, false;
    }

    method Close(atOnce: seq<Option<Outcome>>)
      requires View() == Begin(closing) && |atOnce| == |closing|
      modifies this
      ensures View() == Run(old(View()), CloseEvents(atOnce, 0))
      ensures started == |closing| && waiting
      ensures resolved == if forall k :: 0 <= k < |atOnce| ==> atOnce[k].Some? then 1 else 0
    {
      CloseStartsAll(closing, atOnce);
      while started < |closing|
        invariant started <= |closing| == |atOnce| && !waiting && WaiterInv(View())
        invariant Run(View(), CloseEvents(atOnce, started)) == Run(old(View()), CloseEvents(atOnce, 0))
      {
        RunConcat(View(), CloseOf(started, atOnce[started]), CloseEvents(atOnce, started + 1));
        CloseOfKeepsWaiter(View(), atOnce[started]);
        CloseOfIs(View(), started, atOnce[started]);
        CloseNext(atOnce[started]);
      }
      assert Run(Step(View(), Waits), []) == Step(View(), Waits);
      assert [Waits][1..] == [];
      WaitForDone();
    }

    method CloseNext(atOnce: Option<Outcome>)
      requires started < |closing| && started !in completed && !waiting
      modifies this
      ensures View() == var t := Step(old(View()), Starts);
        if atOnce.Some? then Step(t, Completes(old(started), atOnce.value)) else t
    {
      started := started + 1;
      if atOnce.Some? { Complete(started - 1, atOnce.value); }
    }

    method FindParticipant(id: string) returns (i: nat)
      ensures i == Find(Ids(participants), id)
    {
      i := 0;
      while i < |participants| && participants[i].id != id
        invariant i <= |participants| && forall k :: 0 <= k < i ==> participants[k].id != id
      {
        i := i + 1;
      }
    }

    method HandleClosed(k: nat, outcome: Outcome)
      requires k < |closing|
      modifies this`participants, this`announced, this`failed
      ensures View() == AsyncClosed(old(View()), k, outcome)
    {
      if outcome == UnknownException { failed := true; }
      var i := FindParticipant(closing[k]);
      if i == |participants| {
        failed := true;
        return;
      }
      participants := participants[..i] + participants[i + 1..];
      announced := announced + [Membership.Removed(closing[k])];
    }

    /** `do_next`: a ready future's continuation runs inside `then`. */
    method DoNext()
      requires current < |closing|
      modifies this`current, this`resolved
      ensures View() == Walk(old(View()))
      decreases |closing| - current
    {
      if current in completed {
        current := current + 1;
        if current == |closing| {
          resolved := resolved + 1;
          return;
        }
        DoNext();
      }
    }

    method WaitForDone()
      requires started == |closing| && !waiting && WaiterInv(View())
      modifies this`waiting, this`current, this`resolved
      ensures View() == Step(old(View()), Waits)
    {
      waiting := true;
      if |closing| == 0 {
        resolved := resolved + 1;
        return;
      }
      current := 0;
      DoNext();
    }

    method Complete(k: nat, outcome: Outcome)
      requires Pending(View(), k)
      modifies this
      ensures View() == Step(old(View()), Completes(k, outcome))
    {
      HandleClosed(k, outcome);
      completed := completed + [k];
      if waiting && current == k { DoNext(); }
    }
  }
}
