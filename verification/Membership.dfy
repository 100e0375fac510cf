/**
 A room's members and the client's participants, which are to be the members that have joined.

 A failed assertion sets `failed`, and execution goes on as in a release build.
 */
module Membership {
  import opened Prelude
  import opened Lists

  datatype JoinState = Invited | Joined | Left

  datatype Member = Member(id: string, state: JoinState, time: int)

  datatype Change = Added(id: string) | Removed(id: string)

  datatype Event =
    | MemberEvent(user: string, membership: string, time: int)
    | Opens                              // the participants are set up for a room that may have members already

  datatype State = State(
    members: seq<Member>,
    open: bool,
    participants: seq<string>,
    announced: seq<Change>,              // `on_added` and `on_removed`
    failed: bool)

  const START := State([], false, [], [], false)

  /** What a membership means; an unknown one fails an assertion and then counts as a join. */
  function JoinStateOf(membership: string): JoinState {
    if membership == "leave" then Left else if membership == "invite" then Invited else Joined
  }

  predicate Known(membership: string) {
    membership in {"leave", "join", "invite"}
  }

  function Ids(list: seq<Member>): (keys: seq<string>)
    ensures |keys| == |list| && forall i :: 0 <= i < |keys| ==> keys[i] == list[i].id
  {
    seq(|list|, i requires 0 <= i < |list| => list[i].id)
  }

  function FindMember(members: seq<Member>, id: string): (i: nat)
    ensures i <= |members|
    ensures forall k :: 0 <= k < i ==> members[k].id != id
    ensures i < |members| ==> members[i].id == id
  {
    Find(Ids(members), id)
  }

  /** `participants::add` */
  function Add(s: State, id: string): State {
    s.(participants := s.participants + [id],
       announced := s.announced + [Added(id)],
       failed := s.failed || id in s.participants)
  }

  /** `participants::remove_by_id` */
  function RemoveById(s: State, id: string): State {
    if id in s.participants then
      s.(participants := Without(s.participants, id), announced := s.announced + [Removed(id)])
    else s.(failed := true)
  }

  /** `participants::on_join_state_changed` */
  function OnChanged(s: State, member: Member): State {
    if !s.open then s
    else match member.state
      case Joined => Add(s, member.id)
      case Left => RemoveById(s, member.id)
      case Invited => s
  }

  /** Whether `set_join_state` takes a change. */
  predicate Accepts(member: Member, state: JoinState, time: int) {
    member.state != state && member.time <= time
  }

  /** The members with one's new state recorded, if it is taken. */
  function Recorded(members: seq<Member>, m: Member): seq<Member> {
    var i := FindMember(members, m.id);
    if i == |members| then members + [m]
    else if Accepts(members[i], m.state, m.time) then members[i := m]
    else members
  }

  /** `on_event_m_room_member` */
  function OnMember(s: State, m: Member): State {
    var i, t := FindMember(s.members, m.id), s.(members := Recorded(s.members, m));
    if i == |s.members| then if s.open && m.state == Joined then Add(t, m.id) else t
    else if Accepts(s.members[i], m.state, m.time) then OnChanged(t, m)
    else s
  }

  /** The joined ones of some members are added. */
  function AddJoined(s: State, members: seq<Member>): State
    decreases members
  {
    if members == [] then s
    else AddJoined(if members[0].state == Joined then Add(s, members[0].id) else s, members[1..])
  }

  function Step(s: State, event: Event): State {
    match event
    case MemberEvent(user, membership, time) =>
      OnMember(s.(failed := s.failed || !Known(membership)), Member(user, JoinStateOf(membership), time))
    case Opens => if s.open then s else AddJoined(s, s.members).(open := true)
  }

  function Run(s: State, events: seq<Event>): State
    decreases events
  {
    if events == [] then s else Run(Step(s, events[0]), events[1..])
  }

  // ---------------------------------------------------------------- agreement

  ghost predicate DistinctMembers(members: seq<Member>) {
    forall i, j :: 0 <= i < j < |members| ==> members[i].id != members[j].id
  }

  predicate IsJoined(members: seq<Member>, id: string) {
    var i := FindMember(members, id);
    i < |members| && members[i].state == Joined
  }

  /** The participants are exactly the joined members, each once. */
  ghost predicate Agrees(s: State) {
    && Distinct(s.participants)
    && forall id :: id in s.participants <==> s.open && IsJoined(s.members, id)
  }

  ghost predicate Inv(s: State) {
    && DistinctMembers(s.members)
    && Replay([], s.announced) == s.participants
    && (!s.open ==> s.participants == [])
  }

  /** Doing what was announced, in order. */
  function Replay(ids: seq<string>, changes: seq<Change>): seq<string> {
    if changes == [] then ids
    else
      var last := changes[|changes| - 1];
      var before := Replay(ids, changes[..|changes| - 1]);
      if last.Added? then before + [last.id] else Without(before, last.id)
  }

  /** The state an accepted event takes a known member from. */
  function From(s: State, event: Event): Option<JoinState> {
    if event.Opens? then None
    else
      var i := FindMember(s.members, event.user);
      if i < |s.members| && Accepts(s.members[i], JoinStateOf(event.membership), event.time)
      then Some(s.members[i].state) else None
  }

  /** An accepted change from join to invite: nothing takes the participant away. */
  predicate Demotes(s: State, event: Event) {
    s.open && From(s, event) == Some(Joined) && event.MemberEvent? && JoinStateOf(event.membership) == Invited
  }

  /** An accepted change from invite to leave: there is no participant to remove. */
  predicate RemovesStranger(s: State, event: Event) {
    s.open && From(s, event) == Some(Invited) && event.MemberEvent? && JoinStateOf(event.membership) == Left
  }

  lemma FindAfterAppend(members: seq<Member>, m: Member, id: string)
    ensures FindMember(members + [m], id) ==
      if FindMember(members, id) < |members| then FindMember(members, id)
      else if m.id == id then |members| else |members| + 1
  {
    var r, f := members + [m], FindMember(members, id);
    assert forall k :: 0 <= k < |members| ==> r[k] == members[k];
    assert r[|members|] == m && (f < |members| ==> r[f].id == id);
  }

  lemma FindAfterReplace(members: seq<Member>, i: nat, m: Member, id: string)
    requires i < |members| && members[i].id == m.id
    ensures FindMember(members[i := m], id) == FindMember(members, id)
  {
    var r := members[i := m];
    assert forall k :: 0 <= k < |members| ==> r[k].id == members[k].id;
  }

  lemma OnMemberRecords(s: State, m: Member)
    ensures OnMember(s, m).members == Recorded(s.members, m)
  {
  }

  lemma RecordedJoined(members: seq<Member>, m: Member, id: string)
    ensures var i := FindMember(members, id);
      IsJoined(Recorded(members, m), id) ==
        if id == m.id && (i == |members| || Accepts(members[i], m.state, m.time)) then m.state == Joined
        else IsJoined(members, id)
  {
    var i := FindMember(members, m.id);
    FindAfterAppend(members, m, id);
    if i < |members| { FindAfterReplace(members, i, m, id); }
  }

  function RecordOf(event: Event): Member
    requires event.MemberEvent?
  {
    Member(event.user, JoinStateOf(event.membership), event.time)
  }

  /** Who has joined after a member event. */
  lemma JoinedAfter(s: State, event: Event, id: string)
    requires event.MemberEvent?
    ensures IsJoined(Step(s, event).members, id) ==
      if id == event.user && (FindMember(s.members, id) == |s.members| || From(s, event).Some?)
      then JoinStateOf(event.membership) == Joined
      else IsJoined(s.members, id)
  {
    OnMemberRecords(s.(failed := s.failed || !Known(event.membership)), RecordOf(event));
    RecordedJoined(s.members, RecordOf(event), id);
  }

  /** What a member event does to the participants of a room that is in agreement. */
  lemma ParticipantsAfter(s: State, event: Event)
    requires Agrees(s) && s.open && event.MemberEvent?
    ensures var t, state, here := Step(s, event), JoinStateOf(event.membership), IsJoined(s.members, event.user);
      var taken := FindMember(s.members, event.user) == |s.members| || From(s, event).Some?;
      && t.participants == (if taken && state == Joined then s.participants + [event.user]
                            else if taken && state == Left then Without(s.participants, event.user) else s.participants)
      && (taken && state == Joined ==> !here)
      && t.failed == (s.failed || !Known(event.membership) || RemovesStranger(s, event))
  {
    assert event.user in s.participants <==> IsJoined(s.members, event.user);
  }

  lemma MemberEventAgrees(s: State, event: Event)
    requires Agrees(s) && s.open && event.MemberEvent?
    ensures Agrees(Step(s, event)) <==> !Demotes(s, event)
  {
    var t, state := Step(s, event), JoinStateOf(event.membership);
    ParticipantsAfter(s, event);
    JoinedAfter(s, event, event.user);
    assert event.user in s.participants <==> IsJoined(s.members, event.user);
    WithoutDistinct(s.participants, event.user);
    if !Demotes(s, event) {
      forall id ensures id in t.participants <==> IsJoined(t.members, id) {
        JoinedAfter(s, event, id);
        assert id in s.participants <==> IsJoined(s.members, id);
      }
    }
  }

  lemma {:induction false} AddJoinedIs(s: State, members: seq<Member>)
    requires DistinctMembers(members) && Distinct(s.participants)
    requires forall i :: 0 <= i < |members| ==> members[i].id !in s.participants
    ensures var t := AddJoined(s, members);
      && t.members == s.members && t.failed == s.failed && t.open == s.open && Distinct(t.participants)
      && forall id :: id in t.participants <==> id in s.participants || IsJoined(members, id)
    decreases members
  {
    if members != [] {
      var m, rest := members[0], members[1..];
      var t := if m.state == Joined then Add(s, m.id) else s;
      AddJoinedIs(t, rest);
      forall id ensures IsJoined(members, id) == if id == m.id then m.state == Joined else IsJoined(rest, id) {
        assert FindMember(members, id) == if m.id == id then 0 else 1 + FindMember(rest, id);
      }
      assert !IsJoined(rest, m.id);
    }
  }

  lemma OpensAgrees(s: State)
    requires Inv(s) && Agrees(s)
    ensures Agrees(Step(s, Opens)) && Step(s, Opens).failed == s.failed
  {
    if !s.open { AddJoinedIs(s, s.members); }
  }

  /** Each event keeps the agreement unless it takes a joined member back to an invitation; and exactly an unknown
      membership and the leave of someone only invited fail an assertion. */
  lemma StepAgrees(s: State, event: Event)
    requires Inv(s) && Agrees(s)
    ensures Agrees(Step(s, event)) <==> !Demotes(s, event)
    ensures Step(s, event).failed <==>
      s.failed || (event.MemberEvent? && !Known(event.membership)) || RemovesStranger(s, event)
  {
    if event.Opens? {
      OpensAgrees(s);
    } else if s.open {
      ParticipantsAfter(s, event);
      MemberEventAgrees(s, event);
    }
  }

  // ---------------------------------------------------------------- announcements

  lemma AddKeepsReplay(s: State, id: string)
    requires Replay([], s.announced) == s.participants
    ensures Replay([], Add(s, id).announced) == Add(s, id).participants
  {
    var t := Add(s, id);
    assert t.announced[..|s.announced|] == s.announced;
  }

  lemma RemoveKeepsReplay(s: State, id: string)
    requires Replay([], s.announced) == s.participants
    ensures Replay([], RemoveById(s, id).announced) == RemoveById(s, id).participants
  {
    var t := RemoveById(s, id);
    if id in s.participants { assert t.announced[..|s.announced|] == s.announced; }
  }

  lemma {:induction false} AddJoinedKeepsReplay(s: State, members: seq<Member>)
    requires Replay([], s.announced) == s.participants
    ensures Replay([], AddJoined(s, members).announced) == AddJoined(s, members).participants
    ensures AddJoined(s, members).members == s.members
    decreases members
  {
    if members != [] {
      AddKeepsReplay(s, members[0].id);
      AddJoinedKeepsReplay(if members[0].state == Joined then Add(s, members[0].id) else s, members[1..]);
    }
  }

  lemma OnMemberKeepsReplay(s: State, m: Member)
    requires Replay([], s.announced) == s.participants && (!s.open ==> s.participants == [])
    ensures var t := OnMember(s, m);
      t.open == s.open && Replay([], t.announced) == t.participants && (!t.open ==> t.participants == [])
  {
    var t := s.(members := Recorded(s.members, m));
    AddKeepsReplay(t, m.id);
    RemoveKeepsReplay(t, m.id);
  }

  lemma StepKeepsInv(s: State, event: Event)
    requires Inv(s)
    ensures Inv(Step(s, event))
  {
    match event
    case Opens => AddJoinedKeepsReplay(s, s.members);
    case MemberEvent(user, membership, time) =>
      var t := s.(failed := s.failed || !Known(membership));
      OnMemberKeepsReplay(t, RecordOf(event));
      OnMemberRecords(t, RecordOf(event));
  }

  /** At every point of every run, replaying the announcements rebuilds the list of participants. */
  lemma {:induction false} AnnouncementsRebuildTheList(s: State, events: seq<Event>)
    requires Inv(s)
    ensures Inv(Run(s, events)) && Replay([], Run(s, events).announced) == Run(s, events).participants
    decreases events
  {
    if events != [] {
      StepKeepsInv(s, events[0]);
      AnnouncementsRebuildTheList(Step(s, events[0]), events[1..]);
    }
  }

  // ---------------------------------------------------------------- whole runs

  ghost predicate AgreesThroughout(s: State, events: seq<Event>)
    decreases events
  {
    Agrees(s) && (events != [] ==> AgreesThroughout(Step(s, events[0]), events[1..]))
  }

  predicate NeverDemotes(s: State, events: seq<Event>)
    decreases events
  {
    events != [] ==> !Demotes(s, events[0]) && NeverDemotes(Step(s, events[0]), events[1..])
  }

  /** In any run, the participants are at every point exactly the joined members, if and only if no accepted event takes
      a member from join to invite. */
  lemma {:induction false} ParticipantsAreTheJoined(s: State, events: seq<Event>)
    requires Inv(s) && Agrees(s)
    ensures AgreesThroughout(s, events) <==> NeverDemotes(s, events)
    decreases events
  {
    if events != [] {
      StepAgrees(s, events[0]);
      StepKeepsInv(s, events[0]);
      if !Demotes(s, events[0]) { ParticipantsAreTheJoined(Step(s, events[0]), events[1..]); }
    }
  }

  /** ... and so in every run of a room from its start. */
  lemma RoomsAgree(events: seq<Event>)
    ensures AgreesThroughout(START, events) <==> NeverDemotes(START, events)
  {
    ParticipantsAreTheJoined(START, events);
  }

  /** A member who is invited anew stays listed, and joining once more trips the assertion against listing one twice. */
  lemma ReinvitedExample()
    ensures var a, b, c := MemberEvent("u", "join", 1), MemberEvent("u", "invite", 2), MemberEvent("u", "join", 3);
      var s := Run(START, [Opens, a, b, c]); s.failed && s.participants == ["u", "u"]
  {
    var a, b, c := MemberEvent("u", "join", 1), MemberEvent("u", "invite", 2), MemberEvent("u", "join", 3);
    var s1 := Step(START, Opens);
    var s2 := Step(s1, a);
    assert s2.members == [Member("u", Joined, 1)] && s2.participants == ["u"];
    var s3 := Step(s2, b);
    assert s3.members == [Member("u", Invited, 2)] && s3.participants == ["u"];
    assert [Opens, a, b, c][1..] == [a, b, c] && [a, b, c][1..] == [b, c] && [b, c][1..] == [c] && [c][1..] == [];
    assert Run(START, [Opens, a, b, c]) == Run(s1, [a, b, c]) == Run(s2, [b, c]) == Run(s3, [c]) == Step(s3, c);
  }

  // ---------------------------------------------------------------- which event counts

  /** What `set_join_state` makes of a member's record. */
  function SetJoinState(m: Member, event: Member): Member {
    if Accepts(m, event.state, event.time) then m.(state := event.state, time := event.time) else m
  }

  /** What last-writer-wins would make of it. */
  function Latest(m: Member, event: Member): Member {
    if m.time <= event.time then m.(state := event.state, time := event.time) else m
  }

  function SetByAll(m: Member, events: seq<Member>): Member {
    if events == [] then m else SetJoinState(SetByAll(m, events[..|events| - 1]), events[|events| - 1])
  }

  function LatestOfAll(m: Member, events: seq<Member>): Member {
    if events == [] then m else Latest(LatestOfAll(m, events[..|events| - 1]), events[|events| - 1])
  }

  /** The last-writer-wins record is the last of the latest events, or the old record if that is newer than all. */
  lemma {:induction false} LatestOfAllIs(m: Member, events: seq<Member>)
    ensures var r := LatestOfAll(m, events);
      && m.time <= r.time && (forall i :: 0 <= i < |events| ==> events[i].time <= r.time)
      && (r == m || exists i :: LastLatest(events, r, i))
  {
    if events != [] {
      var n := |events| - 1;
      var rest, r := events[..n], LatestOfAll(m, events);
      LatestOfAllIs(m, rest);
      var before := LatestOfAll(m, rest);
      if before.time <= events[n].time {
        assert LastLatest(events, r, n);
      } else if r != m {
        var i :| LastLatest(rest, r, i);
        assert LastLatest(events, r, i);
      }
    }
  }

  ghost predicate LastLatest(events: seq<Member>, r: Member, i: int) {
    && 0 <= i < |events| && r.state == events[i].state && r.time == events[i].time
    && forall j :: i < j < |events| ==> events[j].time < r.time
  }

  /** A newer event that repeats the state: its timestamp is not taken. */
  predicate Refreshes(m: Member, event: Member) {
    event.state == m.state && m.time < event.time
  }

  predicate NeverRefreshed(m: Member, events: seq<Member>) {
    events != [] ==>
      var n := |events| - 1;
      NeverRefreshed(m, events[..n]) && !Refreshes(SetByAll(m, events[..n]), events[n])
  }

  /** The record is the latest event's at every point exactly if no newer event ever repeats the state. */
  lemma {:induction false} RecordIsTheLatest(m: Member, events: seq<Member>)
    ensures NeverRefreshed(m, events) <==>
      forall n :: 0 <= n <= |events| ==> SetByAll(m, events[..n]) == LatestOfAll(m, events[..n])
  {
    if events == [] {
      assert events[..0] == [];
    } else {
      var last := |events| - 1;
      RecordIsTheLatest(m, events[..last]);
      assert events[..last + 1] == events;
      assert forall n :: 0 <= n <= last ==> events[..last][..n] == events[..n];
      assert events[..last][..last] == events[..last];
    }
  }

  /** Delivered in the order of their timestamps, the last event decides all the same. */
  lemma {:induction false} SortedDeliveries(m: Member, events: seq<Member>)
    requires forall i :: 0 <= i < |events| ==> m.time <= events[i].time
    requires forall i, j :: 0 <= i < j < |events| ==> events[i].time <= events[j].time
    ensures var r := SetByAll(m, events);
      if events == [] then r == m else r.state == events[|events| - 1].state && r.time <= events[|events| - 1].time
  {
    if events != [] { SortedDeliveries(m, events[..|events| - 1]); }
  }

  /** Otherwise the same events can leave different states: an event that repeats the state hides its own time. */
  lemma OrderMattersExample()
    ensures var a, b, c := Member("u", Joined, 1), Member("u", Joined, 5), Member("u", Left, 3);
      SetByAll(a, [b, c]) == c && SetByAll(b, [a, c]) == b
  {
    var a, b, c := Member("u", Joined, 1), Member("u", Joined, 5), Member("u", Left, 3);
    assert [b, c][..1] == [b] && [a, c][..1] == [a] && [b][..0] == [] && [a][..0] == [];
    assert SetByAll(a, []) == a && SetByAll(a, [b]) == a && SetByAll(b, []) == b && SetByAll(b, [a]) == b;
  }

  /** The events about one member, as records. */
  function About(events: seq<Event>, id: string): seq<Member> {
    if events == [] then []
    else
      var n := |events| - 1;
      var rest := About(events[..n], id);
      if events[n].MemberEvent? && events[n].user == id then rest + [RecordOf(events[n])] else rest
  }

  lemma MemberAfter(s: State, event: Event, i: nat)
    requires Inv(s) && i < |s.members|
    ensures var t, m := Step(s, event), s.members[i];
      && i < |t.members|
      && t.members[i] == if event.MemberEvent? && event.user == m.id then SetJoinState(m, RecordOf(event)) else m
  {
    if event.MemberEvent? {
      OnMemberRecords(s.(failed := s.failed || !Known(event.membership)), RecordOf(event));
      if event.user == s.members[i].id { assert FindMember(s.members, event.user) == i; }
    } else {
      AddJoinedKeepsReplay(s, s.members);
    }
  }

  lemma {:induction false} RunLast(s: State, events: seq<Event>)
    requires events != []
    ensures Run(s, events) == Step(Run(s, events[..|events| - 1]), events[|events| - 1])
    decreases events
  {
    if |events| > 1 {
      RunLast(Step(s, events[0]), events[1..]);
      assert events[1..][..|events| - 2] == events[..|events| - 1][1..];
    } else {
      assert events[..0] == [] && events[1..] == [];
      assert Run(s, events) == Run(Step(s, events[0]), []);
    }
  }

  /** In a run, a member's record is what `set_join_state` makes of the events about that member. */
  lemma {:induction false} RecordInARun(s: State, events: seq<Event>, i: nat)
    requires Inv(s) && i < |s.members|
    ensures var t := Run(s, events);
      i < |t.members| && t.members[i] == SetByAll(s.members[i], About(events, s.members[i].id))
    ensures Run(s, events).members[i].id == s.members[i].id
    decreases |events|
  {
    if events != [] {
      var n, id := |events| - 1, s.members[i].id;
      var rest := events[..n];
      RecordInARun(s, rest, i);
      RunLast(s, events);
      AnnouncementsRebuildTheList(s, rest);
      MemberAfter(Run(s, rest), events[n], i);
      if events[n].MemberEvent? && events[n].user == id {
        assert About(events, id)[..|About(rest, id)|] == About(rest, id);
      }
    }
  }

  // ---------------------------------------------------------------- in the words of the events

  datatype Word = Word(text: string, time: int)

  /** A membership that is none of the three known ones counts as a join. */
  function TextOf(membership: string): string {
    if Known(membership) then membership else "join"
  }

  predicate Says(event: Event, id: string) {
    event.MemberEvent? && event.user == id
  }

  /** The last accepted word about a member: one is accepted if it differs from the word before and is not older. */
  function LastWord(events: seq<Event>, id: string): Option<Word> {
    if events == [] then None
    else
      var n := |events| - 1;
      var before := LastWord(events[..n], id);
      if Says(events[n], id) && IsNews(before, events[n]) then
        Some(Word(TextOf(events[n].membership), events[n].time))
      else before
  }

  predicate IsNews(before: Option<Word>, event: Event)
    requires event.MemberEvent?
  {
    before.Some? ==> TextOf(event.membership) != before.value.text && before.value.time <= event.time
  }

  predicate LastSaid(events: seq<Event>, id: string, text: string) {
    var word := LastWord(events, id);
    word.Some? && word.value.text == text
  }

  function RecordAbout(members: seq<Member>, id: string): Option<Member> {
    var i := FindMember(members, id);
    if i < |members| then Some(members[i]) else None
  }

  /** A record says what a word says. */
  predicate Tells(record: Option<Member>, word: Option<Word>) {
    && (record.Some? <==> word.Some?)
    && (record.Some? ==>
          && record.value.time == word.value.time
          && (record.value.state == Joined <==> word.value.text == "join")
          && (record.value.state == Left <==> word.value.text == "leave")
          && (record.value.state == Invited <==> word.value.text == "invite"))
  }

  lemma RecordAfter(members: seq<Member>, m: Member, id: string)
    ensures var before := RecordAbout(members, id);
      RecordAbout(Recorded(members, m), id) ==
        if m.id == id && (before.Some? ==> Accepts(before.value, m.state, m.time)) then Some(m) else before
  {
    FindAfterAppend(members, m, id);
    var i := FindMember(members, m.id);
    if i < |members| { FindAfterReplace(members, i, m, id); }
  }

  lemma StepOnMembers(s: State, event: Event)
    ensures Step(s, event).members == if event.MemberEvent? then Recorded(s.members, RecordOf(event)) else s.members
    ensures Step(s, event).open == (s.open || event.Opens?)
  {
    if event.MemberEvent? {
      OnMemberRecords(s.(failed := s.failed || !Known(event.membership)), RecordOf(event));
    } else {
      AddJoinedKeepsMembers(s, s.members);
    }
  }

  lemma {:induction false} AddJoinedKeepsMembers(s: State, members: seq<Member>)
    ensures AddJoined(s, members).members == s.members
    decreases members
  {
    if members != [] {
      AddJoinedKeepsMembers(if members[0].state == Joined then Add(s, members[0].id) else s, members[1..]);
    }
  }

  /** The room's record about a member tells the last accepted word about that member. */
  lemma {:induction false} RecordsTellTheLastWord(events: seq<Event>, id: string)
    ensures Tells(RecordAbout(Run(START, events).members, id), LastWord(events, id))
    ensures Run(START, events).open <==> Opens in events
  {
    if events != [] {
      var n := |events| - 1;
      var s := Run(START, events[..n]);
      RecordsTellTheLastWord(events[..n], id);
      RunLast(START, events);
      StepOnMembers(s, events[n]);
      assert Opens in events <==> Opens in events[..n] || events[n] == Opens;
      if events[n].MemberEvent? { RecordAfter(s.members, RecordOf(events[n]), id); }
    }
  }

  /** In those words a change from join to invite is an accepted "invite" after a "join". */
  lemma DemotingWords(before: seq<Event>, event: Event)
    ensures Demotes(Run(START, before), event) <==>
      && Opens in before && event.MemberEvent? && event.membership == "invite"
      && LastSaid(before, event.user, "join") && IsNews(LastWord(before, event.user), event)
  {
    if event.MemberEvent? { RecordsTellTheLastWord(before, event.user); }
    RecordsTellTheLastWord(before, "");
  }

  lemma {:induction false} AgreesAfterwards(s: State, events: seq<Event>)
    requires AgreesThroughout(s, events)
    ensures Agrees(Run(s, events))
    decreases events
  {
    if events != [] { AgreesAfterwards(Step(s, events[0]), events[1..]); }
  }

  /** In every run that demotes nobody the participants are those whose last accepted word is "join", each once. */
  lemma ParticipantsSaidJoin(events: seq<Event>)
    requires NeverDemotes(START, events) && Opens in events
    ensures var s := Run(START, events);
      Distinct(s.participants) && forall id :: id in s.participants <==> LastSaid(events, id, "join")
  {
    var s := Run(START, events);
    RoomsAgree(events);
    AgreesAfterwards(START, events);
    forall id ensures id in s.participants <==> LastSaid(events, id, "join") {
      RecordsTellTheLastWord(events, id);
      assert IsJoined(s.members, id) == (RecordAbout(s.members, id).Some?
        && RecordAbout(s.members, id).value.state == Joined);
    }
  }

  /** What an event does to the list and announces: accepted, a "join" adds, a "leave" of a participant removes,
      and nothing else does anything. */
  lemma WordsChangeTheList(before: seq<Event>, event: Event)
    requires NeverDemotes(START, before) && Opens in before && event.MemberEvent?
    ensures var s, t, id := Run(START, before), Step(Run(START, before), event), event.user;
      var news := IsNews(LastWord(before, id), event);
      if news && TextOf(event.membership) == "join" then
        && id !in s.participants && t.participants == s.participants + [id]
        && t.announced == s.announced + [Added(id)]
      else if news && event.membership == "leave" && LastSaid(before, id, "join") then
        && id in s.participants && t.participants == Without(s.participants, id)
        && t.announced == s.announced + [Removed(id)]
      else t.participants == s.participants && t.announced == s.announced
  {
    RecordsTellTheLastWord(before, event.user);
    ParticipantsSaidJoin(before);
  }

  // ---------------------------------------------------------------- the room and its participants

  class RoomParticipants {
    var members: seq<Member>
    var open: bool
    var participants: seq<string>
    var announced: seq<Change>
    var failed: bool

    ghost function View(): State
      reads this
    {
      State(members, open, participants, announced, failed)
    }

    constructor ()
      ensures View() == START
    {
      members, open, participants, announced, failed := [], false, [], [], false;
    }

    method GetMemberById(id: string) returns (i: nat)
      ensures i == FindMember(members, id)
    {
      i := 0;
      while i < |members| && members[i].id != id
        invariant i <= |members| && forall k :: 0 <= k < i ==> members[k].id != id
      {
        i := i + 1;
      }
    }

    method FindParticipant(id: string) returns (i: nat)
      ensures i == Find(participants, id)
    {
      i := 0;
      while i < |participants| && participants[i] != id
        invariant i <= |participants| && forall k :: 0 <= k < i ==> participants[k] != id
      {
        i := i + 1;
      }
    }

    method AddParticipant(id: string)
      modifies this`participants, this`announced, this`failed
      ensures View() == Add(old(View()), id)
    {
      var i := FindParticipant(id);
      if i != |participants| { failed := true; }
      participants := participants + [id];
      announced := announced + [Added(participants[|participants| - 1])];
    }

    method RemoveParticipant(id: string)
      modifies this`participants, this`announced, this`failed
      ensures View() == RemoveById(old(View()), id)
    {
      var i := FindParticipant(id);
      if i == |participants| {
        failed := true;
        return;
      }
      participants := participants[..i] + participants[i + 1..];
      announced := announced + [Removed(id)];
    }

    method JoinStateChanged(member: Member)
      requires open
      modifies this`participants, this`announced, this`failed
      ensures View() == OnChanged(old(View()), member)
    {
      if member.state == Joined { AddParticipant(member.id); }
      if member.state == Left { RemoveParticipant(member.id); }
    }

    /** `room_participant::set_join_state` */
    method ChangeJoinState(i: nat, state: JoinState, time: int) returns (changed: bool)
      requires i < |members|
      modifies this`members
      ensures changed == Accepts(old(members)[i], state, time)
      ensures members == if changed then old(members)[i := Member(old(members)[i].id, state, time)] else old(members)
    {
      if members[i].state == state || time < members[i].time { return false; }
      members := members[i := members[i].(time := time, state := state)];
      return true;
    }

    /** `room::on_event_m_room_member` */
    method HandleMemberEvent(user: string, membership: string, time: int)
      modifies this
      ensures View() == Step(old(View()), MemberEvent(user, membership, time))
    {
      if !Known(membership) { failed := true; }
      var state := JoinStateOf(membership);
      var got := GetMemberById(user);
      if got < |members| {
        var changed := ChangeJoinState(got, state, time);
        if changed && open { JoinStateChanged(members[got]); }
        return;
      }
      members := members + [Member(user, state, time)];
      if open && state == Joined { AddParticipant(user); }
    }

    /** The constructor of the participants: those who have joined by now are listed. */
    method Open()
      requires !open
      modifies this
      ensures View() == Step(old(View()), Opens)
    {
      var i := 0;
      while i < |members|
        modifies this`participants, this`announced, this`failed
        invariant i <= |members| && AddJoined(View(), members[i..]) == AddJoined(old(View()), old(members))
      {
        if members[i].state == Joined { AddParticipant(members[i].id); }
        assert members[i..][1..] == members[i + 1..];
        i := i + 1;
      }
      open := true;
    }
  }
}
