/**
 Two clients that follow one room's log: what they handed on, and so what they hold and list.

 The log's entries are the room's events. A client's sync says which of them it handed on, and in which order; its
 custom state and its members are folds over those. Its participants are set up at some point of that.
 */
module OneLog {
  import opened Prelude
  import MatrixSync
  import RoomStates
  import Membership

  datatype Entry =
    | CustomState(event: RoomStates.Event)
    | MemberState(user: string, membership: string, time: int)
    | Other

  /** The entries at some positions of the log. */
  function Handed(log: seq<Entry>, positions: seq<nat>): (entries: seq<Entry>)
    requires forall i :: 0 <= i < |positions| ==> positions[i] < |log|
    ensures |entries| == |positions| && forall i :: 0 <= i < |entries| ==> entries[i] == log[positions[i]]
  {
    seq(|positions|, i requires 0 <= i < |positions| => log[positions[i]])
  }

  function Customs(entries: seq<Entry>): seq<RoomStates.Event> {
    if entries == [] then []
    else (if entries[0].CustomState? then [entries[0].event] else []) + Customs(entries[1..])
  }

  function Members(entries: seq<Entry>): (events: seq<Membership.Event>)
    ensures forall i :: 0 <= i < |events| ==> events[i].MemberEvent?
  {
    if entries == [] then []
    else
      var e := entries[0];
      (if e.MemberState? then [Membership.MemberEvent(e.user, e.membership, e.time)] else []) + Members(entries[1..])
  }

  /** Each entry goes to its one fold, in order. */
  lemma {:induction false} EntriesInOrder(entries: seq<Entry>, e: Entry)
    ensures Customs(entries + [e]) == Customs(entries) + if e.CustomState? then [e.event] else []
    ensures Members(entries + [e]) ==
      Members(entries) +
        if e.MemberState? then [Membership.MemberEvent(e.user, e.membership, e.time)] else []
    decreases entries
  {
    var all := entries + [e];
    if entries == [] {
      assert all[1..] == [];
    } else {
      EntriesInOrder(entries[1..], e);
      assert all[0] == entries[0] && all[1..] == entries[1..] + [e];
    }
  }

  /** The events of a client whose participants are set up after some of the member events. */
  function Opened(members: seq<Membership.Event>, at: nat): seq<Membership.Event>
    requires at <= |members|
  {
    members[..at] + [Membership.Opens] + members[at..]
  }

  /** A run of a client's sync that has caught up with the log and lost nothing of it. */
  ghost predicate CaughtUp(sync: seq<MatrixSync.Event>, log: seq<Entry>) {
    var s := MatrixSync.Run(MatrixSync.START, sync).log;
    s.length == |log| && MatrixSync.Cursor(s) == |log| && MatrixSync.NeverLoses(MatrixSync.START, sync)
  }

  function HandedOn(sync: seq<MatrixSync.Event>, log: seq<Entry>): seq<Entry>
    requires CaughtUp(sync, log)
  {
    AppliedIsAll(sync, log);
    Handed(log, MatrixSync.Run(MatrixSync.START, sync).log.applied)
  }

  lemma AppliedIsAll(sync: seq<MatrixSync.Event>, log: seq<Entry>)
    requires CaughtUp(sync, log)
    ensures MatrixSync.Run(MatrixSync.START, sync).log.applied == MatrixSync.Range(0, |log|)
  {
    MatrixSync.LogIsFollowed(sync);
  }

  /** Such a client has handed on the log, whatever requests failed and were retried. */
  lemma HandsOnTheLog(sync: seq<MatrixSync.Event>, log: seq<Entry>)
    requires CaughtUp(sync, log)
    ensures HandedOn(sync, log) == log
  {
    AppliedIsAll(sync, log);
  }

  // ---------------------------------------------------------------- members

  /** A member event changes the members alike, whether or not the participants are set up. */
  lemma MembersAlike(s: Membership.State, t: Membership.State, event: Membership.Event)
    requires s.members == t.members && event.MemberEvent?
    ensures Membership.Step(s, event).members == Membership.Step(t, event).members
  {
    var m := Membership.RecordOf(event);
    var known := Membership.Known(event.membership);
    Membership.OnMemberRecords(s.(failed := s.failed || !known), m);
    Membership.OnMemberRecords(t.(failed := t.failed || !known), m);
  }

  lemma {:induction false} RunMembersAlike(s: Membership.State, t: Membership.State, events: seq<Membership.Event>)
    requires s.members == t.members && forall i :: 0 <= i < |events| ==> events[i].MemberEvent?
    ensures Membership.Run(s, events).members == Membership.Run(t, events).members
    decreases events
  {
    if events != [] {
      MembersAlike(s, t, events[0]);
      RunMembersAlike(Membership.Step(s, events[0]), Membership.Step(t, events[0]), events[1..]);
    }
  }

  lemma {:induction false} RunConcat(s: Membership.State, a: seq<Membership.Event>, b: seq<Membership.Event>)
    ensures Membership.Run(s, a + b) == Membership.Run(Membership.Run(s, a), b)
    decreases a
  {
    if a == [] {
      assert a + b == b;
    } else {
      assert (a + b)[0] == a[0] && (a + b)[1..] == a[1..] + b;
      RunConcat(Membership.Step(s, a[0]), a[1..], b);
    }
  }

  lemma {:induction false} StaysOpen(s: Membership.State, events: seq<Membership.Event>)
    requires s.open && forall i :: 0 <= i < |events| ==> events[i].MemberEvent?
    ensures Membership.Run(s, events).open
    decreases events
  {
    if events != [] { StaysOpen(Membership.Step(s, events[0]), events[1..]); }
  }

  lemma OpeningKeepsMembers(s: Membership.State)
    ensures Membership.Step(s, Membership.Opens).members == s.members && Membership.Step(s, Membership.Opens).open
  {
    Membership.AddJoinedKeepsMembers(s, s.members);
  }

  /** When the participants are set up makes no difference to the members. */
  lemma OpenedRun(members: seq<Membership.Event>, at: nat)
    requires at <= |members| && forall i :: 0 <= i < |members| ==> members[i].MemberEvent?
    ensures var s := Membership.Run(Membership.START, Opened(members, at));
      s.open && s.members == Membership.Run(Membership.START, members).members
  {
    var front, back := members[..at], members[at..];
    var s := Membership.Run(Membership.START, front);
    var t := Membership.Step(s, Membership.Opens);
    assert Opened(members, at) == front + ([Membership.Opens] + back);
    RunConcat(Membership.START, front, [Membership.Opens] + back);
    assert ([Membership.Opens] + back)[1..] == back;
    assert members == front + back;
    RunConcat(Membership.START, front, back);
    OpeningKeepsMembers(s);
    StaysOpen(t, back);
    RunMembersAlike(s, t, back);
  }

  lemma {:induction false} AgreesAtTheEnd(s: Membership.State, events: seq<Membership.Event>)
    requires Membership.AgreesThroughout(s, events)
    ensures Membership.Agrees(Membership.Run(s, events))
    decreases events
  {
    if events != [] { AgreesAtTheEnd(Membership.Step(s, events[0]), events[1..]); }
  }

  /** Without an accepted change from join to invite, the participants are those the members of the whole log say. */
  lemma ListedByTheLog(members: seq<Membership.Event>, at: nat)
    requires at <= |members| && forall i :: 0 <= i < |members| ==> members[i].MemberEvent?
    requires Membership.NeverDemotes(Membership.START, Opened(members, at))
    ensures var s := Membership.Run(Membership.START, Opened(members, at));
      && Membership.Agrees(s)
      && forall id :: id in s.participants <==>
           Membership.IsJoined(Membership.Run(Membership.START, members).members, id)
  {
    Membership.RoomsAgree(Opened(members, at));
    AgreesAtTheEnd(Membership.START, Opened(members, at));
    OpenedRun(members, at);
  }

  // ---------------------------------------------------------------- two clients

  /** Two clients that have caught up with one log and lost nothing, however their requests failed, were cut and
      retried, hold the same custom state. */
  lemma ClientsHoldTheSame(log: seq<Entry>, a: seq<MatrixSync.Event>, b: seq<MatrixSync.Event>)
    requires CaughtUp(a, log) && CaughtUp(b, log)
    ensures RoomStates.OnEvents(RoomStates.START, Customs(HandedOn(a, log)))
         == RoomStates.OnEvents(RoomStates.START, Customs(HandedOn(b, log)))
  {
    HandsOnTheLog(a, log);
    HandsOnTheLog(b, log);
  }

  /** If no change from join to invite was accepted after either set up its participants, whenever that was, they also
      list the same participants, each once. */
  lemma ClientsListTheSame(log: seq<Entry>, a: seq<MatrixSync.Event>, b: seq<MatrixSync.Event>, atA: nat, atB: nat)
    requires CaughtUp(a, log) && CaughtUp(b, log)
    requires atA <= |Members(HandedOn(a, log))| && atB <= |Members(HandedOn(b, log))|
    requires Membership.NeverDemotes(Membership.START, Opened(Members(HandedOn(a, log)), atA))
    requires Membership.NeverDemotes(Membership.START, Opened(Members(HandedOn(b, log)), atB))
    ensures var s := Membership.Run(Membership.START, Opened(Members(HandedOn(a, log)), atA));
      var t := Membership.Run(Membership.START, Opened(Members(HandedOn(b, log)), atB));
      && Membership.Agrees(s) && Membership.Agrees(t) && s.members == t.members
      && forall id :: id in s.participants <==> id in t.participants
  {
    HandsOnTheLog(a, log);
    HandsOnTheLog(b, log);
    OpenedRun(Members(log), atA);
    OpenedRun(Members(log), atB);
    ListedByTheLog(Members(log), atA);
    ListedByTheLog(Members(log), atB);
  }
}
