/**
 A Matrix client following a room's log, and the synchronizer that restarts it.

 The server's log only grows; a sync token is a position in it. A response holds the events from the token its own
 request carried up to some later position, wherever the client has got to meanwhile. Requests and the retry timer
 complete later, as events, and any of the requests that are out may complete; a continuation runs inline where its
 promise is set. A failed assertion sets `failed` and nothing happens after that event.
 */
module MatrixSync {
  import opened Prelude

  datatype Failure = Aborted | OtherError

  /** What the handlers of `on_sync` do with a batch: they may stop the sync, and may throw after some events. */
  datatype Handling = Handling(stops: bool, thrown: Option<(nat, Failure)>)

  datatype Result = Response(upto: nat, handling: Handling) | Error(failure: Failure)

  datatype Event =
    | Sets                               // the synchronizer is given the client
    | Appends                            // the server's log grows by one
    | Completes(request: nat, result: Result)   // one of the requests that are out
    | TimerFires
    | Stops                              // `stop_sync` from outside

  /** What the client has seen of the log: positions handed on, and lost to a throwing handler. */
  datatype Log = Log(length: nat, nextBatch: Option<nat>, applied: seq<nat>, missed: seq<nat>)

  datatype State = State(
    log: Log,
    active: bool, promise: bool,
    action: bool,                        // `http_sync_action` is set
    requests: seq<nat>,                  // the requests that are out: the positions they asked from
    held: bool, timer: bool,             // the synchronizer's `client_` and retry timer
    failed: bool)

  const START := State(Log(0, None, [], []), false, false, false, [], false, false, false)

  function Cursor(log: Log): nat {
    if log.nextBatch.Some? then log.nextBatch.value else 0
  }

  function Range(a: nat, b: nat): (r: seq<nat>)
    ensures |r| == if a < b then b - a else 0
    ensures forall i :: 0 <= i < |r| ==> r[i] == a + i
  {
    if a < b then seq(b - a, i => a + i) else []
  }

  // ---------------------------------------------------------------- the client and its synchronizer

  function DoSync(s: State): State {
    if s.action then s.(failed := true) else s.(action := true, requests := s.requests + [Cursor(s.log)])
  }

  function SyncTillStop(s: State): State {
    if s.action || s.promise || s.active then s.(failed := true)
    else DoSync(s.(active := true, promise := true))
  }

  /** The synchronizer's continuation: nothing thrown, or what was. */
  function OnStopped(s: State, thrown: Option<Failure>): State {
    match thrown
    case None => s.(held := false)
    case Some(Aborted) => s.(held := false, failed := true)
    case Some(OtherError) => s.(timer := true)
  }

  /** Where a response ends: at the request's own position or later, and within the log. */
  function EndOf(log: Log, since: nat, upto: nat): nat {
    var end := if log.length < upto then log.length else upto;
    if end < since then since else end
  }

  /** How far the handlers got with it. */
  function Reached(since: nat, end: nat, handling: Handling): nat {
    if handling.thrown.None? || end < since + handling.thrown.value.0 then end else since + handling.thrown.value.0
  }

  /** `on_synced`, with the response to a request from `since`. */
  function Delivered(log: Log, since: nat, upto: nat, handling: Handling): Log {
    var end := EndOf(log, since, upto);
    var reached := Reached(since, end, handling);
    Log(log.length, Some(end), log.applied + Range(since, reached), log.missed + Range(reached, end))
  }

  function GiveUp(s: State, failure: Failure): State {
    OnStopped(s, Some(failure)).(promise := false, active := false, action := false)
  }

  /** `on_sync_till_stop`, for a request from `since`. */
  function OnSyncTillStop(s: State, since: nat, result: Result): State {
    if !s.active then OnStopped(s.(promise := false), None)
    else match result
      case Error(failure) => GiveUp(s, failure)
      case Response(upto, handling) =>
        var t := s.(log := Delivered(s.log, since, upto, handling), action := false, active := !handling.stops);
        if handling.thrown.Some? then GiveUp(t, handling.thrown.value.1) else DoSync(t)
  }

  /** The requests without one of them. */
  function Without(requests: seq<nat>, i: nat): seq<nat>
    requires i < |requests|
  {
    requests[..i] + requests[i + 1..]
  }

  function Completed(s: State, i: nat, result: Result): State
    requires i < |s.requests|
  {
    OnSyncTillStop(s.(requests := Without(s.requests, i)), s.requests[i], result)
  }

  function Step(s: State, event: Event): State {
    if s.failed then s
    else match event
      case Sets => if s.held then s.(failed := true) else SyncTillStop(s.(held := true))
      case Appends => s.(log := s.log.(length := s.log.length + 1))
      case TimerFires => if s.timer && s.held then SyncTillStop(s.(timer := false)) else s
      case Stops => s.(active := false)
      case Completes(i, result) => if i < |s.requests| then Completed(s, i, result) else s
  }

  function Run(s: State, events: seq<Event>): State
    decreases events
  {
    if events == [] then s else Run(Step(s, events[0]), events[1..])
  }

  // ---------------------------------------------------------------- invariant

  /** The log up to the cursor: every position was handed on in order, or missed; none twice. */
  ghost predicate LogInv(log: Log) {
    && Cursor(log) <= log.length
    && multiset(log.applied) + multiset(log.missed) == multiset(Range(0, Cursor(log)))
    && (forall i, j :: 0 <= i < j < |log.applied| ==> log.applied[i] < log.applied[j])
    && (log.missed == [] ==> log.applied == Range(0, Cursor(log)))
  }

  /** Who waits for what: while a promise is held exactly one request is out, and it asked from where the client is;
      the timer runs only between two syncs. */
  predicate ControlInv(s: State) {
    && s.requests == (if s.promise then [Cursor(s.log)] else [])
    && (s.promise ==> s.action && s.held)
    && (s.active ==> s.promise)
    && (s.timer ==> s.held && !s.promise && !s.action)
    && (s.held ==> s.promise || s.timer)
  }

  ghost predicate Inv(s: State) {
    LogInv(s.log) && (s.failed || ControlInv(s))
  }

  /** The assertions that fail: giving a client to a synchronizer that has one or that client once more
      after it was stopped, and an aborted request (or handler) that was not stopped before. */
  predicate Trips(s: State, event: Event) {
    match event
    case Sets => s.held || s.action
    case Completes(i, Error(failure)) => i < |s.requests| && s.active && failure.Aborted?
    case Completes(i, Response(_, handling)) =>
      i < |s.requests| && s.active && handling.thrown.Some? && handling.thrown.value.1.Aborted?
    case _ => false
  }

  lemma RangeSplits(a: nat, b: nat, c: nat)
    requires a <= b <= c
    ensures Range(a, c) == Range(a, b) + Range(b, c)
  {
  }

  lemma InRange(a: nat, b: nat, x: nat)
    ensures x in multiset(Range(a, b)) <==> a <= x < b
  {
    if a <= x < b { assert Range(a, b)[x - a] == x; }
  }

  lemma DeliveredKeepsOrder(log: Log, upto: nat, handling: Handling)
    requires LogInv(log)
    ensures var applied := Delivered(log, Cursor(log), upto, handling).applied;
      forall i, j :: 0 <= i < j < |applied| ==> applied[i] < applied[j]
  {
    forall i | 0 <= i < |log.applied| ensures log.applied[i] < Cursor(log) {
      assert log.applied[i] in multiset(log.applied) + multiset(log.missed);
      InRange(0, Cursor(log), log.applied[i]);
    }
  }

  /** A response to a request from where the client is leaves no gap and repeats nothing. */
  lemma DeliveredKeepsLog(log: Log, upto: nat, handling: Handling)
    requires LogInv(log)
    ensures LogInv(Delivered(log, Cursor(log), upto, handling))
  {
    var since, end := Cursor(log), EndOf(log, Cursor(log), upto);
    var reached := Reached(since, end, handling);
    DeliveredKeepsOrder(log, upto, handling);
    RangeSplits(0, since, end);
    RangeSplits(since, reached, end);
    if reached == end { assert Range(reached, end) == []; }
  }

  /** Exactly those keep the log: a request from anywhere else skips something or repeats it. */
  lemma OnlyTheCursorFollows(log: Log, since: nat, upto: nat, handling: Handling)
    requires LogInv(log)
    ensures LogInv(Delivered(log, since, upto, handling)) <==> since == Cursor(log)
  {
    if since == Cursor(log) {
      DeliveredKeepsLog(log, upto, handling);
    } else {
      var d := Delivered(log, since, upto, handling);
      assert |multiset(log.applied) + multiset(log.missed)| == |multiset(Range(0, Cursor(log)))| == Cursor(log);
      assert |multiset(d.applied) + multiset(d.missed)| == Cursor(log) + Cursor(d) - since;
      assert |multiset(Range(0, Cursor(d)))| == Cursor(d);
    }
  }

  lemma CompletedOnLog(s: State, i: nat, result: Result)
    requires i < |s.requests|
    ensures Completed(s, i, result).log ==
      if s.active && result.Response? then Delivered(s.log, s.requests[i], result.upto, result.handling) else s.log
  {
  }

  /** Only a response to a client that is syncing hands anything on. */
  lemma StepOnLog(s: State, event: Event)
    ensures Step(s, event).log ==
      if s.failed then s.log
      else if event.Completes? && event.request < |s.requests| && event.result.Response? && s.active then
        Delivered(s.log, s.requests[event.request], event.result.upto, event.result.handling)
      else if event.Appends? then s.log.(length := s.log.length + 1)
      else s.log
  {
    if event.Completes? && event.request < |s.requests| { CompletedOnLog(s, event.request, event.result); }
  }

  lemma StepKeepsLog(s: State, event: Event)
    requires LogInv(s.log) && (s.failed || ControlInv(s))
    ensures LogInv(Step(s, event).log)
  {
    StepOnLog(s, event);
    if event.Completes? && event.result.Response? {
      DeliveredKeepsLog(s.log, event.result.upto, event.result.handling);
    }
  }

  lemma CompletionKeepsControl(s: State, result: Result)
    requires ControlInv(s) && !s.failed && |s.requests| > 0
    ensures Completed(s, 0, result).failed <==> Trips(s, Completes(0, result))
    ensures !Completed(s, 0, result).failed ==> ControlInv(Completed(s, 0, result))
  {
    assert Without(s.requests, 0) == [];
  }

  lemma StepKeepsControl(s: State, event: Event)
    requires ControlInv(s) && !s.failed
    ensures Step(s, event).failed <==> Trips(s, event)
    ensures !Step(s, event).failed ==> ControlInv(Step(s, event))
  {
    if event.Completes? && event.request < |s.requests| { CompletionKeepsControl(s, event.result); }
  }

  lemma StepKeepsInv(s: State, event: Event)
    requires Inv(s)
    ensures Inv(Step(s, event))
  {
    StepKeepsLog(s, event);
    if !s.failed { StepKeepsControl(s, event); }
  }

  lemma {:induction false} RunKeepsInv(s: State, events: seq<Event>)
    requires Inv(s)
    ensures Inv(Run(s, events))
    decreases events
  {
    if events != [] {
      StepKeepsInv(s, events[0]);
      RunKeepsInv(Step(s, events[0]), events[1..]);
    }
  }

  // ---------------------------------------------------------------- whole runs

  /** A handler throws before the last event of its response. */
  predicate Loses(s: State, event: Event) {
    && !s.failed && s.active && event.Completes? && event.request < |s.requests| && event.result.Response?
    && event.result.handling.thrown.Some?
    && s.requests[event.request] + event.result.handling.thrown.value.0
         < EndOf(s.log, s.requests[event.request], event.result.upto)
  }

  predicate NeverLoses(s: State, events: seq<Event>)
    decreases events
  {
    events != [] ==> !Loses(s, events[0]) && NeverLoses(Step(s, events[0]), events[1..])
  }

  lemma StepMisses(s: State, event: Event)
    ensures s.log.missed <= Step(s, event).log.missed
    ensures Step(s, event).log.missed != s.log.missed <==> Loses(s, event)
  {
    StepOnLog(s, event);
  }

  /** What was missed stays missed. */
  lemma {:induction false} MissedOnlyGrows(s: State, events: seq<Event>)
    ensures s.log.missed <= Run(s, events).log.missed
    ensures Run(s, events).log.missed == s.log.missed <==> NeverLoses(s, events)
    decreases events
  {
    if events != [] {
      var t := Step(s, events[0]);
      StepMisses(s, events[0]);
      MissedOnlyGrows(t, events[1..]);
      if t.log.missed != s.log.missed {
        assert |s.log.missed| < |t.log.missed| <= |Run(t, events[1..]).log.missed|;
      }
    }
  }

  lemma PrefixIff(log: Log)
    requires LogInv(log)
    ensures log.applied == Range(0, Cursor(log)) <==> log.missed == []
  {
    assert |multiset(log.applied) + multiset(log.missed)| == |multiset(Range(0, Cursor(log)))|;
  }

  /** Across failed requests and retries the log is followed without a gap: each position before the cursor is handed
      on once and in order, or lost to a throwing handler; and what was handed on is a prefix of the log if and only if
      no handler threw before the last event of its response. Two requests are never out together, and the one that is
      out asked from where the client is. */
  lemma LogIsFollowed(events: seq<Event>)
    ensures var s := Run(START, events).log;
      && Cursor(s) <= s.length
      && multiset(s.applied) + multiset(s.missed) == multiset(Range(0, Cursor(s)))
      && (forall i, j :: 0 <= i < j < |s.applied| ==> s.applied[i] < s.applied[j])
      && (s.applied == Range(0, Cursor(s)) <==> NeverLoses(START, events))
    ensures var s := Run(START, events); !s.failed ==> s.requests == if s.promise then [Cursor(s.log)] else []
  {
    RunKeepsInv(START, events);
    MissedOnlyGrows(START, events);
    PrefixIff(Run(START, events).log);
  }

  /** A position that was missed is not handed on later either. */
  lemma LostForGood(s: State, later: seq<Event>, position: nat)
    requires Inv(s) && position in s.log.missed
    ensures position in Run(s, later).log.missed && position !in Run(s, later).log.applied
  {
    RunKeepsInv(s, later);
    MissedOnlyGrows(s, later);
    var log := Run(s, later).log;
    RangeOnce(0, Cursor(log), position);
    assert multiset(log.missed)[position] >= 1;
    assert (multiset(log.applied) + multiset(log.missed))[position] <= 1;
  }

  lemma {:induction false} RangeOnce(a: nat, b: nat, x: nat)
    ensures multiset(Range(a, b))[x] <= 1
    decreases b
  {
    if a < b {
      RangeSplits(a, b - 1, b);
      assert Range(b - 1, b) == [b - 1];
      InRange(a, b - 1, b - 1);
      RangeOnce(a, b - 1, x);
    }
  }

  /** A handler that throws at the first of two events loses both; the retry goes on after them. */
  lemma LosingExample()
    ensures var answer := Completes(0, Response(2, Handling(false, Some((0, OtherError)))));
      var s := Step(Step(Step(Step(START, Appends), Appends), Sets), answer);
      s.log.missed == [0, 1] && s.log.applied == [] && s.timer && Step(s, TimerFires).requests == [2]
  {
  }

  /** Exactly these events fail an assertion; so no restart by the timer ever does. */
  lemma AssertionsThatFail(events: seq<Event>, event: Event)
    requires !Run(START, events).failed
    ensures Step(Run(START, events), event).failed <==> Trips(Run(START, events), event)
    ensures event.TimerFires? ==> !Step(Run(START, events), event).failed
  {
    RunKeepsInv(START, events);
    StepKeepsControl(Run(START, events), event);
  }

  // ---------------------------------------------------------------- stopping

  predicate Stopped(s: State) {
    s.failed || (!s.active && s.action)
  }

  lemma StoppedStep(s: State, event: Event)
    requires (s.failed || ControlInv(s)) && Stopped(s)
    ensures Stopped(Step(s, event)) && Step(s, event).log.applied == s.log.applied
  {
    StepOnLog(s, event);
  }

  lemma {:induction false} StoppedStays(s: State, events: seq<Event>)
    requires Inv(s) && Stopped(s)
    ensures Run(s, events).log.applied == s.log.applied && Stopped(Run(s, events))
    decreases events
  {
    if events != [] {
      StepKeepsInv(s, events[0]);
      StoppedStep(s, events[0]);
      StoppedStays(Step(s, events[0]), events[1..]);
    }
  }

  /** The one request that is out is answered with all there is, and no handler throws or stops. */
  function Answer(upto: nat): Event {
    Completes(0, Response(upto, Handling(false, None)))
  }

  /** How a client that was not stopped gets on: started if need be, it takes the whole log in one response. */
  function Restart(s: State): seq<Event> {
    if s.active then [] else if s.timer then [TimerFires] else [Sets]
  }

  lemma RestartWorks(s: State)
    requires Inv(s) && !Stopped(s)
    ensures Inv(Run(s, Restart(s))) && Run(s, Restart(s)).active && !Run(s, Restart(s)).failed
    ensures Run(s, Restart(s)).log == s.log
  {
    RunKeepsInv(s, Restart(s));
    if Restart(s) != [] {
      assert Restart(s)[1..] == [];
      assert Run(s, Restart(s)) == Step(s, Restart(s)[0]);
    }
  }

  lemma {:induction false} RunConcat(s: State, a: seq<Event>, b: seq<Event>)
    ensures Run(s, a + b) == Run(Run(s, a), b)
    decreases a
  {
    if a == [] {
      assert a + b == b;
    } else {
      assert (a + b)[0] == a[0] && (a + b)[1..] == a[1..] + b;
      RunConcat(Step(s, a[0]), a[1..], b);
    }
  }

  lemma RunThree(s: State, a: seq<Event>, b: Event, c: Event)
    ensures Run(s, a + [b, c]) == Step(Step(Run(s, a), b), c)
  {
    RunConcat(s, a, [b, c]);
    var t := Run(s, a);
    assert [b, c][1..] == [c] && [c][1..] == [];
    assert Run(t, [b, c]) == Run(Step(t, b), [c]) == Run(Step(Step(t, b), c), []);
  }

  lemma GoesOn(s: State) returns (events: seq<Event>)
    requires Inv(s) && !Stopped(s)
    ensures Run(s, events).log.applied == s.log.applied + Range(Cursor(s.log), s.log.length + 1)
  {
    var t, a, b := Run(s, Restart(s)), Appends, Answer(s.log.length + 1);
    events := Restart(s) + [a, b];
    RestartWorks(s);
    RunThree(s, Restart(s), a, b);
    StepOnLog(t, a);
    StepOnLog(Step(t, a), b);
  }

  /** Nothing more is ever handed on exactly when the client is stopped: any other can go on to the end of the log. */
  lemma StoppedForGood(s: State)
    requires Inv(s)
    ensures Stopped(s) <==> forall events :: Run(s, events).log.applied == s.log.applied
  {
    if Stopped(s) {
      forall events ensures Run(s, events).log.applied == s.log.applied { StoppedStays(s, events); }
    } else {
      var events := GoesOn(s);
      assert Run(s, events).log.applied != s.log.applied;
    }
  }

  /** A client that is not stopped catches up with the log, whatever failed before. */
  lemma CatchesUp(s: State)
    requires Inv(s) && !Stopped(s)
    ensures var t := Run(s, Restart(s) + [Answer(s.log.length)]);
      && Cursor(t.log) == s.log.length && t.active && !t.failed && t.log.missed == s.log.missed
      && t.log.applied == s.log.applied + Range(Cursor(s.log), s.log.length)
  {
    RestartWorks(s);
    var r := Answer(s.log.length);
    RunConcat(s, Restart(s), [r]);
    var t := Run(s, Restart(s));
    assert Run(t, [r]) == Step(t, r);
    StepOnLog(t, r);
  }

  /** What may stop a client: `stop_sync` while it is syncing, a handler that stops it and does not throw,
      or a failed assertion. */
  predicate Asks(s: State, event: Event) {
    || Trips(s, event)
    || (event.Stops? && s.active)
    || (event.Completes? && event.request < |s.requests| && s.active && event.result.Response?
        && event.result.handling.stops && event.result.handling.thrown.None?)
  }

  /** No failed request and no throwing handler stops the client or takes it from its synchronizer. */
  lemma StopsExactlyWhenAsked(s: State, event: Event)
    requires Inv(s) && !Stopped(s)
    ensures Stopped(Step(s, event)) <==> Asks(s, event)
    ensures s.held && !Asks(s, event) ==> Step(s, event).held
  {
    if event.Completes? && event.request < |s.requests| { assert Without(s.requests, 0) == []; }
  }

  predicate NeverAsked(s: State, events: seq<Event>)
    decreases events
  {
    events != [] ==> !Asks(s, events[0]) && NeverAsked(Step(s, events[0]), events[1..])
  }

  lemma {:induction false} StaysUnlessAsked(s: State, events: seq<Event>)
    requires Inv(s) && !Stopped(s)
    ensures Stopped(Run(s, events)) <==> !NeverAsked(s, events)
    ensures s.held && NeverAsked(s, events) ==> Run(s, events).held
    decreases events
  {
    if events != [] {
      var t := Step(s, events[0]);
      StopsExactlyWhenAsked(s, events[0]);
      StepKeepsInv(s, events[0]);
      if Stopped(t) { StoppedStays(t, events[1..]); } else { StaysUnlessAsked(t, events[1..]); }
    }
  }

  /** In every run from the start the client is stopped if and only if some event asked for it; until then it is held
      once it was given, and it catches up with the log whatever failed. */
  lemma RunsUntilAsked(events: seq<Event>)
    ensures Stopped(Run(START, events)) <==> !NeverAsked(START, events)
    ensures NeverAsked(START, events) && Sets in events ==> Run(START, events).held
    ensures var s := Run(START, events);
      NeverAsked(START, events) ==>
        Run(s, Restart(s) + [Answer(s.log.length)]).log.applied == s.log.applied + Range(Cursor(s.log), s.log.length)
  {
    StaysUnlessAsked(START, events);
    RunKeepsInv(START, events);
    if NeverAsked(START, events) {
      HeldOnceGiven(START, events);
      CatchesUp(Run(START, events));
    }
  }

  lemma {:induction false} HeldOnceGiven(s: State, events: seq<Event>)
    requires Inv(s) && !Stopped(s) && NeverAsked(s, events)
    ensures Sets in events ==> Run(s, events).held
    decreases events
  {
    if events != [] {
      var t := Step(s, events[0]);
      StopsExactlyWhenAsked(s, events[0]);
      StepKeepsInv(s, events[0]);
      StaysUnlessAsked(t, events[1..]);
      HeldOnceGiven(t, events[1..]);
    }
  }

  /** What makes a sync fail other than by an assertion: the request, or a handler, whether it stops the sync or not. */
  predicate Fails(result: Result) {
    match result
    case Error(failure) => failure == OtherError
    case Response(_, handling) => handling.thrown.Some? && handling.thrown.value.1 == OtherError
  }

  /** After a failure the retry timer runs, and when it fires one request is out again from where the client is. */
  lemma FailuresAreRetried(s: State, result: Result)
    requires Inv(s) && !s.failed && s.active && Fails(result)
    ensures var t := Step(s, Completes(0, result));
      && t.timer && t.held && !t.failed && !t.active && t.requests == []
      && Step(t, TimerFires).requests == [Cursor(t.log)] && Step(t, TimerFires).active && !Step(t, TimerFires).failed
  {
    assert Without(s.requests, 0) == [];
  }

  /** `stop_sync` stops for good exactly a client that is syncing, or that was stopped before;
      one that waits for its retry timer goes on. */
  lemma StopWorksWhileActive(s: State)
    requires Inv(s)
    ensures Stopped(Step(s, Stops)) <==> s.active || Stopped(s)
    ensures !s.failed && s.timer ==> Step(s, Stops) == s
  {
  }

  /** Called by a handler it stops for good unless that handler, or a later one, throws in the same batch;
      then the retry timer starts the sync anew. */
  lemma StopByAHandler(s: State, upto: nat, handling: Handling)
    requires Inv(s) && !s.failed && s.active && handling.stops
    ensures var t := Step(s, Completes(0, Response(upto, handling)));
      Stopped(t) <==> handling.thrown.None? || handling.thrown.value.1.Aborted?
    ensures var t := Step(s, Completes(0, Response(upto, handling)));
      handling.thrown.Some? && handling.thrown.value.1.OtherError? ==> t.timer && Step(t, TimerFires).active
  {
  }

  /** A stopped client cannot be used again: the action that was cancelled is still there. */
  lemma StoppedClientCannotRestart(s: State, result: Result)
    requires Inv(s) && !s.failed && s.active
    ensures var t := Step(Step(s, Stops), Completes(0, result));
      !t.failed && !t.held && t.log.applied == s.log.applied && Step(t, Sets).failed
  {
  }

  // ---------------------------------------------------------------- the two objects

  class SynchronizedClient {
    var nextBatch: Option<nat>
    var active: bool
    var promise: bool
    var action: bool
    var requests: seq<nat>
    var held: bool
    var timer: bool
    var length: nat
    var applied: seq<nat>
    var missed: seq<nat>
    var failed: bool

    function SeenLog(): Log
      reads this
    {
      Log(length, nextBatch, applied, missed)
    }

    function View(): State
      reads this
    {
      State(SeenLog(), active, promise, action, requests, held, timer, failed)
    }

    constructor ()
      ensures View() == START && Inv(View())
    {
      nextBatch, active, promise, action, requests, held, timer := None, false, false, false, [], false, false;
      length, applied, missed, failed := 0, [], [], false;
    }

    /** `retrying_client_synchronizer::set`: afterwards one request is out, unless an assertion failed. */
    method Set()
      requires Inv(View()) && !failed
      modifies this
      ensures View() == Step(old(View()), Sets) && Inv(View()) && SeenLog() == old(SeenLog())
      ensures failed == (old(held) || old(action))
      ensures !failed ==> requests == [Cursor(SeenLog())] && held && active
    {
      StepKeepsInv(View(), Sets);
      if held {
        failed := true;
        return;
      }
      held := true;
      StartSync();
    }

    method StartSync()
      modifies this
      ensures View() == SyncTillStop(old(View()))
    {
      if action || promise || active {
        failed := true;
        return;
      }
      active := true;
      promise := true;
      SendSync();
    }

    /** `do_sync` */
    method SendSync()
      modifies this
      ensures View() == DoSync(old(View()))
    {
      if action {
        failed := true;
        return;
      }
      var since := 0;
      if nextBatch.Some? { since := nextBatch.value; }
      action := true;
      requests := requests + [since];
    }

    method HandleStopped(thrown: Option<Failure>)
      modifies this`held, this`timer, this`failed
      ensures View() == OnStopped(old(View()), thrown)
    {
      if thrown == None {
        held := false;
      } else if thrown.value == Aborted {
        held := false;
        failed := true;
      } else {
        timer := true;
      }
    }

    /** The handlers of `on_sync` take the events of a batch one by one, as far as they get. */
    method HandOn(since: nat, end: nat, limit: nat) returns (i: nat)
      requires since <= end && since <= limit
      modifies this`applied
      ensures i == if limit < end then limit else end
      ensures applied == old(applied) + Range(since, i)
    {
      i := since;
      while i < end && i < limit
        invariant since <= i <= end && i <= limit
        invariant applied == old(applied) + Range(since, i)
      {
        RangeSplits(since, i, i + 1);
        applied := applied + [i];
        i := i + 1;
      }
    }

    /** `on_synced`: the token moves on before the handlers see the batch. */
    method HandleSynced(since: nat, upto: nat, handling: Handling) returns (thrown: Option<Failure>)
      modifies this`nextBatch, this`applied, this`missed, this`active
      ensures SeenLog() == Delivered(old(SeenLog()), since, upto, handling)
      ensures active == (old(active) && !handling.stops)
      ensures thrown == if handling.thrown.Some? then Some(handling.thrown.value.1) else None
    {
      var end := EndOf(SeenLog(), since, upto);
      nextBatch := Some(end);
      var i := HandOn(since, end, if handling.thrown.Some? then since + handling.thrown.value.0 else end);
      missed := missed + Range(i, end);
      if handling.stops { active := false; }
      thrown := if handling.thrown.Some? then Some(handling.thrown.value.1) else None;
    }

    method HandleSyncTillStop(since: nat, result: Result)
      modifies this
      ensures View() == OnSyncTillStop(old(View()), since, result)
    {
      if !active {
        promise := false;
        HandleStopped(None);
        return;
      }
      var thrown: Option<Failure> := None;
      match result {
        case Error(failure) => thrown := Some(failure);
        case Response(upto, handling) =>
          action := false;
          thrown := HandleSynced(since, upto, handling);
          if thrown == None { SendSync(); }
      }
      if thrown.Some? { Abandon(thrown.value); }
    }

    /** The exception's way out of a sync. */
    method Abandon(failure: Failure)
      modifies this
      ensures View() == GiveUp(old(View()), failure)
    {
      HandleStopped(Some(failure));
      promise := false;
      active := false;
      action := false;
    }

    /** A request completes. What it brought follows on what was handed on before, and one request is out again, or
        the timer runs, or the client is stopped. */
    method Complete(i: nat, result: Result)
      requires Inv(View()) && !failed && i < |requests|
      modifies this
      ensures View() == Step(old(View()), Completes(i, result)) && Inv(View())
      ensures !failed ==> (active && requests == [Cursor(SeenLog())]) || timer || Stopped(View())
      ensures old(active) && Fails(result) ==> timer && held && !failed
      ensures !old(Stopped(View())) ==> (Stopped(View()) <==> Asks(old(View()), Completes(i, result)))
    {
      if !Stopped(View()) { StopsExactlyWhenAsked(View(), Completes(i, result)); }
      StepKeepsInv(View(), Completes(i, result));
      var since := requests[i];
      requests := requests[..i] + requests[i + 1..];
      HandleSyncTillStop(since, result);
    }

    /** The retry: none of the assertions fails, and one request is out afterwards. */
    method FireTimer()
      requires Inv(View()) && !failed && timer
      modifies this
      ensures View() == Step(old(View()), TimerFires) && Inv(View()) && SeenLog() == old(SeenLog())
      ensures !failed && active && !timer && requests == [Cursor(SeenLog())]
    {
      StepKeepsInv(View(), TimerFires);
      timer := false;
      StartSync();
    }

    /** It stops for good exactly a client that is syncing or was stopped before. */
    method StopSync()
      requires Inv(View()) && !failed
      modifies this`active
      ensures View() == Step(old(View()), Stops) && Inv(View())
      ensures Stopped(View()) <==> old(active) || old(Stopped(View()))
    {
      StepKeepsInv(View(), Stops);
      if !active { return; }
      active := false;
    }
  }
}
