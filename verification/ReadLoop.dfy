/**
 The signaling client's read loop over a websocket, and what destroying the connection does to it.

 A read completes later, as an event, and its continuation runs inside the completion. `deferred` says whether the
 executor that is to read on runs a task later or at once. The connection owns its websocket. It may be destroyed at
 any time: from outside, while its task is still posted, or by what a completion calls, which is a message's handlers
 or the continuation of the run promise. Touching what is destroyed, or a promise that was moved out, is a crash. A
 failed assertion sets `failed`. Nothing happens after an event in which an assertion failed or that crashed.
 */
module ReadLoop {
  import opened Prelude

  /** What handling a message leads to. */
  datatype Handled = Fine | ThrowsSystemError(closed: bool) | ThrowsOther | ThrowsUnknown | Forbidden

  datatype Completion = Message(handled: Handled) | Closed | Error

  datatype Event =
    | Runs
    | ReadCompletes(completion: Completion, destroys: bool)   // and what it calls destroys the connection
    | TaskRuns                                                // the posted `read_next`
    | Destroyed                                               // from outside

  datatype Outcome = Value | Exception | Aborted

  datatype State = State(
    deferred: bool,
    // the websocket
    reading: bool,
    readPromise: bool,                   // not moved out
    asyncReads: nat,                     // reads started on the stream and not completed
    // the connection
    begun: bool,
    running: bool,
    runPromise: bool,                    // not moved out
    outcome: Option<Outcome>,            // what the run promise was fulfilled with
    rejected: nat,                       // attempts to fulfil it again
    posted: nat,
    handled: nat,                        // messages handled
    alive: bool,
    crashed: bool,
    failed: bool)

  function Start(deferred: bool): State {
    State(deferred, false, false, 0, false, false, true, None, 0, 0, 0, true, false, false)
  }

  function Fulfil(s: State, outcome: Outcome): State {
    if s.outcome.None? then s.(outcome := Some(outcome)) else s.(rejected := s.rejected + 1)
  }

  /** `connection_impl::read` */
  function Read(s: State): State {
    if s.reading || s.readPromise then s.(failed := true)
    else s.(reading := true, readPromise := true, asyncReads := s.asyncReads + 1)
  }

  function PostReadNext(s: State): State {
    if s.deferred then s.(posted := s.posted + 1) else Read(s)
  }

  /** The exception's way out of `did_read`. */
  function Finish(s: State, outcome: Outcome): State {
    Fulfil(s.(running := false, runPromise := false), outcome)
  }

  /** Both destructors. The websocket's, which comes second, fails a read that is still out; the continuation of that
      read finds the run promise kept already. While a message is handled the read's promise is moved out. */
  function Destruct(s: State): State {
    var t := (if s.runPromise then Fulfil(s, Aborted) else s).(alive := false);
    if !t.reading then t
    else if !t.readPromise then t.(crashed := true)
    else if !t.runPromise then t.(failed := true)
    else Finish(t, Exception)
  }

  /** The run promise is kept, and its continuation may destroy the connection. */
  function Ended(s: State, outcome: Outcome, destroys: bool): State {
    var t := Finish(s, outcome);
    if destroys then Destruct(t) else t
  }

  function Counted(s: State): State {
    s.(handled := s.handled + 1)
  }

  /** A message is handled; its handlers may destroy the connection. */
  function Served(s: State, destroys: bool): State {
    if destroys then Destruct(Counted(s)) else PostReadNext(Counted(s))
  }

  function DidRead(s: State, completion: Completion, destroys: bool): State {
    match completion
    case Closed => Ended(s, Value, destroys)
    case Error => Ended(s, Exception, destroys)
    case Message(Fine) => Served(s, destroys)
    case Message(ThrowsSystemError(closed)) => Ended(s, if closed then Value else Exception, destroys)
    case Message(ThrowsOther) => Ended(s, Exception, destroys)
    case Message(_) => s.(failed := true)
  }

  /** The continuation of a read. */
  function Continue(s: State, completion: Completion, destroys: bool): State {
    if s.runPromise then DidRead(s, completion, destroys) else s.(failed := true)
  }

  function Taken(s: State): State {
    s.(readPromise := false, asyncReads := if s.asyncReads > 0 then s.asyncReads - 1 else 0)
  }

  function NotReading(s: State): State {
    if s.crashed then s else s.(reading := false)
  }

  /** `on_read`: after an error the flag is cleared before the continuation runs, otherwise after it. */
  function OnRead(s: State, completion: Completion, destroys: bool): State {
    if completion.Message? then NotReading(Continue(Taken(s), completion, destroys))
    else Continue(NotReading(Taken(s)), completion, destroys)
  }

  function Step(s: State, event: Event): State {
    if s.failed || s.crashed then s
    else if !s.alive then (if event.TaskRuns? && s.posted > 0 then s.(crashed := true) else s)
    else match event
      case Runs => if s.begun then s else Read(s.(begun := true, running := true))
      case ReadCompletes(completion, destroys) => if s.asyncReads > 0 then OnRead(s, completion, destroys) else s
      case TaskRuns => if s.posted > 0 then Read(s.(posted := s.posted - 1)) else s
      case Destroyed => Destruct(s)
  }

  function Run(s: State, events: seq<Event>): State
    decreases events
  {
    if events == [] then s else Run(Step(s, events[0]), events[1..])
  }

  // ---------------------------------------------------------------- invariant

  /** The connection is there and nothing went wrong. */
  predicate Well(s: State) {
    s.alive && !s.failed && !s.crashed
  }

  /** The loop is in exactly one place: waiting for a read or for its task, until the promise is kept. */
  predicate LoopInv(s: State) {
    && s.readPromise == s.reading && s.asyncReads == (if s.reading then 1 else 0)
    && s.asyncReads + s.posted == (if s.running then 1 else 0)
    && s.running == (s.begun && s.runPromise)
    && (s.runPromise ==> s.outcome.None?)
    && (!s.runPromise ==> s.begun && s.outcome.Some?)
  }

  predicate Inv(s: State) {
    && (Well(s) ==> LoopInv(s))
    && (!s.alive ==> s.outcome.Some?) && (s.crashed ==> !s.alive)
    && s.rejected <= (if s.alive then 0 else 1)
    && s.asyncReads <= 1 && s.posted <= 1
  }

  /** What a message may do: it is the client's to handle, and what it throws is known. */
  predicate Decent(handled: Handled) {
    !handled.ThrowsUnknown? && !handled.Forbidden?
  }

  /** The events that fail an assertion: a message that must not reach a client, or that throws something unheard of,
      and any message that is handled if the executor does not defer. */
  predicate Trips(s: State, event: Event) {
    && Well(s) && event.ReadCompletes? && event.completion.Message? && s.asyncReads > 0
    && (!Decent(event.completion.handled) || (event.completion.handled.Fine? && !event.destroys && !s.deferred))
  }

  /** The events that keep the run promise. */
  predicate Ends(s: State, event: Event) {
    && Well(s)
    && match event
       case ReadCompletes(Message(handled), destroys) =>
         s.asyncReads > 0 && (handled.ThrowsSystemError? || handled.ThrowsOther? || (handled.Fine? && destroys))
       case ReadCompletes(_, _) => s.asyncReads > 0
       case Destroyed => true
       case _ => false
  }

  function OutcomeOf(event: Event): Outcome {
    match event
    case ReadCompletes(Closed, _) => Value
    case ReadCompletes(Message(ThrowsSystemError(closed)), _) => if closed then Value else Exception
    case ReadCompletes(Message(Fine), _) => Aborted
    case Destroyed => Aborted
    case _ => Exception
  }

  lemma MessageKeepsInv(s: State, handled: Handled, destroys: bool)
    requires Inv(s) && Well(s) && s.asyncReads > 0
    ensures var t := OnRead(s, Message(handled), destroys);
      Inv(t) && t.deferred == s.deferred && (t.failed <==> Trips(s, ReadCompletes(Message(handled), destroys)))
  {
  }

  lemma ErrorKeepsInv(s: State, completion: Completion, destroys: bool)
    requires Inv(s) && Well(s) && s.asyncReads > 0 && !completion.Message?
    ensures var t := OnRead(s, completion, destroys); Inv(t) && t.deferred == s.deferred && !t.failed
  {
  }

  lemma StepKeepsInv(s: State, event: Event)
    requires Inv(s)
    ensures Inv(Step(s, event)) && Step(s, event).deferred == s.deferred
    ensures Step(s, event).failed <==> s.failed || Trips(s, event)
  {
    if Well(s) && event.ReadCompletes? && s.asyncReads > 0 {
      if event.completion.Message? {
        MessageKeepsInv(s, event.completion.handled, event.destroys);
      } else {
        ErrorKeepsInv(s, event.completion, event.destroys);
      }
    }
  }

  lemma CompletionOutcome(s: State, completion: Completion, destroys: bool)
    requires Inv(s) && Well(s) && s.asyncReads > 0
    ensures var event := ReadCompletes(completion, destroys);
      OnRead(s, completion, destroys).outcome == if Ends(s, event) then Some(OutcomeOf(event)) else None
  {
  }

  /** The promise is kept by the first ending event, with what that event says, and never changes. */
  lemma StepOutcome(s: State, event: Event)
    requires Inv(s)
    ensures Step(s, event).outcome ==
      if s.outcome.None? && Ends(s, event) then Some(OutcomeOf(event)) else s.outcome
  {
    if Well(s) && event.ReadCompletes? && s.asyncReads > 0 { CompletionOutcome(s, event.completion, event.destroys); }
  }

  lemma {:induction false} RunKeepsInv(s: State, events: seq<Event>)
    requires Inv(s)
    ensures Inv(Run(s, events)) && Run(s, events).deferred == s.deferred
    decreases events
  {
    if events != [] {
      StepKeepsInv(s, events[0]);
      RunKeepsInv(Step(s, events[0]), events[1..]);
    }
  }

  // ---------------------------------------------------------------- one read at a time

  predicate AllDecent(events: seq<Event>) {
    forall i :: 0 <= i < |events| && events[i].ReadCompletes? && events[i].completion.Message? ==>
      Decent(events[i].completion.handled)
  }

  lemma {:induction false} NeverFails(s: State, events: seq<Event>)
    requires Inv(s) && !s.failed && s.deferred && AllDecent(events)
    ensures !Run(s, events).failed
    decreases events
  {
    if events != [] {
      StepKeepsInv(s, events[0]);
      NeverFails(Step(s, events[0]), events[1..]);
    }
  }

  /** With a deferring executor, two reads are never out together and no assertion fails, whoever destroys what. */
  lemma OneReadAtATime(events: seq<Event>)
    requires AllDecent(events)
    ensures var s := Run(Start(true), events);
      !s.failed && s.asyncReads <= 1 && (Well(s) ==> s.asyncReads + s.posted <= 1)
  {
    RunKeepsInv(Start(true), events);
    NeverFails(Start(true), events);
  }

  /** With one that runs its tasks at once, the first message already fails the assertion against reading twice. */
  lemma ImmediateExecutorFails(s: State)
    requires Inv(s) && Well(s) && !s.deferred && s.asyncReads > 0
    ensures Step(s, ReadCompletes(Message(Fine), false)).failed
    ensures Step(Start(false), Runs).asyncReads == 1
  {
  }

  /** A message that is read and that nobody throws at: exactly then one more is handled. */
  predicate Handles(s: State, event: Event) {
    Well(s) && event.ReadCompletes? && event.completion == Message(Fine) && s.asyncReads > 0
  }

  lemma MessageHandles(s: State, handled: Handled, destroys: bool)
    requires Inv(s) && Well(s) && s.asyncReads > 0
    ensures OnRead(s, Message(handled), destroys).handled == s.handled + if handled.Fine? then 1 else 0
  {
  }

  lemma ErrorHandlesNone(s: State, completion: Completion, destroys: bool)
    requires Inv(s) && Well(s) && s.asyncReads > 0 && !completion.Message?
    ensures OnRead(s, completion, destroys).handled == s.handled
  {
  }

  lemma DestructHandlesNone(s: State)
    requires Inv(s) && Well(s)
    ensures Destruct(s).handled == s.handled
  {
  }

  lemma StepHandles(s: State, event: Event)
    requires Inv(s)
    ensures Step(s, event).handled == s.handled + if Handles(s, event) then 1 else 0
  {
    if Well(s) {
      match event
      case ReadCompletes(completion, destroys) =>
        if s.asyncReads > 0 {
          if completion.Message? {
            MessageHandles(s, completion.handled, destroys);
          } else {
            ErrorHandlesNone(s, completion, destroys);
          }
        }
      case Destroyed => DestructHandlesNone(s);
      case _ =>
    }
  }

  /** How many good messages are read in a run. */
  function GoodMessages(s: State, events: seq<Event>): nat
    decreases events
  {
    if events == [] then 0
    else (if Handles(s, events[0]) then 1 else 0) + GoodMessages(Step(s, events[0]), events[1..])
  }

  /** In every run each good message that is read is handled once, and nothing else is. */
  lemma {:induction false} EachMessageIsHandledOnce(s: State, events: seq<Event>)
    requires Inv(s)
    ensures Run(s, events).handled == s.handled + GoodMessages(s, events)
    decreases events
  {
    if events != [] {
      StepKeepsInv(s, events[0]);
      StepHandles(s, events[0]);
      EachMessageIsHandledOnce(Step(s, events[0]), events[1..]);
    }
  }

  /** A message comes, and the task that was posted for it reads on. */
  function Exchanges(n: nat): seq<Event> {
    if n == 0 then [] else [ReadCompletes(Message(Fine), false), TaskRuns] + Exchanges(n - 1)
  }

  lemma OneExchange(s: State, rest: seq<Event>)
    requires Inv(s) && Well(s) && s.deferred && s.asyncReads == 1
    ensures var t := Step(Step(s, ReadCompletes(Message(Fine), false)), TaskRuns);
      && Inv(t) && Well(t) && t.deferred && t.asyncReads == 1 && t.handled == s.handled + 1 && t.outcome.None?
      && Run(s, [ReadCompletes(Message(Fine), false), TaskRuns] + rest) == Run(t, rest)
  {
    var message := ReadCompletes(Message(Fine), false);
    var events := [message, TaskRuns] + rest;
    assert events[1..] == [TaskRuns] + rest && ([TaskRuns] + rest)[1..] == rest;
    StepKeepsInv(s, message);
    StepKeepsInv(Step(s, message), TaskRuns);
  }

  /** With a deferring executor the loop goes on for as many messages as come. */
  lemma {:induction false} ReadsOn(s: State, n: nat)
    requires Inv(s) && Well(s) && s.deferred && s.asyncReads == 1
    ensures var t := Run(s, Exchanges(n));
      Well(t) && t.asyncReads == 1 && t.handled == s.handled + n && t.outcome.None?
    decreases n
  {
    if n > 0 {
      OneExchange(s, Exchanges(n - 1));
      ReadsOn(Step(Step(s, ReadCompletes(Message(Fine), false)), TaskRuns), n - 1);
    }
  }

  // ---------------------------------------------------------------- the run promise

  /** The first event of a run that ends the loop. */
  function FirstEnd(s: State, events: seq<Event>): Option<Event>
    decreases events
  {
    if events == [] then None
    else if Ends(s, events[0]) then Some(events[0])
    else FirstEnd(Step(s, events[0]), events[1..])
  }

  lemma {:induction false} OutcomeStays(s: State, events: seq<Event>)
    requires Inv(s) && s.outcome.Some?
    ensures Run(s, events).outcome == s.outcome
    decreases events
  {
    if events != [] {
      StepKeepsInv(s, events[0]);
      StepOutcome(s, events[0]);
      OutcomeStays(Step(s, events[0]), events[1..]);
    }
  }

  lemma {:induction false} OutcomeIsFirstEnd(s: State, events: seq<Event>)
    requires Inv(s) && s.outcome.None?
    ensures var first := FirstEnd(s, events);
      Run(s, events).outcome == if first.Some? then Some(OutcomeOf(first.value)) else None
    decreases events
  {
    if events != [] {
      StepKeepsInv(s, events[0]);
      StepOutcome(s, events[0]);
      var t := Step(s, events[0]);
      if t.outcome.Some? { OutcomeStays(t, events[1..]); } else { OutcomeIsFirstEnd(t, events[1..]); }
    }
  }

  /** In every run, however the connection is destroyed, what the promise returned by `run` is fulfilled with is decided
      by the first event that ends the loop: a value for a graceful close, an exception for an error, or aborted by the
      destructor; it is not fulfilled before, and what comes later does not change it. */
  lemma RunPromiseIsKeptOnce(deferred: bool, events: seq<Event>)
    ensures var s, first := Run(Start(deferred), events), FirstEnd(Start(deferred), events);
      s.outcome == if first.Some? then Some(OutcomeOf(first.value)) else None
  {
    OutcomeIsFirstEnd(Start(deferred), events);
  }

  // ---------------------------------------------------------------- destroying the connection

  /** Something destroyed was touched or will be by a task that is still posted, or the promise was fulfilled twice. */
  predicate Harmed(s: State) {
    s.crashed || s.rejected > 0 || (!s.alive && s.posted > 0)
  }

  /** Destroying the connection from outside while it runs, or by what a message calls. */
  predicate Reckless(s: State, event: Event) {
    && Well(s)
    && match event
       case Destroyed => s.running
       case ReadCompletes(Message(handled), destroys) => destroys && s.asyncReads > 0 && Decent(handled)
       case _ => false
  }

  lemma StepHarms(s: State, event: Event)
    requires Inv(s)
    ensures Harmed(Step(s, event)) <==> Harmed(s) || Reckless(s, event)
  {
  }

  /** The promise is fulfilled a second time exactly when the connection is destroyed while a read is out: the
      websocket's destructor fails that read, whose continuation finds the promise kept. */
  lemma SecondAttempt(s: State, event: Event)
    requires Inv(s) && Well(s)
    ensures Step(s, event).rejected > 0 <==> event.Destroyed? && s.reading
  {
  }

  predicate NeverReckless(s: State, events: seq<Event>)
    decreases events
  {
    events != [] ==> !Reckless(s, events[0]) && NeverReckless(Step(s, events[0]), events[1..])
  }

  lemma {:induction false} RunHarms(s: State, events: seq<Event>)
    requires Inv(s)
    ensures Harmed(Run(s, events)) <==> Harmed(s) || !NeverReckless(s, events)
    decreases events
  {
    if events != [] {
      StepKeepsInv(s, events[0]);
      StepHarms(s, events[0]);
      RunHarms(Step(s, events[0]), events[1..]);
    }
  }

  /** In every run: the promise is fulfilled once at most and nothing destroyed is touched, then or by a task still
      posted, if and only if the connection is never destroyed from outside while it runs nor by what a message
      calls. */
  lemma DestroyedWithoutHarm(deferred: bool, events: seq<Event>)
    ensures !Harmed(Run(Start(deferred), events)) <==> NeverReckless(Start(deferred), events)
  {
    RunHarms(Start(deferred), events);
  }

  /** A posted task that outlives its connection does touch it. */
  lemma PostedTaskCrashes(s: State)
    requires !s.alive && !s.failed && s.posted > 0
    ensures Step(s, TaskRuns).crashed || s.crashed
  {
  }

  /** The reconnecting client destroys the connection where its run ends. If assertions are compiled in, it does not get
      there when the run ends with an exception that is no system error: an assertion in `run_done` fails first. */
  predicate StopsShort(s: State, event: Event, asserts: bool) {
    asserts && Ends(s, event) && event.ReadCompletes? && event.completion == Message(ThrowsOther)
  }

  /** What happens in the client at a completion, for what handling its message leads to. */
  function ClientEvent(event: Event): Event {
    if event.ReadCompletes? then event.(destroys := event.completion != Message(Fine)) else event
  }

  function ClientStep(s: State, event: Event, asserts: bool): State {
    var e := ClientEvent(event);
    if StopsShort(s, e, asserts) then Step(s, e.(destroys := false)).(failed := true) else Step(s, e)
  }

  function ClientRun(s: State, events: seq<Event>, asserts: bool): State
    decreases events
  {
    if events == [] then s else ClientRun(ClientStep(s, events[0], asserts), events[1..], asserts)
  }

  /** The first event of a client's run that ends its loop. */
  function ClientEnd(s: State, events: seq<Event>): Option<Event>
    decreases events
  {
    if events == [] then None
    else if Ends(s, ClientEvent(events[0])) then Some(events[0])
    else ClientEnd(Step(s, ClientEvent(events[0])), events[1..])
  }

  predicate EndsBadly(end: Option<Event>, asserts: bool) {
    && end.Some? && end.value.ReadCompletes? && end.value.completion.Message?
    && !(asserts && end.value.completion == Message(ThrowsOther))
  }

  lemma {:induction false} ClientStaysAsItIs(s: State, events: seq<Event>, asserts: bool)
    requires Inv(s) && !Well(s)
    ensures Harmed(ClientRun(s, events, asserts)) <==> Harmed(s)
    ensures s.failed ==> ClientRun(s, events, asserts) == s
    decreases events
  {
    if events != [] {
      StepKeepsInv(s, ClientEvent(events[0]));
      StepHarms(s, ClientEvent(events[0]));
      ClientStaysAsItIs(ClientStep(s, events[0], asserts), events[1..], asserts);
    }
  }

  lemma ClientStepHarms(s: State, event: Event, asserts: bool)
    requires Inv(s) && Well(s) && s.outcome.None? && !event.Destroyed?
    requires event.ReadCompletes? && event.completion.Message? ==> Decent(event.completion.handled)
    ensures var t := ClientStep(s, event, asserts); var ends := Ends(s, ClientEvent(event));
      && Inv(t)
      && (ends ==> !Well(t) && (Harmed(t) <==> EndsBadly(Some(event), asserts)))
      && (ends && StopsShort(s, ClientEvent(event), asserts) ==> t.failed)
      && (!ends ==> t == Step(s, ClientEvent(event)) && t.alive && !Harmed(t) && t.outcome.None?)
  {
    var e := ClientEvent(event);
    StepKeepsInv(s, e);
    StepOutcome(s, e);
    StepHarms(s, e);
    if e.ReadCompletes? {
      StepKeepsInv(s, e.(destroys := false));
      StepHarms(s, e.(destroys := false));
    }
  }

  lemma {:induction false} ReconnectingFrom(s: State, events: seq<Event>, asserts: bool)
    requires Inv(s) && Well(s) && s.outcome.None? && AllDecent(events)
    requires forall i :: 0 <= i < |events| ==> !events[i].Destroyed?
    ensures Harmed(ClientRun(s, events, asserts)) <==> EndsBadly(ClientEnd(s, events), asserts)
    decreases events
  {
    if events != [] {
      var t := ClientStep(s, events[0], asserts);
      ClientStepHarms(s, events[0], asserts);
      if Well(t) {
        ReconnectingFrom(t, events[1..], asserts);
      } else {
        ClientStaysAsItIs(t, events[1..], asserts);
        if t.failed && !Ends(s, ClientEvent(events[0])) { NoEndAfterFailure(t, events[1..]); }
      }
    }
  }

  lemma {:induction false} NoEndAfterFailure(s: State, events: seq<Event>)
    requires s.failed
    ensures ClientEnd(s, events).None?
    decreases events
  {
    if events != [] { NoEndAfterFailure(s, events[1..]); }
  }

  /** For that client, something destroyed is touched exactly in the runs that end because handling a message threw,
      unless an assertion stops it; a failed read or a graceful close does no harm. */
  lemma ReconnectingClientCrashes(deferred: bool, events: seq<Event>, asserts: bool)
    requires AllDecent(events) && forall i :: 0 <= i < |events| ==> !events[i].Destroyed?
    ensures Harmed(ClientRun(Start(deferred), events, asserts)) <==>
      EndsBadly(ClientEnd(Start(deferred), events), asserts)
  {
    ReconnectingFrom(Start(deferred), events, asserts);
  }

  /** The three ways to come to harm: a message throws and the connection is destroyed where its run ends; it is
      destroyed while its task is posted; it is destroyed while a read is out. */
  lemma HarmExamples()
    ensures var s := Step(Start(true), Runs);
      && Step(s, ReadCompletes(Message(ThrowsSystemError(false)), true)).crashed
      && Step(Step(Step(s, ReadCompletes(Message(Fine), false)), Destroyed), TaskRuns).crashed
      && Step(s, Destroyed).rejected == 1 && Step(s, Destroyed).outcome == Some(Aborted)
  {
  }

  // ---------------------------------------------------------------- the objects

  class ReadingConnection {
    const deferred: bool
    var reading: bool
    var readPromise: bool
    var asyncReads: nat
    var begun: bool
    var running: bool
    var runPromise: bool
    var outcome: Option<Outcome>
    var rejected: nat
    var posted: nat
    var handled: nat
    var alive: bool
    var crashed: bool
    var failed: bool

    ghost function View(): State
      reads this
    {
      State(deferred, reading, readPromise, asyncReads, begun, running, runPromise, outcome, rejected, posted, handled,
            alive, crashed, failed)
    }

    constructor (deferred: bool)
      ensures View() == Start(deferred) && Inv(View())
    {
      this.deferred, reading, readPromise, asyncReads, begun, running := deferred, false, false, 0, false, false;
      runPromise, outcome, rejected, posted, handled := true, None, 0, 0, 0;
      alive, crashed, failed := true, false, false;
    }

    /** `run`: one read is out afterwards, and no assertion fails. */
    method BeginRun()
      requires Inv(View()) && Well(View()) && !begun
      modifies this
      ensures View() == Step(old(View()), Runs) && Inv(View())
      ensures Well(View()) && running && asyncReads == 1 && posted == 0
    {
      StepKeepsInv(View(), Runs);
      begun, running := true, true;
      ReadNext();
    }

    method ReadNext()
      modifies this`reading, this`readPromise, this`asyncReads, this`failed
      ensures View() == Read(old(View()))
    {
      if reading || readPromise {
        failed := true;
        return;
      }
      reading := true;
      readPromise := true;
      asyncReads := asyncReads + 1;
    }

    method PostNext()
      modifies this`posted, this`reading, this`readPromise, this`asyncReads, this`failed
      ensures View() == PostReadNext(old(View()))
    {
      if deferred { posted := posted + 1; } else { ReadNext(); }
    }

    method KeepPromise(with: Outcome)
      modifies this`outcome, this`rejected
      ensures View() == Fulfil(old(View()), with)
    {
      if outcome == None { outcome := Some(with); } else { rejected := rejected + 1; }
    }

    method FinishRun(with: Outcome)
      modifies this`running, this`runPromise, this`outcome, this`rejected
      ensures View() == Finish(old(View()), with)
    {
      running := false;
      runPromise := false;
      KeepPromise(with);
    }

    /** The run promise is kept, and its continuation runs. */
    method EndRun(with: Outcome, destroys: bool)
      modifies this
      ensures View() == Ended(old(View()), with, destroys)
    {
      FinishRun(with);
      if destroys { DestroyAll(); }
    }

    /** The destructor, then that of the websocket. */
    method DestroyAll()
      modifies this
      ensures View() == Destruct(old(View()))
    {
      if runPromise { KeepPromise(Aborted); }
      alive := false;
      if !reading { return; }
      if !readPromise {
        crashed := true;
      } else if !runPromise {
        failed := true;
      } else {
        FinishRun(Exception);
      }
    }

    method CountMessage()
      modifies this`handled
      ensures View() == Counted(old(View()))
    {
      handled := handled + 1;
    }

    method ServeMessage(destroys: bool)
      modifies this
      ensures View() == Served(old(View()), destroys)
    {
      CountMessage();
      if destroys { DestroyAll(); } else { PostNext(); }
    }

    method HandleMessage(h: Handled, destroys: bool)
      modifies this
      ensures View() == DidRead(old(View()), Message(h), destroys)
    {
      match h
      case Fine => ServeMessage(destroys);
      case ThrowsSystemError(closed) => EndRun(if closed then Value else Exception, destroys);
      case ThrowsOther => EndRun(Exception, destroys);
      case _ => failed := true;
    }

    method HandleRead(completion: Completion, destroys: bool)
      modifies this
      ensures View() == Continue(old(View()), completion, destroys)
    {
      if !runPromise {
        failed := true;
        return;
      }
      match completion
      case Closed => EndRun(Value, destroys);
      case Error => EndRun(Exception, destroys);
      case Message(h) => HandleMessage(h, destroys);
    }

    method TakePromise()
      requires asyncReads > 0
      modifies this`readPromise, this`asyncReads
      ensures View() == Taken(old(View()))
    {
      asyncReads := asyncReads - 1;
      readPromise := false;
    }

    method ClearReading()
      modifies this`reading
      ensures View() == NotReading(old(View()))
    {
      if !crashed { reading := false; }
    }

    method FinishRead(completion: Completion, destroys: bool)
      requires asyncReads > 0
      modifies this
      ensures View() == OnRead(old(View()), completion, destroys)
    {
      TakePromise();
      if !completion.Message? {
        ClearReading();
        HandleRead(completion, destroys);
        return;
      }
      HandleRead(completion, destroys);
      ClearReading();
    }

    /** `on_read`: exactly when an assertion fails, when the promise is kept and when the connection comes to harm. */
    method CompleteRead(completion: Completion, destroys: bool)
      requires Inv(View()) && Well(View()) && asyncReads > 0
      modifies this
      ensures var event := ReadCompletes(completion, destroys);
        && View() == Step(old(View()), event) && Inv(View())
        && (failed <==> old(Trips(View(), event)))
        && outcome == (if old(Ends(View(), event)) then Some(OutcomeOf(event)) else None)
        && (Harmed(View()) <==> old(Reckless(View(), event)))
    {
      StepKeepsInv(View(), ReadCompletes(completion, destroys));
      StepOutcome(View(), ReadCompletes(completion, destroys));
      StepHarms(View(), ReadCompletes(completion, destroys));
      FinishRead(completion, destroys);
    }

    /** The posted task: it reads on, or touches a connection that is gone. */
    method RunTask()
      requires Inv(View()) && !failed && !crashed && posted > 0
      modifies this
      ensures View() == Step(old(View()), TaskRuns) && Inv(View())
      ensures crashed == !old(alive) && (old(alive) ==> Well(View()) && asyncReads == 1 && posted == 0)
    {
      StepKeepsInv(View(), TaskRuns);
      if !alive {
        crashed := true;
        return;
      }
      posted := posted - 1;
      ReadNext();
    }

    /** Destroying it from outside does harm exactly while it runs. */
    method Dispose()
      requires Inv(View()) && Well(View())
      modifies this
      ensures View() == Step(old(View()), Destroyed) && Inv(View())
      ensures !alive && outcome == (if old(outcome).Some? then old(outcome) else Some(Aborted))
      ensures Harmed(View()) <==> old(running)
    {
      StepKeepsInv(View(), Destroyed);
      StepOutcome(View(), Destroyed);
      StepHarms(View(), Destroyed);
      DestroyAll();
    }
  }
}
