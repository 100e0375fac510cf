/**
 The camera and the shared screen: two state machines that call each other through `on_paused`.

 Sources and the adders made for them are numbered alike. `starts` says whether a camera that is started during a call
 starts, `opens` whether a screen can be captured; an exception leaves a call with `thrown`. A screen capturer is not
 finished as soon as it is started, and finishes inside `stop()`. A failed assertion sets `failed`, and execution goes
 on as in a release build.
 */
module OutgoingVideo {
  import opened Prelude
  import opened Lists

  datatype Device = Device(id: string, source: nat)

  /** The camera's part: `registered` are its adders in the tracks adder, `own` is the own-video list. */
  datatype Video = Video(
    capturing: Option<Device>,
    adder: Option<nat>,
    registered: seq<nat>,
    own: seq<nat>,
    lastId: Option<string>,
    paused: bool)

  datatype State = State(
    video: Video,
    capturer: Option<nat>,               // the shared screen
    screenAdder: Option<nat>,
    screens: seq<nat>,                   // its adder in the tracks adder
    didPause: bool,
    next: nat,
    seen: seq<Video>,                    // what each `on_video_source_changed` found
    failed: bool)

  datatype Result = Result(state: State, thrown: bool)

  datatype Event =
    | Pauses(paused: bool, starts: bool)
    | Changes(id: string, starts: bool)
    | DevicesChange(available: set<string>)
    | Shares(opens: bool, starts: bool)
    | Resets(starts: bool)
    | ScreenStops                        // the capturer finishes by itself
    | LeavesRoom

  const START := State(Video(None, None, [], [], None, false), None, None, [], false, 0, [], false)

  // ---------------------------------------------------------------- the camera

  function Observed(s: State): State {
    s.(seen := s.seen + [s.video])
  }

  /** The camera without its capture device, its adder and its own video. */
  function Released(v: Video): Video {
    if v.capturing.None? then v
    else
      v.(capturing := None, adder := None, own := Without(v.own, v.capturing.value.source),
         registered := if v.adder.Some? then Without(v.registered, v.adder.value) else v.registered)
  }

  /** Whether something to be removed is missing. */
  predicate ReleaseFails(v: Video) {
    v.capturing.Some? && (v.adder.None? || v.adder.value !in v.registered || v.capturing.value.source !in v.own)
  }

  /** `reset_current_video_capture` */
  function ResetCapture(s: State): State {
    s.(video := Released(s.video), failed := s.failed || ReleaseFails(s.video))
  }

  /** `reset_current_video` */
  function ResetCurrent(s: State): State {
    var t := ResetCapture(s);
    Observed(t.(video := t.video.(lastId := None)))
  }

  function Taken(v: Video, id: string, n: nat): Video {
    v.(capturing := Some(Device(id, n)), adder := Some(n), registered := v.registered + [n], own := v.own + [n])
  }

  /** A camera that has started is registered everywhere. */
  function Started(s: State, id: string): State {
    var v, n := s.video, s.next;
    Observed(s.(video := Taken(v, id, n), next := n + 1, failed := s.failed || n in v.registered || n in v.own))
  }

  /** A camera that was chosen is started, unless it is paused. */
  function StartChosen(s: State, id: string, starts: bool): (r: Result)
    ensures r.state.video.paused == s.video.paused
  {
    var u := s.(video := s.video.(lastId := Some(id)));
    if u.video.paused then Result(u, false)
    else if starts then Result(Started(u, id), false)
    else Result(Observed(s.(video := s.video.(lastId := None))), true)
  }

  /** `change_to_device` */
  function Change(s: State, id: string, starts: bool): (r: Result)
    ensures r.state.video.paused == s.video.paused
  {
    if SameCamera(s, id) then Result(s, false)
    else StartChosen(if s.video.capturing.Some? then ResetCurrent(s) else s, id, starts)
  }

  predicate SameCamera(s: State, id: string) {
    s.video.capturing.Some? && s.video.capturing.value.id == id
  }

  /** `setup_initial_device`: the first device that starts. */
  function SetUp(s: State, devices: seq<(string, bool)>): State
    decreases devices
  {
    if devices == [] then s
    else
      var c := Change(s, devices[0].0, devices[0].1);
      if c.thrown then SetUp(c.state, devices[1..]) else c.state
  }

  function Rank(s: State): nat {
    if s.video.paused then 1 else 0
  }

  /** `video_settings::pause`, with what `on_paused` sets off. */
  function Pause(s: State, paused: bool, starts: bool): Result
    decreases Rank(s), 0
  {
    var t := s.(video := s.video.(paused := paused));
    if s.video.paused == paused then Result(s, false)
    else if paused then Result(Observed(ResetCapture(t)), false)
    else if t.video.lastId.None? then Result(t, false)
    else
      var c := Change(t, t.video.lastId.value, starts);
      if c.thrown then c else OnUnpaused(c.state, starts)
  }

  // ---------------------------------------------------------------- the screen

  /** `on_video_paused(false)` */
  function OnUnpaused(s: State, starts: bool): Result
    decreases Rank(s), 3
  {
    var t := s.(didPause := false);
    if t.capturer.Some? then Reset(t, starts) else Result(t, false)
  }

  /** `reset_instance` */
  function ResetInstance(s: State): State {
    if s.capturer.None? then s.(failed := true)
    else
      s.(capturer := None, screenAdder := None,
         screens := if s.screenAdder.Some? then Without(s.screens, s.screenAdder.value) else s.screens,
         failed := s.failed || s.screenAdder.None? || s.screenAdder.value !in s.screens)
  }

  function UnpauseVideo(s: State, starts: bool): Result
    decreases Rank(s), 1
  {
    if s.didPause then Pause(s.(didPause := false), false, starts) else Result(s, false)
  }

  /** `desktop_sharing::reset` */
  function Reset(s: State, starts: bool): Result
    decreases Rank(s), 2
  {
    UnpauseVideo(ResetInstance(s), starts)
  }

  function PauseVideo(s: State): State {
    if s.didPause || s.video.lastId.None? || s.video.paused then s
    else Pause(s, true, true).state.(didPause := true)
  }

  /** A screen that can be captured is shared. */
  function Shared(s: State): State {
    var n := s.next;
    var t := PauseVideo(s.(capturer := Some(n), next := n + 1));
    t.(screenAdder := Some(n), screens := t.screens + [n], failed := t.failed || n in t.screens)
  }

  /** `desktop_sharing::set` */
  function Share(s: State, opens: bool, starts: bool): Result {
    var r := if s.capturer.Some? then Reset(s, starts) else Result(s, false);
    if r.thrown then r
    else if opens then Result(Shared(r.state), false)
    else Result(r.state, true)
  }

  // ---------------------------------------------------------------- runs

  function Step(s: State, event: Event): State {
    match event
    case Pauses(paused, starts) => Pause(s, paused, starts).state
    case Changes(id, starts) => Change(s, id, starts).state
    case DevicesChange(available) =>
      if s.video.lastId.Some? && s.video.lastId.value !in available then ResetCurrent(s) else s
    case Shares(opens, starts) => Share(s, opens, starts).state
    case Resets(starts) => Reset(s, starts).state
    case ScreenStops => if s.capturer.Some? then ResetInstance(s) else s
    case LeavesRoom => if s.capturer.Some? then ResetInstance(s) else s
  }

  function Run(s: State, events: seq<Event>): State
    decreases events
  {
    if events == [] then s else Run(Step(s, events[0]), events[1..])
  }

  // ---------------------------------------------------------------- one camera, everywhere or nowhere

  /** Capture device, adder, its registration and the own-video list are all there, or none is; a device that captures
      is the recorded one and not paused. */
  predicate Consistent(v: Video) {
    match v.capturing
    case None => v.adder.None? && v.registered == [] && v.own == []
    case Some(device) =>
      && v.adder == Some(device.source) && v.registered == [device.source] && v.own == [device.source]
      && v.lastId == Some(device.id) && !v.paused
  }

  /** The shared screen and its adder go together. Sources are numbered as they are made. */
  predicate ScreenOk(s: State) {
    && s.screenAdder == s.capturer
    && s.screens == (if s.capturer.Some? then [s.capturer.value] else [])
    && (s.capturer.Some? ==> s.capturer.value < s.next)
  }

  /** The source that was announced last is the one there is. */
  predicate Told(s: State) {
    s.video.capturing == if s.seen == [] then None else s.seen[|s.seen| - 1].capturing
  }

  ghost predicate CameraOk(s: State) {
    && Consistent(s.video) && Told(s)
    && (s.video.capturing.Some? ==> s.video.capturing.value.source < s.next)
    && forall i :: 0 <= i < |s.seen| ==> Consistent(s.seen[i])
  }

  ghost predicate Inv(s: State) {
    CameraOk(s) && ScreenOk(s)
  }

  /** What the camera's operations leave alone. */
  predicate SameScreen(s: State, t: State) {
    t.capturer == s.capturer && t.screenAdder == s.screenAdder && t.screens == s.screens && t.didPause == s.didPause
  }

  lemma WithoutOnly(n: nat)
    ensures Without([n], n) == []
  {
    assert Find([n], n) == 0;
  }

  /** The camera with nothing captured or registered. */
  function Idle(v: Video): Video {
    v.(capturing := None, adder := None, registered := [], own := [])
  }

  /** Releasing finds all there is to release, also once the pause is noted. */
  lemma ReleasedIs(v: Video)
    requires Consistent(v.(paused := false))
    ensures Released(v) == Idle(v) && !ReleaseFails(v)
  {
    if v.capturing.Some? { WithoutOnly(v.capturing.value.source); }
  }

  lemma ResetCaptureIs(s: State)
    requires Consistent(s.video.(paused := false))
    ensures ResetCapture(s) == s.(video := Idle(s.video))
  {
    ReleasedIs(s.video);
  }

  lemma ResetCurrentVideo(s: State)
    requires Inv(s)
    ensures ResetCurrent(s) == Observed(s.(video := Idle(s.video).(lastId := None)))
  {
    ResetCaptureIs(s);
  }

  lemma StartedIs(s: State, id: string)
    requires Inv(s) && s.video.capturing.None? && !s.video.paused && s.video.lastId == Some(id)
    ensures var t := Started(s, id);
      && Inv(t) && SameScreen(s, t) && t.failed == s.failed && t.video.capturing == Some(Device(id, s.next))
      && t.next == s.next + 1 && t.video.lastId == Some(id)
  {
  }

  lemma ResetCurrentIs(s: State)
    requires Inv(s)
    ensures var t := ResetCurrent(s);
      && Inv(t) && SameScreen(s, t) && t.failed == s.failed && t.video.capturing.None? && t.video.lastId.None?
      && t.video.paused == s.video.paused && t.next == s.next
  {
    ResetCurrentVideo(s);
  }

  lemma StartChosenIs(s: State, id: string, starts: bool)
    requires Inv(s) && s.video.capturing.None?
    ensures var r := StartChosen(s, id, starts);
      && Inv(r.state) && SameScreen(s, r.state) && r.state.failed == s.failed
      && r.thrown == (!starts && !s.video.paused)
      && r.state.video.lastId == (if r.thrown then None else Some(id))
      && (r.state.video.capturing.Some? <==> !r.thrown && !s.video.paused)
      && (r.state.video.capturing.Some? ==> r.state.video.capturing == Some(Device(id, s.next)))
      && s.next <= r.state.next
  {
    var u := s.(video := s.video.(lastId := Some(id)));
    if starts && !s.video.paused { StartedIs(u, id); }
  }

  lemma ChangeIs(s: State, id: string, starts: bool)
    requires Inv(s)
    ensures var r := Change(s, id, starts);
      && Inv(r.state) && SameScreen(s, r.state) && r.state.failed == s.failed
      && r.thrown == (!starts && !s.video.paused && !SameCamera(s, id))
      && r.state.video.lastId == (if r.thrown then None else Some(id))
      && (r.state.video.capturing.Some? <==> !r.thrown && !s.video.paused)
      && (if SameCamera(s, id) then r.state == s
          else r.state.video.capturing.Some? ==> r.state.video.capturing == Some(Device(id, s.next)))
      && s.next <= r.state.next
  {
    if !SameCamera(s, id) {
      ResetCurrentIs(s);
      StartChosenIs(if s.video.capturing.Some? then ResetCurrent(s) else s, id, starts);
    }
  }

  lemma ResetInstanceIs(s: State)
    requires ScreenOk(s)
    ensures var t := ResetInstance(s);
      && ScreenOk(t) && t.capturer.None? && t.didPause == s.didPause && t.video == s.video && t.seen == s.seen
      && t.next == s.next && t.failed == (s.failed || s.capturer.None?)
  {
    if s.capturer.Some? { WithoutOnly(s.capturer.value); }
  }

  /** Going on after an unpause: the screen goes. */
  lemma OnUnpausedIs(s: State, starts: bool)
    requires Inv(s) && !s.video.paused
    ensures var r := OnUnpaused(s, starts);
      && Inv(r.state) && !r.thrown && r.state.failed == s.failed && r.state.video == s.video
      && r.state.capturer.None? && !r.state.didPause && r.state.next == s.next
  {
    var t := s.(didPause := false);
    ResetInstanceIs(t);
    var u := ResetInstance(t);
    assert UnpauseVideo(u, starts) == Result(u, false);
    assert Reset(t, starts) == Result(u, false);
  }

  /** The camera after `pause(false)` when it was paused. */
  lemma UnpausedIs(s: State, starts: bool)
    requires Inv(s) && s.video.paused
    ensures var r := Pause(s, false, starts);
      && Inv(r.state) && r.state.failed == s.failed && !r.state.video.paused && s.next <= r.state.next
      && r.thrown == (s.video.lastId.Some? && !starts)
      && r.state.video.lastId == (if starts then s.video.lastId else None)
      && (r.state.video.capturing.Some? <==> s.video.lastId.Some? && starts)
      && (if s.video.lastId.Some? && starts then r.state.capturer.None? && !r.state.didPause
          else SameScreen(s, r.state))
  {
    var t := s.(video := s.video.(paused := false));
    if t.video.lastId.Some? {
      ChangeIs(t, t.video.lastId.value, starts);
      var c := Change(t, t.video.lastId.value, starts);
      if !c.thrown { OnUnpausedIs(c.state, starts); }
    }
  }

  /** The camera after `pause(true)` when it was not paused. */
  lemma PausedIs(s: State, starts: bool)
    requires Inv(s) && !s.video.paused
    ensures var r := Pause(s, true, starts);
      && Inv(r.state) && r.state.failed == s.failed && r.state.video.paused && !r.thrown && SameScreen(s, r.state)
      && r.state.video.lastId == s.video.lastId && r.state.video.capturing.None? && r.state.next == s.next
  {
    ResetCaptureIs(s.(video := s.video.(paused := true)));
  }

  lemma ResetIs(s: State, starts: bool)
    requires Inv(s)
    ensures var r := Reset(s, starts);
      && Inv(r.state) && r.state.failed == (s.failed || s.capturer.None?)
      && r.state.capturer.None? && !r.state.didPause && s.next <= r.state.next
      && (!(s.didPause && s.video.paused) ==> !r.thrown && r.state.video == s.video)
      && (s.didPause && s.video.paused ==>
            && r.thrown == (s.video.lastId.Some? && !starts) && !r.state.video.paused
            && r.state.video.lastId == (if starts then s.video.lastId else None)
            && (r.state.video.capturing.Some? <==> s.video.lastId.Some? && starts))
  {
    ResetInstanceIs(s);
    var t := ResetInstance(s);
    var u := t.(didPause := false);
    if t.didPause {
      assert UnpauseVideo(t, starts) == Pause(u, false, starts);
      if t.video.paused { UnpausedIs(u, starts); } else { assert Pause(u, false, starts) == Result(u, false); }
    } else {
      assert UnpauseVideo(t, starts) == Result(t, false);
    }
  }

  /** The camera is paused for a screen, if it is there and nobody paused it. */
  lemma PauseVideoIs(s: State)
    requires CameraOk(s)
    ensures var t := PauseVideo(s); var pauses := !s.didPause && s.video.lastId.Some? && !s.video.paused;
      && CameraOk(t) && t == s.(video := t.video, seen := t.seen, didPause := s.didPause || pauses)
      && t.video.lastId == s.video.lastId && t.video.paused == (s.video.paused || pauses)
      && (!pauses ==> t.video == s.video)
  {
    ReleasedIs(s.video.(paused := true));
  }

  lemma SharedIs(s: State)
    requires Inv(s) && s.capturer.None?
    ensures var t := Shared(s);
      && Inv(t) && t.failed == s.failed && t.capturer == Some(s.next) && t.video.lastId == s.video.lastId
      && t.video.paused == (s.video.paused || (!s.didPause && s.video.lastId.Some?))
      && t.didPause == (s.didPause || (s.video.lastId.Some? && !s.video.paused))
      && (t.video.paused == s.video.paused ==> t.video == s.video)
  {
    PauseVideoIs(s.(capturer := Some(s.next), next := s.next + 1));
  }

  /** Sharing fails if the screen cannot be captured, or the camera that was paused for the one before does not start
      again; otherwise a new screen is shared, and a camera that is set is paused for it unless it is already. */
  lemma ShareIs(s: State, opens: bool, starts: bool)
    requires Inv(s)
    ensures Step(s, Shares(opens, starts)) == Share(s, opens, starts).state
    ensures var r := Share(s, opens, starts);
      && Inv(r.state) && r.state.failed == s.failed
      && r.thrown == (!opens || (s.capturer.Some? && s.didPause && s.video.paused && s.video.lastId.Some? && !starts))
      && (r.thrown ==> r.state.capturer.None?)
      && (!r.thrown ==> r.state.capturer.Some? && r.state.capturer != s.capturer)
      && (!r.thrown && s.capturer.None? ==>
            && r.state.video.lastId == s.video.lastId
            && r.state.video.paused == (s.video.paused || (!s.didPause && s.video.lastId.Some?))
            && r.state.didPause == (s.didPause || (s.video.lastId.Some? && !s.video.paused)))
  {
    if s.capturer.Some? { ResetIs(s, starts); }
    var r := if s.capturer.Some? then Reset(s, starts) else Result(s, false);
    if !r.thrown { SharedIs(r.state); }
  }

  /** When the capturer finishes by itself or the room is left, no screen is shared any more, and the camera is left as
      it is: it stays paused. */
  lemma ScreenEnds(s: State, event: Event)
    requires Inv(s) && (event.ScreenStops? || event.LeavesRoom?)
    ensures var t := Step(s, event);
      t.capturer.None? && t.screens == [] && t.video == s.video && t.didPause == s.didPause && t.failed == s.failed
  {
    ResetInstanceIs(s);
  }

  /** An event keeps the invariant, and an assertion fails in it exactly if that is said. */
  ghost predicate Keeps(s: State, event: Event, fails: bool) {
    Inv(Step(s, event)) && Step(s, event).failed == (s.failed || fails)
  }

  lemma PauseKeepsInv(s: State, paused: bool, starts: bool)
    requires Inv(s)
    ensures Keeps(s, Pauses(paused, starts), false)
  {
    if s.video.paused && !paused { UnpausedIs(s, starts); }
    if !s.video.paused && paused { PausedIs(s, starts); }
  }

  lemma CameraKeepsInv(s: State, event: Event)
    requires Inv(s) && (event.Changes? || event.DevicesChange?)
    ensures Keeps(s, event, false)
  {
    if event.Changes? { ChangeIs(s, event.id, event.starts); } else { ResetCurrentIs(s); }
  }

  lemma ScreenKeepsInv(s: State, event: Event)
    requires Inv(s) && (event.Shares? || event.Resets? || event.ScreenStops? || event.LeavesRoom?)
    ensures Keeps(s, event, event.Resets? && s.capturer.None?)
  {
    match event
    case Shares(opens, starts) => ShareIs(s, opens, starts);
    case Resets(starts) => ResetIs(s, starts);
    case _ => ResetInstanceIs(s);
  }

  /** In every run, whatever devices fail, everything about the camera is there or nothing, at each announcement of a
      changed source and after each call; and the only assertion that can fail is the one in a `reset` without a
      shared screen. */
  lemma StepKeepsInv(s: State, event: Event)
    requires Inv(s)
    ensures Inv(Step(s, event))
    ensures Step(s, event).failed <==> s.failed || (event.Resets? && s.capturer.None?)
  {
    if event.Pauses? {
      PauseKeepsInv(s, event.paused, event.starts);
    } else if event.Changes? || event.DevicesChange? {
      CameraKeepsInv(s, event);
    } else {
      ScreenKeepsInv(s, event);
    }
  }

  lemma {:induction false} SetUpKeepsInv(s: State, devices: seq<(string, bool)>)
    requires Inv(s)
    ensures Inv(SetUp(s, devices)) && SameScreen(s, SetUp(s, devices)) && SetUp(s, devices).failed == s.failed
    decreases devices
  {
    if devices != [] {
      var c := Change(s, devices[0].0, devices[0].1);
      ChangeIs(s, devices[0].0, devices[0].1);
      if c.thrown { SetUpKeepsInv(c.state, devices[1..]); }
    }
  }

  lemma {:induction false} SetUpFrom(s: State, devices: seq<(string, bool)>, first: nat)
    requires Inv(s) && s.video.capturing.None? && s.video.lastId.None? && !s.video.paused
    requires first <= |devices| && forall i :: 0 <= i < first ==> !devices[i].1
    requires first < |devices| ==> devices[first].1
    ensures var v := SetUp(s, devices).video;
      && v.lastId == (if first < |devices| then Some(devices[first].0) else None)
      && (v.capturing.Some? <==> v.lastId.Some?)
    decreases devices
  {
    if devices != [] {
      var c := Change(s, devices[0].0, devices[0].1);
      ChangeIs(s, devices[0].0, devices[0].1);
      if c.thrown { SetUpFrom(c.state, devices[1..], first - 1); }
    }
  }

  /** The first device that starts is the one that captures, and none if none starts. */
  lemma FirstThatStarts(devices: seq<(string, bool)>, first: nat)
    requires first <= |devices| && forall i :: 0 <= i < first ==> !devices[i].1
    requires first < |devices| ==> devices[first].1
    ensures var capturing := SetUp(START, devices).video.capturing;
      if first < |devices| then capturing.Some? && capturing.value.id == devices[first].0 else capturing.None?
  {
    SetUpFrom(START, devices, first);
    SetUpKeepsInv(START, devices);
  }

  /** Choosing the camera that captures already changes nothing; another that starts takes its place, as a new
      source. */
  lemma ChoosingACamera(s: State, id: string, starts: bool)
    requires Inv(s) && s.video.capturing.Some?
    ensures var t, was := Step(s, Changes(id, starts)), s.video.capturing.value;
      && (id == was.id ==> t == s)
      && (id != was.id && starts ==>
            && t.video.capturing.Some? && t.video.capturing.value.id == id
            && t.video.capturing.value.source != was.source)
      && (id != was.id && !starts ==> t.video.capturing.None? && t.video.lastId.None?)
  {
    ChangeIs(s, id, starts);
  }

  lemma {:induction false} RunKeepsInv(s: State, events: seq<Event>)
    requires Inv(s)
    ensures Inv(Run(s, events))
    decreases events
  {
    if events != [] {
      StepKeepsInv(s, events[0]);
      RunKeepsInv(Step(s, events[0]), events[1..]);
    }
  }

  /** From the start, with any devices and any calls: consistent at every announcement and after every call. */
  lemma CameraIsEverywhereOrNowhere(devices: seq<(string, bool)>, events: seq<Event>)
    ensures var s := Run(SetUp(START, devices), events);
      && Consistent(s.video) && |s.video.own| <= 1 && ScreenOk(s) && Told(s)
      && forall i :: 0 <= i < |s.seen| ==> Consistent(s.seen[i])
  {
    SetUpKeepsInv(START, devices);
    RunKeepsInv(SetUp(START, devices), events);
  }

  // ---------------------------------------------------------------- sharing pauses the camera

  predicate SharingPauses(s: State) {
    s.capturer.Some? ==> s.video.paused
  }

  /** The calls after which a screen is shared although the camera is not paused: unpausing without telling anyone, for
      want of a device, and sharing when there is no device to pause, or none believed to need it. */
  predicate Overlaps(s: State, event: Event) {
    match event
    case Pauses(paused, starts) => !paused && s.capturer.Some? && (s.video.lastId.None? || !starts)
    case Shares(opens, _) =>
      && opens
      && if s.capturer.Some? then s.didPause && s.video.lastId.None?
         else !s.video.paused && (s.didPause || s.video.lastId.None?)
    case _ => false
  }

  lemma StepSharingPauses(s: State, event: Event)
    requires Inv(s) && SharingPauses(s)
    ensures SharingPauses(Step(s, event)) <==> !Overlaps(s, event)
  {
    match event
    case Pauses(paused, starts) =>
      if s.video.paused && !paused { UnpausedIs(s, starts); }
      if !s.video.paused && paused { PausedIs(s, starts); }
    case Changes(id, starts) => ChangeIs(s, id, starts);
    case DevicesChange(available) => ResetCurrentIs(s);
    case Shares(opens, starts) =>
      var r := if s.capturer.Some? then Reset(s, starts) else Result(s, false);
      if s.capturer.Some? { ResetIs(s, starts); }
      if opens && !r.thrown { SharedIs(r.state); }
    case Resets(starts) => ResetIs(s, starts);
    case _ => ResetInstanceIs(s);
  }

  ghost predicate SharingPausesThroughout(s: State, events: seq<Event>)
    decreases events
  {
    SharingPauses(s) && (events != [] ==> SharingPausesThroughout(Step(s, events[0]), events[1..]))
  }

  predicate NeverOverlaps(s: State, events: seq<Event>)
    decreases events
  {
    events != [] ==> !Overlaps(s, events[0]) && NeverOverlaps(Step(s, events[0]), events[1..])
  }

  /** In any run the camera is paused whenever a screen is shared, if and only if none of those calls is made. */
  lemma {:induction false} SharingPausesTheCamera(s: State, events: seq<Event>)
    requires Inv(s) && SharingPauses(s)
    ensures SharingPausesThroughout(s, events) <==> NeverOverlaps(s, events)
    decreases events
  {
    if events != [] {
      StepKeepsInv(s, events[0]);
      StepSharingPauses(s, events[0]);
      if !Overlaps(s, events[0]) { SharingPausesTheCamera(Step(s, events[0]), events[1..]); }
    }
  }

  /** ... and so in every run from the start, whatever devices there are. */
  lemma SharingPausesFromTheStart(devices: seq<(string, bool)>, events: seq<Event>)
    ensures var s := SetUp(START, devices); SharingPausesThroughout(s, events) <==> NeverOverlaps(s, events)
  {
    SetUpKeepsInv(START, devices);
    SharingPausesTheCamera(SetUp(START, devices), events);
  }

  // ---------------------------------------------------------------- whose pause it is

  /** While a device stays set and starts: the pause the others asked for last, and the pause of the shared screen. */
  predicate Accounted(s: State, outside: bool) {
    && s.video.lastId.Some? && SharingPauses(s)
    && (s.video.capturing.Some? <==> !s.video.paused)
    && s.video.paused == (outside || s.didPause) && !(outside && s.didPause)
  }

  predicate Smooth(s: State, event: Event) {
    match event
    case Pauses(_, starts) => starts
    case Changes(_, starts) => starts
    case DevicesChange(available) => s.video.lastId.Some? && s.video.lastId.value in available
    case Shares(_, starts) => starts
    case Resets(starts) => starts
    case _ => true
  }

  function Outside(outside: bool, event: Event): bool {
    if event.Pauses? then event.paused else outside
  }

  /** Others pause what is paused for the shared screen: the call returns before it is noted anywhere. */
  predicate LosesPause(s: State, event: Event) {
    event.Pauses? && event.paused && s.didPause
  }

  lemma StepAccounts(s: State, outside: bool, event: Event)
    requires Inv(s) && Accounted(s, outside) && Smooth(s, event)
    ensures Accounted(Step(s, event), Outside(outside, event)) <==> !LosesPause(s, event)
  {
    match event
    case Pauses(paused, starts) =>
      if s.video.paused && !paused { UnpausedIs(s, starts); }
      if !s.video.paused && paused { PausedIs(s, starts); }
    case Changes(id, starts) => ChangeIs(s, id, starts);
    case DevicesChange(available) =>
    case Shares(opens, starts) =>
      var r := if s.capturer.Some? then Reset(s, starts) else Result(s, false);
      if s.capturer.Some? { ResetIs(s, starts); }
      if opens { SharedIs(r.state); }
    case Resets(starts) => ResetIs(s, starts);
    case _ => ResetInstanceIs(s);
  }

  ghost predicate AccountedThroughout(s: State, outside: bool, events: seq<Event>)
    decreases events
  {
    && Accounted(s, outside)
    && (events != [] ==> AccountedThroughout(Step(s, events[0]), Outside(outside, events[0]), events[1..]))
  }

  predicate AllSmooth(s: State, events: seq<Event>)
    decreases events
  {
    events != [] ==> Smooth(s, events[0]) && AllSmooth(Step(s, events[0]), events[1..])
  }

  predicate NeverLosesPause(s: State, events: seq<Event>)
    decreases events
  {
    events != [] ==> !LosesPause(s, events[0]) && NeverLosesPause(Step(s, events[0]), events[1..])
  }

  /** While a device stays set and starts, the camera is paused exactly when others paused it or the shared screen did,
      and each pause has one owner, in every run in which no one pauses what the shared screen has paused. */
  lemma {:induction false} EveryPauseIsAccountedFor(s: State, outside: bool, events: seq<Event>)
    requires Inv(s) && Accounted(s, outside) && AllSmooth(s, events)
    ensures AccountedThroughout(s, outside, events) <==> NeverLosesPause(s, events)
    decreases events
  {
    if events != [] {
      StepKeepsInv(s, events[0]);
      StepAccounts(s, outside, events[0]);
      if !LosesPause(s, events[0]) {
        EveryPauseIsAccountedFor(Step(s, events[0]), Outside(outside, events[0]), events[1..]);
      }
    }
  }

  lemma {:induction false} SetUpAccounts(s: State, devices: seq<(string, bool)>)
    requires Inv(s) && s.video.capturing.None? && !s.video.paused && s.capturer.None? && !s.didPause
    requires exists i :: 0 <= i < |devices| && devices[i].1
    ensures Accounted(SetUp(s, devices), false)
    decreases devices
  {
    var c := Change(s, devices[0].0, devices[0].1);
    ChangeIs(s, devices[0].0, devices[0].1);
    ChangeKeepsPaused(s, devices[0].0, devices[0].1);
    if c.thrown {
      var i :| 0 <= i < |devices| && devices[i].1;
      assert devices[1..][i - 1].1;
      SetUpAccounts(c.state, devices[1..]);
    }
  }

  lemma ChangeKeepsPaused(s: State, id: string, starts: bool)
    ensures Change(s, id, starts).state.video.paused == s.video.paused
  {
  }

  /** ... and so in every run from a set-up with some device that starts. */
  lemma PausesAreAccountedForFromTheStart(devices: seq<(string, bool)>, events: seq<Event>)
    requires exists i :: 0 <= i < |devices| && devices[i].1
    requires AllSmooth(SetUp(START, devices), events)
    ensures var s := SetUp(START, devices); AccountedThroughout(s, false, events) <==> NeverLosesPause(s, events)
  {
    SetUpKeepsInv(START, devices);
    SetUpAccounts(START, devices);
    EveryPauseIsAccountedFor(SetUp(START, devices), false, events);
  }

  /** A pause asked for while a screen is shared is lost: the camera captures once the sharing ends. */
  lemma LostPauseShows(s: State, event: Event)
    requires Inv(s) && Accounted(s, false) && LosesPause(s, event)
    ensures var t := Step(Step(s, event), Resets(true)); !t.video.paused && t.video.capturing.Some?
  {
    ResetIs(s, true);
  }

  predicate OfTheScreen(event: Event) {
    event.Shares? || event.Resets? || event.ScreenStops?
  }

  lemma {:induction false} RunAccounts(s: State, outside: bool, events: seq<Event>)
    requires Inv(s) && Accounted(s, outside) && AllSmooth(s, events)
    requires forall i :: 0 <= i < |events| ==> OfTheScreen(events[i])
    ensures Inv(Run(s, events)) && Accounted(Run(s, events), outside)
    decreases events
  {
    if events != [] {
      StepKeepsInv(s, events[0]);
      StepAccounts(s, outside, events[0]);
      RunAccounts(Step(s, events[0]), outside, events[1..]);
    }
  }

  /** However screens are shared, replaced and lost, once the sharing is reset the camera is as the others left it. */
  lemma ResetRestoresTheCamera(s: State, outside: bool, events: seq<Event>)
    requires Inv(s) && Accounted(s, outside) && AllSmooth(s, events)
    requires forall i :: 0 <= i < |events| ==> OfTheScreen(events[i])
    ensures var t := Step(Run(s, events), Resets(true));
      t.video.paused == outside && (t.video.capturing.Some? <==> !outside) && !t.didPause && t.capturer.None?
  {
    RunAccounts(s, outside, events);
    var u := Run(s, events);
    StepKeepsInv(u, Resets(true));
    StepAccounts(u, outside, Resets(true));
    ResetIs(u, true);
  }

  // ---------------------------------------------------------------- the objects

  class OutgoingMedia {
    // `video_settings`, with what it registers elsewhere
    var capturing: Option<Device>
    var adder: Option<nat>
    var registered: seq<nat>
    var own: seq<nat>
    var lastId: Option<string>
    var paused: bool
    // `desktop_sharing_impl`
    var capturer: Option<nat>
    var screenAdder: Option<nat>
    var screens: seq<nat>
    var didPause: bool

    var next: nat
    var seen: seq<Video>
    var failed: bool

    function Camera(): Video
      reads this
    {
      Video(capturing, adder, registered, own, lastId, paused)
    }

    ghost function View(): State
      reads this
    {
      State(Camera(), capturer, screenAdder, screens, didPause, next, seen, failed)
    }

    constructor ()
      ensures View() == START
    {
      capturing, adder, registered, own, lastId, paused := None, None, [], [], None, false;
      capturer, screenAdder, screens, didPause, next, seen, failed := None, None, [], false, 0, [], false;
    }

    method Announce()
      modifies this`seen
      ensures View() == Observed(old(View()))
    {
      seen := seen + [Camera()];
    }

    /** `std::find`, an assertion that it was found, and `erase`. */
    method Erase(list: seq<nat>, x: nat) returns (rest: seq<nat>)
      modifies this`failed
      ensures rest == Without(list, x)
      ensures failed == (old(failed) || x !in list)
    {
      var found := FindIn(list, x);
      if found == |list| {
        failed := true;
        return list;
      }
      return list[..found] + list[found + 1..];
    }

    method FindIn(list: seq<nat>, x: nat) returns (found: nat)
      ensures found == Find(list, x)
    {
      found := 0;
      while found < |list| && list[found] != x
        invariant found <= |list| && forall k :: 0 <= k < found ==> list[k] != x
      {
        found := found + 1;
      }
    }

    /** The adder is removed from the tracks adder and dropped. */
    method Unregister()
      modifies this`registered, this`adder, this`failed
      ensures adder == None
      ensures registered == if old(adder).Some? then Without(old(registered), old(adder).value) else old(registered)
      ensures failed == (old(failed) || old(adder).None? || old(adder).value !in old(registered))
    {
      if adder.None? {
        failed := true;
      } else {
        registered := Erase(registered, adder.value);
      }
      adder := None;
    }

    method ResetCurrentCapture()
      modifies this`capturing, this`registered, this`adder, this`own, this`failed
      ensures Camera() == Released(old(Camera())) && failed == (old(failed) || ReleaseFails(old(Camera())))
    {
      if capturing.None? { return; }
      var source := capturing.value.source;
      Unregister();
      own := Erase(own, source);
      capturing := None;
    }

    method ResetCurrentVideo()
      modifies this
      ensures View() == ResetCurrent(old(View()))
    {
      ResetCurrentCapture();
      lastId := None;
      Announce();
    }

    method StartCamera(id: string)
      modifies this`capturing, this`registered, this`adder, this`own, this`next, this`failed
      ensures Camera() == Taken(old(Camera()), id, old(next)) && next == old(next) + 1
      ensures failed == (old(failed) || old(next) in old(registered) || old(next) in old(own))
    {
      capturing := Some(Device(id, next));
      adder := Some(next);
      failed := failed || next in registered || next in own;
      registered := registered + [next];
      own := own + [next];
      next := next + 1;
    }

    method ChangeToDevice(id: string, starts: bool) returns (thrown: bool)
      modifies this
      ensures Result(View(), thrown) == Change(old(View()), id, starts)
    {
      if capturing.Some? {
        if capturing.value.id == id { return false; }
        ResetCurrentVideo();
      }
      lastId := Some(id);
      if paused { return false; }
      if !starts {
        lastId := None;
        Announce();
        return true;
      }
      StartCamera(id);
      Announce();
      return false;
    }

    method SetUpInitialDevice(devices: seq<(string, bool)>)
      modifies this
      ensures View() == SetUp(old(View()), devices)
    {
      var i := 0;
      while i < |devices|
        invariant i <= |devices| && SetUp(View(), devices[i..]) == SetUp(old(View()), devices)
      {
        var thrown := ChangeToDevice(devices[i].0, devices[i].1);
        if !thrown { break; }
        assert devices[i..][1..] == devices[i + 1..];
        i := i + 1;
      }
    }

    method SetPaused(newPaused: bool, starts: bool) returns (thrown: bool)
      modifies this
      ensures Result(View(), thrown) == Pause(old(View()), newPaused, starts)
      decreases if paused then 2 else 1, 0
    {
      if paused == newPaused { return false; }
      paused := newPaused;
      if paused {
        ResetCurrentCapture();
        Announce();
      } else {
        if lastId.None? { return false; }
        thrown := ChangeToDevice(lastId.value, starts);
        if thrown { return; }
      }
      thrown := OnVideoPaused(starts);
    }

    /** Afterwards only a device that is available is recorded or captures, and the source announced last is the one
        there is. */
    method OnVideosChanged(available: set<string>)
      requires Inv(View())
      modifies this
      ensures View() == Step(old(View()), DevicesChange(available)) && Inv(View()) && failed == old(failed)
      ensures (lastId.Some? ==> lastId.value in available) && (capturing.Some? ==> capturing.value.id in available)
      ensures old(lastId.Some? && lastId.value in available) ==> View() == old(View())
    {
      StepKeepsInv(View(), DevicesChange(available));
      if lastId.None? || lastId.value in available { return; }
      ResetCurrentVideo();
    }

    /** What `on_paused` sets off. */
    method OnVideoPaused(starts: bool) returns (thrown: bool)
      modifies this
      ensures Result(View(), thrown) ==
        if old(paused) then Result(old(View()), false) else OnUnpaused(old(View()), starts)
      decreases if paused then 0 else 1, 3
    {
      if didPause && !paused { didPause := false; }
      thrown := false;
      if !paused && capturer.Some? { thrown := ResetSharing(starts); }
    }

    /** `stop_or_reset`, or `reset_instance` when the capturer finished by itself. */
    method ResetScreen()
      modifies this
      ensures View() == ResetInstance(old(View()))
    {
      if capturer.None? {
        failed := true;
        return;
      }
      var moved := screenAdder;
      capturer, screenAdder := None, None;
      if moved.None? {
        failed := true;
      } else {
        screens := Erase(screens, moved.value);
      }
    }

    method ResetSharing(starts: bool) returns (thrown: bool)
      modifies this
      ensures Result(View(), thrown) == Reset(old(View()), starts)
      decreases if paused then 2 else 1, 2
    {
      ResetScreen();
      thrown := UnpauseCamera(starts);
    }

    method UnpauseCamera(starts: bool) returns (thrown: bool)
      modifies this
      ensures Result(View(), thrown) == UnpauseVideo(old(View()), starts)
      decreases if paused then 2 else 1, 1
    {
      if !didPause { return false; }
      didPause := false;
      thrown := SetPaused(false, starts);
    }

    method PauseCamera()
      modifies this
      ensures View() == PauseVideo(old(View()))
    {
      if didPause || lastId.None? || paused { return; }
      var _ := SetPaused(true, true);
      didPause := true;
    }

    method SetSharing(opens: bool, starts: bool) returns (thrown: bool)
      modifies this
      ensures Result(View(), thrown) == Share(old(View()), opens, starts)
    {
      thrown := false;
      if capturer.Some? {
        thrown := ResetSharing(starts);
        if thrown { return; }
      }
      if !opens { return true; }
      ShareScreen();
    }

    method ShareScreen()
      modifies this
      ensures View() == Shared(old(View()))
    {
      var source := next;
      next := next + 1;
      capturer := Some(source);
      PauseCamera();
      AddScreen(source);
    }

    method AddScreen(source: nat)
      modifies this`screenAdder, this`screens, this`failed
      ensures screenAdder == Some(source) && screens == old(screens) + [source]
      ensures failed == (old(failed) || source in old(screens))
    {
      screenAdder := Some(source);
      failed := failed || source in screens;
      screens := screens + [source];
    }
  }
}
