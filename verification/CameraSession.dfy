/**
 * The capture session state machine of `CameraManagerAdapterImpl`: camera input, preview output and
 * capture session are opened, restarted and released over services that may refuse at every step.
 */
module CameraSession {
  import opened Options

  // CameraStatusAdapter: an override may store any 32-bit value in it, named or not.
  type Status = n: int | -0x8000_0000 <= n < 0x8000_0000

  const Appear: Status := 0
  const Disappear: Status := 1
  const Available: Status := 2
  const Unavailable: Status := 3

  datatype StopType = ToBack | Normal
  datatype FlashMode = FlashClose | FlashOpen | FlashAuto | FlashAlwaysOpen

  // What a stream is asked for: capture parameters and buffer listener.
  datatype Params = Params(width: int, height: int, pixelFormat: int)
  type Listener = nat
  datatype Config = Config(params: Params, listener: Listener)

  // The camera service: which handles it created and has not been told to release.
  datatype Service = Service(next: nat, inputs: set<nat>, outputs: map<nat, Config>, sessions: set<nat>)
  {
    function CreateInput(): Service { this.(next := next + 1, inputs := inputs + {next}) }
    function CreateOutput(c: Config): Service { this.(next := next + 1, outputs := outputs[next := c]) }
    function CreateSession(): Service { this.(next := next + 1, sessions := sessions + {next}) }
    function ReleaseInput(h: nat): Service { this.(inputs := inputs - {h}) }
    function ReleaseOutput(h: nat): Service { this.(outputs := outputs - {h}) }
    function ReleaseSession(h: nat): Service { this.(sessions := sessions - {h}) }
    function DropInput(h: Option<nat>): Service { if h.Some? then ReleaseInput(h.value) else this }
    function DropOutput(h: Option<nat>): Service { if h.Some? then ReleaseOutput(h.value) else this }
  }

  // The answers of the services during one call, in the order they are asked.
  datatype Answers = Answers(
    cameraFound: bool, inputCreated: bool, inputOpened: bool,
    surfaceCreated: bool, listenerCreated: bool, outputCreated: bool,
    sessionCreated: bool, inputAdded: bool, outputAdded: bool, committed: bool, started: bool)

  datatype Camera = Camera(
    manager: bool,
    input: Option<nat>,
    output: Option<nat>,
    session: Option<nat>,
    inputInited: bool,
    capturing: bool,
    flashing: bool,
    foreground: bool,
    status: Status,
    deviceId: string,
    params: Option<Params>,
    listener: Option<Listener>,
    service: Service)

  const Fresh := Camera(false, None, None, None, false, false, false, false, Available, "", None, None,
                        Service(0, {}, map[], {}))

  // ----- what the steps of a call do -----

  // No live input or output.
  function WithoutStream(s: Camera): Camera {
    s.(input := None, output := None, inputInited := false, status := Available,
       service := s.service.DropInput(s.input).DropOutput(s.output))
  }

  function ReleasedResource(s: Camera, deviceId: string): Camera {
    if s.deviceId == deviceId then WithoutStream(s) else s
  }

  function ReleasedSession(s: Camera): Camera {
    if s.session.Some? then s.(session := None, service := s.service.ReleaseSession(s.session.value)) else s
  }

  // A camera input can be opened now, and the services open it.
  predicate InputOpens(s: Camera, a: Answers) {
    && s.status != Unavailable && !s.inputInited && s.manager
    && a.cameraFound && a.inputCreated && a.inputOpened
  }

  function OpenedInput(s: Camera, deviceId: string): Camera {
    s.(input := Some(s.service.next), inputInited := true, deviceId := deviceId, service := s.service.CreateInput())
  }

  // A handle that failed to open was created and released.
  function FailedInput(s: Camera, a: Answers): Camera {
    if s.status != Unavailable && !s.inputInited && s.manager && a.cameraFound && a.inputCreated
    then s.(service := s.service.(next := s.service.next + 1))
    else s
  }

  predicate OutputOpens(a: Answers) {
    a.surfaceCreated && a.listenerCreated && a.outputCreated
  }

  function OpenedOutput(s: Camera, c: Config): Camera {
    s.(output := Some(s.service.next), params := Some(c.params), listener := Some(c.listener),
       service := s.service.CreateOutput(c))
  }

  predicate SessionStarts(a: Answers) {
    a.sessionCreated && a.inputAdded && a.outputAdded && a.committed && a.started
  }

  function StartedSession(s: Camera): Camera {
    s.(session := Some(s.service.next), status := Unavailable, capturing := true, service := s.service.CreateSession())
  }

  // A session that failed to start was created and released; the one held before is forgotten.
  function FailedSession(s: Camera, a: Answers): Camera {
    s.(session := None, service := if a.sessionCreated then s.service.(next := s.service.next + 1) else s.service)
  }

  datatype Result = Result(camera: Camera, ok: bool)

  // StartStreamInner, for a camera without a leftover input or output.
  function Started(s: Camera, deviceId: string, params: Option<Params>, listener: Option<Listener>, a: Answers)
    : Result
  {
    if !s.manager || params.None? || listener.None? then Result(s, false)
    else if !InputOpens(s, a) then Result(ReleasedResource(FailedInput(s, a), deviceId), false)
    else
      var s1 := OpenedInput(s, deviceId);
      if !OutputOpens(a) then Result(WithoutStream(s1), false)
      else
        var s2 := OpenedOutput(s1, Config(params.value, listener.value));
        if !SessionStarts(a) then Result(FailedSession(s2, a), false) else Result(StartedSession(s2), true)
  }

  function Restarted(s: Camera, a: Answers): Result {
    if !s.capturing then Result(s, true)
    else if !s.manager then Result(s, false)
    else
      var s1 := WithoutStream(s).(session := None);
      var r := Started(s1, s1.deviceId, s1.params, s1.listener, a);
      if r.ok then r else Result(ReleasedSession(WithoutStream(r.camera)), false)
  }

  function Stopped(s: Camera, stopType: StopType): Camera {
    if s.status == Available then s
    else
      var s1 := ReleasedSession(WithoutStream(s));
      if stopType == Normal then s1.(capturing := false, flashing := false) else s1
  }

  function ManagerReleased(s: Camera): Camera {
    ReleasedSession(WithoutStream(s)).(manager := false, foreground := false)
  }

  function FlashSet(s: Camera, mode: FlashMode, accepted: bool): Camera {
    if s.session.None? || !accepted then s
    else if mode == FlashAlwaysOpen then s.(flashing := true)
    else if mode == FlashClose then s.(flashing := false)
    else s
  }

  // ----- runs -----

  datatype Op =
    | Create(managerFound: bool)
    | StartStream(deviceId: string, params: Option<Params>, listener: Option<Listener>, answers: Answers)
    | RestartSession(answers: Answers)
    | StopSession(stopType: StopType)
    | ReleaseCameraManager
    | SetFlashMode(mode: FlashMode, accepted: bool)
    | SetCameraStatus(status: Status)
    | SetForegroundFlag(foreground: bool)

  function Step(s: Camera, op: Op): Camera {
    match op
    case Create(found) => s.(manager := s.manager || found)
    case StartStream(id, p, l, a) => Started(s, id, p, l, a).camera
    case RestartSession(a) => Restarted(s, a).camera
    case StopSession(t) => Stopped(s, t)
    case ReleaseCameraManager => ManagerReleased(s)
    case SetFlashMode(m, accepted) => FlashSet(s, m, accepted)
    case SetCameraStatus(st) => s.(status := st)
    case SetForegroundFlag(f) => s.(foreground := f)
  }

  function Run(s: Camera, ops: seq<Op>): Camera {
    if ops == [] then s else Step(Run(s, ops[..|ops| - 1]), ops[|ops| - 1])
  }

  function Handles(o: Option<nat>): set<nat> {
    if o.Some? then {o.value} else {}
  }

  // Exactly the held input and output are live; the flags say what is held.
  ghost predicate Inv(s: Camera) {
    && s.service.inputs == Handles(s.input)
    && s.service.outputs.Keys == Handles(s.output)
    && (s.inputInited <==> s.input.Some?)
    && (s.output.Some? ==> s.input.Some?)
    // the live output is the one the remembered parameters and listener asked for
    && (s.output.Some? ==> s.params.Some? && s.listener.Some?
                           && s.service.outputs[s.output.value] == Config(s.params.value, s.listener.value))
    && (s.session.Some? ==> s.capturing && s.session.value in s.service.sessions)
    && (s.flashing ==> s.capturing)
    && (s.capturing ==> s.params.Some? && s.listener.Some?)
    && (forall h :: h in s.service.inputs ==> h < s.service.next)
    && (forall h :: h in s.service.outputs ==> h < s.service.next)
    && (forall h :: h in s.service.sessions ==> h < s.service.next)
  }

  lemma WithoutStreamInv(s: Camera)
    requires Inv(s)
    ensures Inv(WithoutStream(s))
    ensures WithoutStream(s).service == s.service.(inputs := {}, outputs := map[])
  {
    var t := WithoutStream(s);
    assert t.service.inputs == {};
    assert t.service.outputs.Keys == {};
    assert t.service.outputs == map[];
  }

  lemma ReleasedSessionInv(s: Camera)
    requires Inv(s)
    ensures Inv(ReleasedSession(s))
  {
  }

  lemma OpenedInputInv(s: Camera, id: string)
    requires Inv(s) && s.input.None?
    ensures Inv(OpenedInput(s, id))
  {
    assert s.service.inputs + {s.service.next} == {s.service.next};
  }

  lemma OpenedOutputInv(s: Camera, c: Config)
    requires Inv(s) && s.input.Some? && s.output.None?
    ensures Inv(OpenedOutput(s, c))
  {
    assert OpenedOutput(s, c).service.outputs.Keys == {s.service.next};
  }

  lemma StartedSessionInv(s: Camera)
    requires Inv(s) && s.output.Some?
    ensures Inv(StartedSession(s))
  {
  }

  lemma StartedKeepsInv(s: Camera, id: string, p: Option<Params>, l: Option<Listener>, a: Answers)
    requires Inv(s)
    ensures Inv(Started(s, id, p, l, a).camera)
  {
    if s.manager && p.Some? && l.Some? {
      if !InputOpens(s, a) {
        var f := FailedInput(s, a);
        assert Inv(f);
        WithoutStreamInv(f);
      } else {
        var s1 := OpenedInput(s, id);
        OpenedInputInv(s, id);
        WithoutStreamInv(s1);
        var s2 := OpenedOutput(s1, Config(p.value, l.value));
        OpenedOutputInv(s1, Config(p.value, l.value));
        StartedSessionInv(s2);
      }
    }
  }

  lemma RestartedKeepsInv(s: Camera, a: Answers)
    requires Inv(s)
    ensures Inv(Restarted(s, a).camera)
  {
    if s.capturing && s.manager {
      var s1 := WithoutStream(s).(session := None);
      WithoutStreamInv(s);
      assert Inv(s1);
      StartedKeepsInv(s1, s1.deviceId, s1.params, s1.listener, a);
      var r := Started(s1, s1.deviceId, s1.params, s1.listener, a).camera;
      WithoutStreamInv(r);
      ReleasedSessionInv(WithoutStream(r));
    }
  }

  lemma StopKeepsInv(s: Camera, stopType: StopType)
    requires Inv(s)
    ensures Inv(Stopped(s, stopType))
  {
    WithoutStreamInv(s);
    ReleasedSessionInv(WithoutStream(s));
  }

  lemma ManagerReleaseKeepsInv(s: Camera)
    requires Inv(s)
    ensures Inv(ManagerReleased(s))
  {
    WithoutStreamInv(s);
    ReleasedSessionInv(WithoutStream(s));
  }

  lemma FlashKeepsInv(s: Camera, mode: FlashMode, accepted: bool)
    requires Inv(s)
    ensures Inv(FlashSet(s, mode, accepted))
  {
  }

  lemma FieldKeepsInv(s: Camera, manager: bool, status: Status, foreground: bool)
    requires Inv(s)
    ensures Inv(s.(manager := manager, status := status, foreground := foreground))
  {
  }

  lemma StepKeepsInv(s: Camera, op: Op)
    requires Inv(s)
    ensures Inv(Step(s, op))
  {
    match op
    case StartStream(id, p, l, a) => StartedKeepsInv(s, id, p, l, a);
    case RestartSession(a) => RestartedKeepsInv(s, a);
    case StopSession(t) => StopKeepsInv(s, t);
    case ReleaseCameraManager => ManagerReleaseKeepsInv(s);
    case Create(found) => FieldKeepsInv(s, s.manager || found, s.status, s.foreground);
    case SetFlashMode(m, accepted) => FlashKeepsInv(s, m, accepted);
    case SetCameraStatus(st) => FieldKeepsInv(s, s.manager, st, s.foreground);
    case SetForegroundFlag(f) => FieldKeepsInv(s, s.manager, s.status, f);
  }

  // MAIN: on every run, whatever the services answer and whatever SetCameraStatus says.
  lemma {:induction false} RunKeepsInv(ops: seq<Op>)
    ensures Inv(Run(Fresh, ops))
  {
    if ops != [] {
      RunKeepsInv(ops[..|ops| - 1]);
      StepKeepsInv(Run(Fresh, ops[..|ops| - 1]), ops[|ops| - 1]);
    }
  }

  // MAIN: releasing the manager after any run leaves no live input and no live output.
  lemma ManagerReleaseLeavesNoStream(ops: seq<Op>)
    ensures var s := Run(Fresh, ops + [ReleaseCameraManager]);
            s.service.inputs == {} && s.service.outputs == map[] && !s.manager && s.session.None?
  {
    var all := ops + [ReleaseCameraManager];
    assert all[..|all| - 1] == ops;
    RunKeepsInv(ops);
    RunKeepsInv(all);
    var s := Run(Fresh, all);
    assert s == ManagerReleased(Run(Fresh, ops));
    assert s.service.outputs.Keys == {};
  }

  // MAIN: a stream that starts, after any run, runs on an output created by this very call with this
  // call's parameters and listener; and it starts exactly when nothing is held, the camera is
  // not unavailable and every service agrees.
  lemma StartedStreamIsFresh(ops: seq<Op>, id: string, p: Option<Params>, l: Option<Listener>, a: Answers)
    ensures var s := Run(Fresh, ops);
            var r := Started(s, id, p, l, a);
            && (r.ok <==> s.manager && p.Some? && l.Some? && s.status != Unavailable && s.input.None?
                          && a.cameraFound && a.inputCreated && a.inputOpened && OutputOpens(a) && SessionStarts(a))
            && (r.ok ==>
                  && r.camera.output.Some?
                  && r.camera.output.value >= s.service.next
                  && r.camera.output.value !in s.service.outputs
                  && r.camera.service.outputs == map[r.camera.output.value := Config(p.value, l.value)]
                  && r.camera.session.Some? && r.camera.session.value !in s.service.sessions
                  && r.camera.status == Unavailable && r.camera.capturing && r.camera.deviceId == id)
  {
    RunKeepsInv(ops);
    var s := Run(Fresh, ops);
    assert s.output.None? ==> s.service.outputs == map[] by {
      assert s.output.None? ==> s.service.outputs.Keys == {};
    }
  }

  // ----- runs in which nobody overrides the status -----

  ghost predicate NoStatusOverride(ops: seq<Op>) {
    forall i :: 0 <= i < |ops| ==> !ops[i].SetCameraStatus?
  }

  ghost predicate Complete(s: Camera) {
    s.status == Unavailable ==> s.manager && s.input.Some? && s.output.Some? && s.session.Some?
  }

  // MAIN: then an unavailable camera is one with manager, input, output and session.
  lemma {:induction false} UnavailableIsComplete(ops: seq<Op>)
    requires NoStatusOverride(ops)
    ensures Complete(Run(Fresh, ops))
  {
    if ops != [] {
      UnavailableIsComplete(ops[..|ops| - 1]);
      StepKeepsComplete(Run(Fresh, ops[..|ops| - 1]), ops[|ops| - 1]);
    }
  }

  lemma StartedKeepsComplete(s: Camera, id: string, p: Option<Params>, l: Option<Listener>, a: Answers)
    requires Complete(s)
    ensures Complete(Started(s, id, p, l, a).camera)
  {
  }

  lemma RestartKeepsComplete(s: Camera, a: Answers)
    requires Complete(s)
    ensures Complete(Restarted(s, a).camera)
  {
    var s1 := WithoutStream(s).(session := None);
    StartedKeepsComplete(s1, s1.deviceId, s1.params, s1.listener, a);
  }

  lemma StepKeepsComplete(s: Camera, op: Op)
    requires Complete(s) && !op.SetCameraStatus?
    ensures Complete(Step(s, op))
  {
    match op
    case StartStream(id, p, l, a) => StartedKeepsComplete(s, id, p, l, a);
    case RestartSession(a) => RestartKeepsComplete(s, a);
    case StopSession(_) =>
    case ReleaseCameraManager =>
    case Create(_) =>
    case SetFlashMode(_, _) =>
    case SetForegroundFlag(_) =>
  }

  // ----- capture sessions -----

  // The sessions that are live but no longer held.
  function Lost(s: Camera): set<nat> {
    s.service.sessions - Handles(s.session)
  }

  // The call forgets the session it holds: a restart while capturing, or a start that gets as far as
  // asking for a new session.
  predicate Forgets(s: Camera, op: Op) {
    && s.session.Some?
    && match op
       case RestartSession(_) => s.capturing && s.manager
       case StartStream(_, p, l, a) => p.Some? && l.Some? && InputOpens(s, a) && OutputOpens(a)
       case _ => false
  }

  // MAIN: a call loses the session held before it exactly when it is one of those calls, and it never
  // loses another one; a lost session stays lost.
  lemma SessionLostExactly(s: Camera, op: Op)
    requires Inv(s)
    ensures Lost(Step(s, op)) == Lost(s) + (if Forgets(s, op) then Handles(s.session) else {})
    ensures Handles(s.session) !! Lost(s)
  {
    match op
    case RestartSession(a) => RestartedLoses(s, a);
    case StartStream(id, p, l, a) => StartLosesHeld(s, id, p, l, a);
    case StopSession(_) => ReleaseKeepsLost(s);
    case ReleaseCameraManager => ReleaseKeepsLost(s);
    case Create(_) =>
    case SetFlashMode(m, accepted) => FlashKeepsLost(s, m, accepted);
    case SetCameraStatus(_) =>
    case SetForegroundFlag(_) =>
  }

  lemma FlashKeepsLost(s: Camera, mode: FlashMode, accepted: bool)
    ensures Lost(FlashSet(s, mode, accepted)) == Lost(s)
  {
  }

  lemma StartLosesHeld(s: Camera, id: string, p: Option<Params>, l: Option<Listener>, a: Answers)
    requires Inv(s)
    ensures Lost(Started(s, id, p, l, a).camera)
         == Lost(s) + (if Forgets(s, StartStream(id, p, l, a)) then Handles(s.session) else {})
  {
    StartedLoses(s, id, p, l, a);
    assert Handles(s.session) * s.service.sessions == Handles(s.session);
  }

  predicate ForgetsAt(ops: seq<Op>, i: nat)
    requires i < |ops|
  {
    Forgets(Run(Fresh, ops[..i]), ops[i])
  }

  // MAIN: over a whole run, no session is lost exactly when no call of the run is one of those.
  lemma {:induction false} RunLosesNoSessionExactly(ops: seq<Op>)
    ensures Lost(Run(Fresh, ops)) == {} <==> forall i :: 0 <= i < |ops| ==> !ForgetsAt(ops, i)
  {
    if ops != [] {
      var n := |ops| - 1;
      RunLosesNoSessionExactly(ops[..n]);
      LastCallLosesNothing(ops);
      forall i | 0 <= i < n ensures ForgetsAt(ops[..n], i) == ForgetsAt(ops, i) {
        assert ops[..n][..i] == ops[..i];
      }
    }
  }

  lemma LastCallLosesNothing(ops: seq<Op>)
    requires ops != []
    ensures var n := |ops| - 1;
            Lost(Run(Fresh, ops)) == {} <==> Lost(Run(Fresh, ops[..n])) == {} && !ForgetsAt(ops, n)
  {
    var n := |ops| - 1;
    RunKeepsInv(ops[..n]);
    StepLosesNothing(Run(Fresh, ops[..n]), ops[n]);
  }

  lemma StepLosesNothing(s: Camera, op: Op)
    requires Inv(s)
    ensures Lost(Step(s, op)) == {} <==> Lost(s) == {} && !Forgets(s, op)
  {
    SessionLostExactly(s, op);
    assert s.session.Some? ==> s.session.value in Handles(s.session);
  }

  lemma RestartedLoses(s: Camera, a: Answers)
    requires Inv(s)
    ensures Lost(Restarted(s, a).camera)
         == Lost(s) + (if s.session.Some? && s.capturing && s.manager then Handles(s.session) else {})
  {
    if s.capturing && s.manager {
      var s1 := RestartPoint(s);
      var r := Started(s1, s1.deviceId, s1.params, s1.listener, a);
      StartedFromNothing(s1, s1.deviceId, s1.params, s1.listener, a);
      ReleaseKeepsLost(r.camera);
      AllSessionsAreLost(s, s1);
    }
  }

  lemma AllSessionsAreLost(s: Camera, s1: Camera)
    requires Inv(s) && s1 == WithoutStream(s).(session := None)
    ensures Lost(s1) == Lost(s) + Handles(s.session)
  {
  }

  lemma StartedFromNothing(s: Camera, id: string, p: Option<Params>, l: Option<Listener>, a: Answers)
    requires s.session.None? && forall h :: h in s.service.sessions ==> h < s.service.next
    ensures Lost(Started(s, id, p, l, a).camera) == Lost(s)
  {
    StartedLoses(s, id, p, l, a);
  }

  lemma ReleaseKeepsLost(s: Camera)
    ensures Lost(ReleasedSession(WithoutStream(s))) == Lost(s)
  {
  }

  lemma StartedLoses(s: Camera, id: string, p: Option<Params>, l: Option<Listener>, a: Answers)
    requires forall h :: h in s.service.sessions ==> h < s.service.next
    ensures Lost(Started(s, id, p, l, a).camera)
         == Lost(s) + (if Forgets(s, StartStream(id, p, l, a)) then Handles(s.session) * s.service.sessions else {})
  {
    if s.manager && p.Some? && l.Some? {
      if !InputOpens(s, a) {
        NoInputLosesNothing(s, id, a);
      } else {
        var s1 := OpenedInput(s, id);
        if OutputOpens(a) {
          SessionEndsHeld(OpenedOutput(s1, Config(p.value, l.value)), s.service.sessions, a);
        }
      }
    }
  }

  lemma NoInputLosesNothing(s: Camera, id: string, a: Answers)
    ensures Lost(ReleasedResource(FailedInput(s, a), id)) == Lost(s)
  {
  }

  // Whether or not the new session starts, the one held before is no longer held.
  lemma SessionEndsHeld(s: Camera, sessions: set<nat>, a: Answers)
    requires s.service.sessions == sessions && forall h :: h in sessions ==> h < s.service.next
    ensures Lost(StartedSession(s)) == sessions == Lost(FailedSession(s, a))
    ensures sessions == Lost(s) + Handles(s.session) * sessions
  {
  }

  // The caller's discipline: no status override, and starts and restarts only while available.
  ghost predicate Disciplined(ops: seq<Op>) {
    forall i :: 0 <= i < |ops| ==>
      && !ops[i].SetCameraStatus?
      && (ops[i].StartStream? || ops[i].RestartSession? ==> Run(Fresh, ops[..i]).status == Available)
  }

  // MAIN: under that discipline the live sessions are exactly the held one, held exactly while the
  // camera is unavailable: none is dropped without Stop and Release.
  lemma {:induction false} DisciplineLosesNoSession(ops: seq<Op>)
    requires Disciplined(ops)
    ensures HeldOnly(Run(Fresh, ops))
  {
    if ops != [] {
      var n := |ops| - 1;
      var prefix := ops[..n];
      forall i | 0 <= i < |prefix|
        ensures !prefix[i].SetCameraStatus?
        ensures prefix[i].StartStream? || prefix[i].RestartSession? ==> Run(Fresh, prefix[..i]).status == Available
      {
        assert prefix[..i] == ops[..i] && prefix[i] == ops[i];
      }
      DisciplineLosesNoSession(prefix);
      DisciplinedStep(Run(Fresh, prefix), ops[n]);
    }
  }

  ghost predicate HeldOnly(s: Camera) {
    s.service.sessions == Handles(s.session) && (s.session.Some? <==> s.status == Unavailable)
  }

  lemma StartedHeldOnly(s: Camera, id: string, p: Option<Params>, l: Option<Listener>, a: Answers)
    requires HeldOnly(s) && s.status == Available
    ensures HeldOnly(Started(s, id, p, l, a).camera)
  {
    assert s.service.sessions + {s.service.next} == {s.service.next};
  }

  lemma DisciplinedStep(s: Camera, op: Op)
    requires HeldOnly(s)
    requires !op.SetCameraStatus? && (op.StartStream? || op.RestartSession? ==> s.status == Available)
    ensures HeldOnly(Step(s, op))
  {
    match op
    case StartStream(id, p, l, a) => StartedHeldOnly(s, id, p, l, a);
    case RestartSession(a) =>
      var s1 := WithoutStream(s).(session := None);
      StartedHeldOnly(s1, s1.deviceId, s1.params, s1.listener, a);
      var r := Started(s1, s1.deviceId, s1.params, s1.listener, a);
      ReleaseHeldOnly(r.camera);
    case StopSession(_) => ReleaseHeldOnly(s);
    case ReleaseCameraManager => ReleaseHeldOnly(s);
    case Create(_) =>
    case SetFlashMode(_, _) =>
    case SetForegroundFlag(_) =>
  }

  lemma ReleaseHeldOnly(s: Camera)
    requires HeldOnly(s)
    ensures HeldOnly(ReleasedSession(WithoutStream(s)))
  {
  }

  // Without it a session can be lost even though nobody touches the status: starting the running
  // camera once more tears its stream down but keeps the session, which the next start forgets.
  lemma StartingTwiceLosesASession()
    ensures var yes := Answers(true, true, true, true, true, true, true, true, true, true, true);
            var start := StartStream("cam", Some(Params(1, 1, 1)), Some(1), yes);
            Lost(Run(Fresh, [Create(true), start, start, start])) != {}
  {
    var yes := Answers(true, true, true, true, true, true, true, true, true, true, true);
    var start := StartStream("cam", Some(Params(1, 1, 1)), Some(1), yes);
    var ops1 := [Create(true)];
    var ops2 := [Create(true), start];
    var ops3 := [Create(true), start, start];
    var ops4 := [Create(true), start, start, start];
    assert ops1[..0] == [] && ops2[..1] == ops1 && ops3[..2] == ops2 && ops4[..3] == ops3;
    var s1 := Step(Fresh, Create(true));
    assert Run(Fresh, ops1) == s1;
    var s2 := Step(s1, start);
    assert Run(Fresh, ops2) == s2;
    assert s2.session == Some(2) && 2 in s2.service.sessions && s2.status == Unavailable && s2.deviceId == "cam";
    var s3 := Step(s2, start);
    assert Run(Fresh, ops3) == s3 && s3 == WithoutStream(s2);
    var s4 := Step(s3, start);
    assert Run(Fresh, ops4) == s4;
    assert s4.session == Some(5) && 2 in s4.service.sessions;
    assert 2 in Lost(s4);
  }

  // A start is refused only at UNAVAILABLE: at APPEAR it begins a session ...
  lemma StartsAtAppear()
    ensures var yes := Answers(true, true, true, true, true, true, true, true, true, true, true);
            var start := StartStream("cam", Some(Params(1, 1, 1)), Some(1), yes);
            Run(Fresh, [Create(true), SetCameraStatus(Appear), start]).session.Some?
  {
    var yes := Answers(true, true, true, true, true, true, true, true, true, true, true);
    var start := StartStream("cam", Some(Params(1, 1, 1)), Some(1), yes);
    var ops1 := [Create(true)];
    var ops2 := [Create(true), SetCameraStatus(Appear)];
    var ops3 := [Create(true), SetCameraStatus(Appear), start];
    assert ops1[..0] == [] && ops2[..1] == ops1 && ops3[..2] == ops2;
    var s2 := Step(Step(Fresh, Create(true)), SetCameraStatus(Appear));
    assert Run(Fresh, ops2) == s2;
    assert Run(Fresh, ops3) == Step(s2, start);
  }

  // ... and loses one that is held.
  lemma StartAtAppearLosesASession()
    ensures var yes := Answers(true, true, true, true, true, true, true, true, true, true, true);
            var start := StartStream("cam", Some(Params(1, 1, 1)), Some(1), yes);
            Lost(Run(Fresh, [Create(true), start, start, SetCameraStatus(Appear), start])) != {}
  {
    var yes := Answers(true, true, true, true, true, true, true, true, true, true, true);
    var start := StartStream("cam", Some(Params(1, 1, 1)), Some(1), yes);
    var ops1 := [Create(true)];
    var ops2 := [Create(true), start];
    var ops3 := [Create(true), start, start];
    var ops4 := [Create(true), start, start, SetCameraStatus(Appear)];
    var ops5 := [Create(true), start, start, SetCameraStatus(Appear), start];
    assert ops1[..0] == [] && ops2[..1] == ops1 && ops3[..2] == ops2 && ops4[..3] == ops3 && ops5[..4] == ops4;
    var s1 := Step(Fresh, Create(true));
    assert Run(Fresh, ops1) == s1;
    var s2 := Step(s1, start);
    assert Run(Fresh, ops2) == s2;
    assert s2.session == Some(2) && 2 in s2.service.sessions && s2.status == Unavailable && s2.deviceId == "cam";
    var s3 := Step(s2, start);
    assert Run(Fresh, ops3) == s3 && s3 == WithoutStream(s2);
    var s4 := s3.(status := Appear);
    assert Run(Fresh, ops4) == s4;
    var s5 := Step(s4, start);
    assert Run(Fresh, ops5) == s5;
    assert s5.session == Some(5) && 2 in s5.service.sessions;
    assert 2 in Lost(s5);
  }

  // ----- what each call changes and what it leaves, without its steps -----

  predicate NothingStreams(s: Camera) {
    s.input.None? && s.output.None? && s.service.inputs == {} && s.service.outputs.Keys == {}
  }

  // A call that neither starts nor stops capturing leaves these alone.
  predicate SameSettings(s: Camera, t: Camera) {
    t.manager == s.manager && t.capturing == s.capturing && t.flashing == s.flashing && t.foreground == s.foreground
  }

  predicate Asked(s: Camera, p: Option<Params>, l: Option<Listener>) {
    s.manager && p.Some? && l.Some?
  }

  predicate OpensInput(s: Camera, a: Answers) {
    s.status != Unavailable && s.input.None? && a.cameraFound && a.inputCreated && a.inputOpened
  }

  lemma StartSucceedsAs(s: Camera, id: string, p: Option<Params>, l: Option<Listener>, a: Answers)
    requires Inv(s)
    ensures var r := Started(s, id, p, l, a);
            && (r.ok <==> Asked(s, p, l) && OpensInput(s, a)
                          && a.surfaceCreated && a.listenerCreated && a.outputCreated
                          && a.sessionCreated && a.inputAdded && a.outputAdded && a.committed && a.started)
            && (r.ok ==>
                  && r.camera.capturing && r.camera.status == Unavailable && r.camera.deviceId == id
                  && r.camera.params == p && r.camera.listener == l
                  && r.camera.manager && r.camera.flashing == s.flashing && r.camera.foreground == s.foreground)
  {
  }

  // A refused start: which resources it leaves, by where it was refused.
  lemma StartFailsAs(s: Camera, id: string, p: Option<Params>, l: Option<Listener>, a: Answers)
    requires Inv(s) && !Started(s, id, p, l, a).ok
    ensures var t := Started(s, id, p, l, a).camera;
            && SameSettings(s, t)
            && (!Asked(s, p, l) ==> t == s)
            && (Asked(s, p, l) && !OpensInput(s, a) ==>
                  && t.session == s.session && t.service.sessions == s.service.sessions && t.deviceId == s.deviceId
                  && t.params == s.params && t.listener == s.listener
                  && (id == s.deviceId ==> NothingStreams(t) && t.status == Available)
                  && (id != s.deviceId ==>
                        && t.input == s.input && t.output == s.output && t.status == s.status
                        && t.service.inputs == s.service.inputs && t.service.outputs == s.service.outputs))
            && (Asked(s, p, l) && OpensInput(s, a) && !(a.surfaceCreated && a.listenerCreated && a.outputCreated) ==>
                  && NothingStreams(t) && t.status == Available && t.deviceId == id
                  && t.session == s.session && t.service.sessions == s.service.sessions
                  && t.params == s.params && t.listener == s.listener)
            && (Asked(s, p, l) && OpensInput(s, a) && a.surfaceCreated && a.listenerCreated && a.outputCreated ==>
                  && t.input.Some? && t.output.Some? && t.status == s.status && t.deviceId == id
                  && t.session.None? && t.service.sessions == s.service.sessions
                  && t.params == p && t.listener == l)
  {
    if Asked(s, p, l) {
      if !OpensInput(s, a) {
        StreamIsGone(FailedInput(s, a));
      } else {
        OpenedInputInv(s, id);
        StreamIsGone(OpenedInput(s, id));
      }
    }
  }

  lemma StreamIsGone(s: Camera)
    requires s.service.inputs == Handles(s.input) && s.service.outputs.Keys == Handles(s.output)
    ensures NothingStreams(WithoutStream(s))
  {
  }

  // A restart does something only while capturing with a manager; it runs with the remembered device,
  // parameters and listener, and leaves nothing behind when a service refuses.
  lemma RestartDoes(s: Camera, a: Answers)
    requires Inv(s)
    ensures var r := Restarted(s, a);
            && SameSettings(s, r.camera)
            && (!s.capturing ==> r.ok && r.camera == s)
            && (s.capturing && !s.manager ==> !r.ok && r.camera == s)
            && (s.capturing && s.manager ==>
                  && (r.ok <==> a.cameraFound && a.inputCreated && a.inputOpened
                                && a.surfaceCreated && a.listenerCreated && a.outputCreated
                                && a.sessionCreated && a.inputAdded && a.outputAdded && a.committed && a.started)
                  && r.camera.params == s.params && r.camera.listener == s.listener
                  && r.camera.deviceId == s.deviceId
                  && (r.ok ==>
                        && r.camera.status == Unavailable
                        && r.camera.session.Some? && r.camera.session.value !in s.service.sessions
                        && r.camera.output.Some? && r.camera.output.value !in s.service.outputs
                        && r.camera.input.Some? && r.camera.input.value !in s.service.inputs)
                  && (!r.ok ==> NothingStreams(r.camera) && r.camera.session.None? && r.camera.status == Available))
  {
    if s.capturing && s.manager {
      var s1 := RestartPoint(s);
      var r := Started(s1, s1.deviceId, s1.params, s1.listener, a);
      StartSucceedsAs(s1, s1.deviceId, s1.params, s1.listener, a);
      StartedKeepsInv(s1, s1.deviceId, s1.params, s1.listener, a);
      RestartedFrom(s, s1, a, r);
      StreamIsGone(r.camera);
      if r.ok {
        FreshAfterStart(s1, s1.deviceId, s1.params, s1.listener, a);
      } else {
        StartFailsAs(s1, s1.deviceId, s1.params, s1.listener, a);
      }
    }
  }

  lemma FreshAfterStart(s: Camera, id: string, p: Option<Params>, l: Option<Listener>, a: Answers)
    requires Inv(s) && Started(s, id, p, l, a).ok
    ensures var t := Started(s, id, p, l, a).camera;
            && t.session.Some? && t.session.value >= s.service.next
            && t.output.Some? && t.output.value >= s.service.next
            && t.input.Some? && t.input.value >= s.service.next
  {
  }

  // A stop does nothing at AVAILABLE; otherwise nothing streams and no session is held, and a normal stop,
  // not one to the background, ends capturing and flashing.
  lemma StopDoes(s: Camera, stopType: StopType)
    requires Inv(s)
    ensures var t := Stopped(s, stopType);
            && (s.status == Available ==> t == s)
            && (s.status != Available ==>
                  && NothingStreams(t) && t.session.None? && t.status == Available
                  && t.service.sessions == s.service.sessions - Handles(s.session)
                  && t.manager == s.manager && t.foreground == s.foreground && t.deviceId == s.deviceId
                  && t.params == s.params && t.listener == s.listener
                  && (stopType == Normal ==> !t.capturing && !t.flashing)
                  && (stopType == ToBack ==> t.capturing == s.capturing && t.flashing == s.flashing))
  {
    StreamIsGone(s);
  }

  lemma ManagerReleaseDoes(s: Camera)
    requires Inv(s)
    ensures var t := ManagerReleased(s);
            && NothingStreams(t) && t.session.None? && t.status == Available && !t.manager && !t.foreground
            && t.service.sessions == s.service.sessions - Handles(s.session)
            && t.capturing == s.capturing && t.flashing == s.flashing && t.deviceId == s.deviceId
            && t.params == s.params && t.listener == s.listener
  {
    StreamIsGone(s);
  }

  // ----- when capturing and flashing hold -----

  predicate Starts(s: Camera, op: Op) {
    op.StartStream? && Started(s, op.deviceId, op.params, op.listener, op.answers).ok
  }

  // A normal stop at another status than AVAILABLE.
  predicate Stops(s: Camera, op: Op) {
    op == StopSession(Normal) && s.status != Available
  }

  // An accepted flash mode.
  predicate Flashes(s: Camera, op: Op, mode: FlashMode) {
    op == SetFlashMode(mode, true) && s.session.Some?
  }

  lemma StepFlags(s: Camera, op: Op)
    requires Inv(s)
    ensures Step(s, op).capturing == (Starts(s, op) || (s.capturing && !Stops(s, op)))
    ensures Step(s, op).flashing
         == (Flashes(s, op, FlashAlwaysOpen) || (s.flashing && !Flashes(s, op, FlashClose) && !Stops(s, op)))
  {
    match op
    case StartStream(id, p, l, a) => StartFlags(s, id, p, l, a);
    case RestartSession(a) => RestartDoes(s, a);
    case StopSession(t) => StopDoes(s, t);
    case ReleaseCameraManager => ManagerReleaseDoes(s);
    case Create(_) =>
    case SetFlashMode(_, _) =>
    case SetCameraStatus(_) =>
    case SetForegroundFlag(_) =>
  }

  lemma StartFlags(s: Camera, id: string, p: Option<Params>, l: Option<Listener>, a: Answers)
    requires Inv(s)
    ensures var r := Started(s, id, p, l, a);
            r.camera.capturing == (r.ok || s.capturing) && r.camera.flashing == s.flashing
  {
    StartSucceedsAs(s, id, p, l, a);
    if !Started(s, id, p, l, a).ok {
      StartFailsAs(s, id, p, l, a);
    }
  }

  predicate StartedAt(ops: seq<Op>, i: nat)
    requires i < |ops|
  {
    Starts(Run(Fresh, ops[..i]), ops[i])
  }

  predicate StoppedAt(ops: seq<Op>, i: nat)
    requires i < |ops|
  {
    Stops(Run(Fresh, ops[..i]), ops[i])
  }

  predicate FlashAt(ops: seq<Op>, i: nat, mode: FlashMode)
    requires i < |ops|
  {
    Flashes(Run(Fresh, ops[..i]), ops[i], mode)
  }

  ghost predicate CapturesSince(ops: seq<Op>, i: nat)
    requires i < |ops|
  {
    StartedAt(ops, i) && forall j :: i < j < |ops| ==> !StoppedAt(ops, j)
  }

  ghost predicate FlashesSince(ops: seq<Op>, i: nat)
    requires i < |ops|
  {
    && FlashAt(ops, i, FlashAlwaysOpen)
    && forall j :: i < j < |ops| ==> !FlashAt(ops, j, FlashClose) && !StoppedAt(ops, j)
  }

  lemma PrefixAt(ops: seq<Op>, n: nat, i: nat)
    requires i < n <= |ops|
    ensures StartedAt(ops[..n], i) == StartedAt(ops, i) && StoppedAt(ops[..n], i) == StoppedAt(ops, i)
    ensures FlashAt(ops[..n], i, FlashAlwaysOpen) == FlashAt(ops, i, FlashAlwaysOpen)
    ensures FlashAt(ops[..n], i, FlashClose) == FlashAt(ops, i, FlashClose)
  {
    assert ops[..n][..i] == ops[..i];
  }

  // What the last call does to the two flags.
  lemma LastCallFlags(ops: seq<Op>)
    requires ops != []
    ensures var n := |ops| - 1;
            var before, after := Run(Fresh, ops[..n]), Run(Fresh, ops);
            && after.capturing == (StartedAt(ops, n) || (before.capturing && !StoppedAt(ops, n)))
            && after.flashing == (FlashAt(ops, n, FlashAlwaysOpen)
                                  || (before.flashing && !FlashAt(ops, n, FlashClose) && !StoppedAt(ops, n)))
  {
    var n := |ops| - 1;
    RunKeepsInv(ops[..n]);
    StepFlags(Run(Fresh, ops[..n]), ops[n]);
  }

  // MAIN: in every run the camera is capturing exactly when some start succeeded and no normal stop at another
  // status than AVAILABLE came since.
  lemma {:induction false} CapturingExactly(ops: seq<Op>)
    ensures Run(Fresh, ops).capturing <==> exists i :: 0 <= i < |ops| && CapturesSince(ops, i)
  {
    if ops != [] {
      var n := |ops| - 1;
      CapturingExactly(ops[..n]);
      LastCallFlags(ops);
      forall i | 0 <= i < n ensures CapturesSince(ops, i) <==> CapturesSince(ops[..n], i) && !StoppedAt(ops, n) {
        CapturesOneMore(ops, i);
      }
      assert CapturesSince(ops, n) == StartedAt(ops, n);
    }
  }

  lemma CapturesOneMore(ops: seq<Op>, i: nat)
    requires i < |ops| - 1
    ensures var n := |ops| - 1;
            CapturesSince(ops, i) <==> CapturesSince(ops[..n], i) && !StoppedAt(ops, n)
  {
    var n := |ops| - 1;
    forall j | 0 <= j < n ensures StartedAt(ops[..n], j) == StartedAt(ops, j)
                          ensures StoppedAt(ops[..n], j) == StoppedAt(ops, j) {
      PrefixAt(ops, n, j);
    }
  }

  // MAIN: in every run the flag for flashing is set exactly when the last call that sets or clears it is an
  // accepted ALWAYS_OPEN: no accepted CLOSE and no normal stop came since.
  lemma {:induction false} FlashingExactly(ops: seq<Op>)
    ensures Run(Fresh, ops).flashing <==> exists i :: 0 <= i < |ops| && FlashesSince(ops, i)
  {
    if ops != [] {
      var n := |ops| - 1;
      FlashingExactly(ops[..n]);
      LastCallFlags(ops);
      forall i | 0 <= i < n
        ensures FlashesSince(ops, i)
           <==> FlashesSince(ops[..n], i) && !FlashAt(ops, n, FlashClose) && !StoppedAt(ops, n)
      {
        FlashesOneMore(ops, i);
      }
      assert FlashesSince(ops, n) == FlashAt(ops, n, FlashAlwaysOpen);
    }
  }

  lemma FlashesOneMore(ops: seq<Op>, i: nat)
    requires i < |ops| - 1
    ensures var n := |ops| - 1;
            FlashesSince(ops, i) <==> FlashesSince(ops[..n], i) && !FlashAt(ops, n, FlashClose) && !StoppedAt(ops, n)
  {
    var n := |ops| - 1;
    PrefixAt(ops, n, i);
    forall j | 0 <= j < n ensures FlashAt(ops[..n], j, FlashClose) == FlashAt(ops, j, FlashClose)
                          ensures StoppedAt(ops[..n], j) == StoppedAt(ops, j) {
      PrefixAt(ops, n, j);
    }
  }

  // ----- the adapter -----

  class CameraManagerAdapter {
    var cameraManager: bool
    var cameraInput: Option<nat>
    var previewOutput: Option<nat>
    var captureSession: Option<nat>
    var inputInitedFlag: bool
    var isCapturing: bool
    var isFlashing: bool
    var isForeground: bool
    var status: Status
    var deviceId: string
    var captureParams: Option<Params>
    var listener: Option<Listener>
    var service: Service

    function State(): Camera
      reads this
    {
      Camera(cameraManager, cameraInput, previewOutput, captureSession, inputInitedFlag, isCapturing, isFlashing,
             isForeground, status, deviceId, captureParams, listener, service)
    }

    ghost predicate Valid()
      reads this
    {
      Inv(State())
    }

    constructor ()
      ensures State() == Fresh
    {
      cameraManager := false;
      cameraInput, previewOutput, captureSession := None, None, None;
      inputInitedFlag, isCapturing, isFlashing, isForeground := false, false, false, false;
      status := Available;
      deviceId := "";
      captureParams, listener := None, None;
      service := Service(0, {}, map[], {});
    }

    method CreateManager(managerFound: bool) returns (ok: bool)
      modifies this
      ensures State() == Step(old(State()), Create(managerFound)) && ok == cameraManager
      ensures ok == (old(cameraManager) || managerFound)
    {
      if !cameraManager {
        cameraManager := managerFound;
        if !cameraManager {
          return false;
        }
      }
      return true;
    }

    method InitCameraInput(id: string, a: Answers) returns (ok: bool)
      requires Valid()
      modifies this
      ensures ok == InputOpens(old(State()), a)
      ensures State() == if ok then OpenedInput(old(State()), id) else FailedInput(old(State()), a)
    {
      if status == Unavailable {
        return false;
      }
      if inputInitedFlag {
        return false;
      }
      if !cameraManager {
        return false;
      }
      if cameraInput.None? {
        if !a.cameraFound {
          return false;
        }
        if !a.inputCreated {
          cameraInput := None;
          return false;
        }
        var created := service.next;
        ghost var inputs := service.inputs;
        cameraInput := Some(created);
        service := service.CreateInput();
        if !a.inputOpened {
          service := service.ReleaseInput(created);
          assert inputs + {created} - {created} == inputs;
          cameraInput := None;
          return false;
        }
        deviceId := id;
        inputInitedFlag := true;
      }
      return true;
    }

    method InitPreviewOutput(params: Params, l: Listener, a: Answers) returns (ok: bool)
      modifies this
      ensures ok == (inputInitedFlag && cameraManager && (old(previewOutput).Some? || OutputOpens(a)))
      ensures State() == if ok && old(previewOutput).None? then OpenedOutput(old(State()), Config(params, l))
                         else old(State())
    {
      if !inputInitedFlag {
        return false;
      }
      if !cameraManager {
        return false;
      }
      if previewOutput.None? {
        if !a.surfaceCreated {
          return false;
        }
        if !a.listenerCreated {
          return false;
        }
        if !a.outputCreated {
          return false;
        }
        previewOutput := Some(service.next);
        service := service.CreateOutput(Config(params, l));
        captureParams := Some(params);
        listener := Some(l);
      }
      return true;
    }

    // On a failure the session created last, if any, is still held.
    method CreateAndStartSession(a: Answers) returns (ok: bool)
      modifies this
      ensures var asked := old(status) != Unavailable && cameraInput.Some? && previewOutput.Some?;
              ok == (asked && SessionStarts(a))
      ensures State() == if old(status) == Unavailable || cameraInput.None? || previewOutput.None? then old(State())
                         else if ok then StartedSession(old(State()))
                         else if a.sessionCreated
                         then old(State()).(session := Some(old(service).next), service := old(service).CreateSession())
                         else old(State()).(session := None)
    {
      if status == Unavailable {
        return false;
      }
      if cameraInput.None? || previewOutput.None? {
        return false;
      }
      if !a.sessionCreated {
        captureSession := None;
        return false;
      }
      captureSession := Some(service.next);
      service := service.CreateSession();
      if !a.inputAdded {
        return false;
      }
      if !a.outputAdded {
        return false;
      }
      if !a.committed {
        return false;
      }
      if !a.started {
        return false;
      }
      status := Unavailable;
      isCapturing := true;
      return true;
    }

    method ReleaseSession()
      modifies this
      ensures State() == ReleasedSession(old(State()))
    {
      if captureSession.Some? {
        service := service.ReleaseSession(captureSession.value);
        captureSession := None;
      }
    }

    // The statements ReleaseSessionResource and RestartSession have in common.
    method ReleaseInputAndOutput()
      modifies this
      ensures State() == old(State()).(input := None, output := None,
                                       service := old(service).DropInput(old(cameraInput))
                                                              .DropOutput(old(previewOutput)))
    {
      if cameraInput.Some? {
        service := service.ReleaseInput(cameraInput.value);
        cameraInput := None;
      }
      if previewOutput.Some? {
        service := service.ReleaseOutput(previewOutput.value);
        previewOutput := None;
      }
    }

    method ReleaseSessionResource(id: string)
      modifies this
      ensures State() == ReleasedResource(old(State()), id)
    {
      if deviceId != id {
        return;
      }
      ReleaseInputAndOutput();
      status := Available;
      inputInitedFlag := false;
    }

    method StartStreamInner(id: string, params: Option<Params>, l: Option<Listener>, a: Answers) returns (ok: bool)
      requires Valid()
      modifies this
      ensures Result(State(), ok) == Started(old(State()), id, params, l, a)
      ensures Valid()
    {
      StartedKeepsInv(State(), id, params, l, a);
      if !cameraManager || l.None? {
        return false;
      }
      if params.None? {
        return false;
      }
      var inputOk := InitCameraInput(id, a);
      if !inputOk {
        ReleaseSessionResource(id);
        return false;
      }
      var outputOk := InitPreviewOutput(params.value, l.value, a);
      if !outputOk {
        ReleaseSessionResource(id);
        return false;
      }
      ghost var s := State();
      OpenedInputInv(old(State()), id);
      OpenedOutputInv(OpenedInput(old(State()), id), Config(params.value, l.value));
      assert Inv(s);
      var sessionOk := CreateAndStartSession(a);
      if !sessionOk {
        ReleaseSession();
        FailedSessionIsReleased(s, a);
        return false;
      }
      return true;
    }

    method StartStream(id: string, params: Option<Params>, l: Option<Listener>, a: Answers) returns (ok: bool)
      requires Valid()
      modifies this
      ensures State() == Step(old(State()), Op.StartStream(id, params, l, a))
      ensures ok == Started(old(State()), id, params, l, a).ok
      ensures Valid()
    {
      ok := StartStreamInner(id, params, l, a);
    }

    method RestartSession(a: Answers) returns (ok: bool)
      requires Valid()
      modifies this
      ensures Result(State(), ok) == Restarted(old(State()), a)
      ensures Valid()
    {
      ghost var s := State();
      if !isCapturing {
        return true;
      }
      if !cameraManager {
        return false;
      }
      ghost var s1 := RestartPoint(s);
      ReleaseInputAndOutput();
      inputInitedFlag := false;
      captureSession := None;
      status := Available;
      assert State() == s1;
      var started := StartStreamInner(deviceId, captureParams, listener, a);
      ghost var r := State();
      RestartedFrom(s, s1, a, Result(r, started));
      if !started {
        ReleaseSessionResource(deviceId);
        ReleaseSession();
        return false;
      }
      status := Unavailable;
      assert State() == r;
      return true;
    }

    method StopSession(stopType: StopType)
      requires Valid()
      modifies this
      ensures State() == Step(old(State()), Op.StopSession(stopType))
      ensures old(status) != Available && stopType == Normal ==> !isCapturing && !isFlashing
      ensures old(status) == Available || stopType == ToBack ==>
                isCapturing == old(isCapturing) && isFlashing == old(isFlashing)
      ensures Valid()
    {
      StepKeepsInv(State(), Op.StopSession(stopType));
      if status == Available {
        return;
      }
      ReleaseSessionResource(deviceId);
      ReleaseSession();
      if stopType == Normal {
        isCapturing := false;
        isFlashing := false;
      }
    }

    method ReleaseCameraManger()
      requires Valid()
      modifies this
      ensures State() == Step(old(State()), ReleaseCameraManager)
      ensures service.inputs == {} && service.outputs.Keys == {}
      ensures Valid()
    {
      StepKeepsInv(State(), ReleaseCameraManager);
      ReleaseSessionResource(deviceId);
      ReleaseSession();
      cameraManager := false;
      status := Available;
      inputInitedFlag := false;
      isForeground := false;
    }

    method SetFlashMode(mode: FlashMode, accepted: bool) returns (ok: bool)
      requires Valid()
      modifies this
      ensures State() == Step(old(State()), Op.SetFlashMode(mode, accepted))
      ensures ok == (old(captureSession).Some? && accepted)
      ensures isFlashing == if ok && mode == FlashAlwaysOpen then true
                            else if ok && mode == FlashClose then false
                            else old(isFlashing)
      ensures Valid()
    {
      if captureSession.None? {
        return false;
      }
      if !accepted {
        return false;
      }
      if mode == FlashAlwaysOpen {
        isFlashing := true;
      } else if mode == FlashClose {
        isFlashing := false;
      }
      return true;
    }

    method SetCameraStatus(newStatus: Status)
      requires Valid()
      modifies this
      ensures State() == Step(old(State()), Op.SetCameraStatus(newStatus)) && status == newStatus
      ensures Valid()
    {
      status := newStatus;
    }
  }

  lemma RestartPoint(s: Camera) returns (s1: Camera)
    requires Inv(s)
    ensures s1 == WithoutStream(s).(session := None) && Inv(s1)
  {
    WithoutStreamInv(s);
    s1 := WithoutStream(s).(session := None);
  }

  lemma RestartedFrom(s: Camera, s1: Camera, a: Answers, r: Result)
    requires Inv(s) && s.capturing && s.manager && s1 == WithoutStream(s).(session := None)
    requires r == Started(s1, s1.deviceId, s1.params, s1.listener, a)
    ensures Restarted(s, a) == if r.ok then r else Result(ReleasedSession(WithoutStream(r.camera)), false)
    ensures Inv(Restarted(s, a).camera)
    ensures r.ok ==> r.camera.status == Unavailable
  {
    RestartedKeepsInv(s, a);
  }

  lemma FailedSessionIsReleased(s: Camera, a: Answers)
    requires forall h :: h in s.service.sessions ==> h < s.service.next
    ensures a.sessionCreated ==>
              ReleasedSession(s.(session := Some(s.service.next), service := s.service.CreateSession()))
              == FailedSession(s, a)
    ensures !a.sessionCreated ==> ReleasedSession(s.(session := None)) == FailedSession(s, a)
  {
    assert s.service.sessions + {s.service.next} - {s.service.next} == s.service.sessions;
  }
}
