/** The M4's remote-command interpreter, watchdog, STOP latch and arbitration, as one step of the
    main loop on values. `since` and `checked` are true times kept beside the wrapping clock. */
module M4Core {
  import opened Words
  import opened Errno
  import opened Options
  import opened MotorModel
  import opened Contract

  datatype Core = Core(
    motor: Motor,
    remote: bool,
    timedOut: bool,
    latched: bool,
    timeout: word,
    lastAccepted: word,
    stamp: dword,
    since: nat,
    checked: nat)

  /** The outcome of the potentiometer poll. */
  datatype Reading = Sampled(duty: word) | Failed(error: int)

  /** Everything the outside world decides about one iteration: the command found in the mailbox,
      the potentiometer, the button events, and the true time at each reading of the clock. */
  datatype Event = Event(
    command: Option<Command>,
    reading: Reading,
    start: bool,
    stop: bool,
    toggle: bool,
    reset: bool,
    tCommand: nat,
    tWatchdog: nat)

  // ----- Phases of one iteration -----

  function Wanted(cmd: Command): Direction {
    if cmd.Reverse() then Direction.Reverse else Forward
  }

  /** Everything a remote command asks for short of starting. */
  function Execute(b: Board, m: Motor, cmd: Command, latched: bool): (Motor, int) {
    if cmd.ResetFault() then Reset(b, m)
    else if cmd.QuickStop() then QuickStop(b, m)
    else if latched && cmd.Run() then (m, -ECANCELED)
    else if !cmd.Run() then
      var (m1, e1) := Stop(m);
      if e1 == 0 && m1.state == Ready && Wanted(cmd) != m1.direction then
        SetDirection(m1, Wanted(cmd))
      else (m1, e1)
    else if Wanted(cmd) != m.direction then SetDirection(m, Wanted(cmd))
    else (m, 0)
  }

  function ExecuteAndStart(b: Board, m: Motor, cmd: Command, latched: bool): (Motor, int) {
    var (m1, e1) := Execute(b, m, cmd, latched);
    if e1 == 0 && cmd.Run() && cmd.Enable() then Start(b, m1) else (m1, e1)
  }

  function Configure(m: Motor, cmd: Command): (Motor, int) {
    var (m1, e1) := SetRamps(m, cmd.accel, cmd.decel);
    if e1 < 0 then (m1, e1) else SetTargetDuty(m1, cmd.duty)
  }

  function ApplyLocal(b: Board, c: Core, cmd: Command): (Core, int) {
    var (m1, e1) := if cmd.ResetFault() then Reset(b, c.motor) else (c.motor, 0);
    if e1 < 0 then (c.(motor := m1), e1)
    else
      var (m2, e2) := Stop(m1);
      if e2 < 0 then (c.(motor := m2), e2)
      else
        (c.(motor := RestoreDefaultRamps(m2), remote := false, timedOut := false,
            latched := false, lastAccepted := cmd.sequence), 0)
  }

  function ApplyRemote(b: Board, c: Core, cmd: Command, now: nat): (Core, int) {
    var c1 := c.(remote := true, timedOut := false, timeout := cmd.timeout,
                 stamp := U32(now), since := now);
    var (m1, e1) := Configure(c.motor, cmd);
    if e1 < 0 then (c1.(motor := m1), e1)
    else
      var (m2, e2) := ExecuteAndStart(b, m1, cmd, c.latched);
      (c1.(motor := m2, latched := c.latched && !cmd.ResetFault(),
           lastAccepted := if e2 == 0 then cmd.sequence else c.lastAccepted), e2)
  }

  function Apply(b: Board, c: Core, cmd: Command, now: nat): (Core, int) {
    if cmd.mode == MODE_LOCAL then ApplyLocal(b, c, cmd) else ApplyRemote(b, c, cmd, now)
  }

  /** The age of the last remote command on the wrapping clock. */
  function Age(c: Core, now: nat): dword {
    U32(U32(now) - c.stamp)
  }

  function Watchdog(c: Core, now: nat): Core {
    var c1 := c.(checked := now);
    if !c.remote || c.timedOut || Age(c, now) <= c.timeout then c1
    else c1.(timedOut := true, motor := Stop(c.motor).0)
  }

  function Potentiometer(b: Board, c: Core, r: Reading): Core {
    match r
    case Failed(error) => c.(motor := RecordFault(b, c.motor, error))
    case Sampled(duty) => if c.remote then c else c.(motor := SetTargetDuty(c.motor, duty).0)
  }

  /** STOP before RESET before the local commands. */
  function Arbitrate(b: Board, c: Core, e: Event): Core {
    if e.stop then c.(latched := c.latched || c.remote, motor := Stop(c.motor).0)
    else if e.reset then c.(latched := false, motor := Reset(b, c.motor).0)
    else if c.remote then c
    else
      var m := if e.toggle then ToggleDirection(c.motor).0 else c.motor;
      c.(motor := if e.start then Start(b, m).0 else m)
  }

  /** The command and watchdog phases. */
  function Ipc(b: Board, c: Core, e: Event): Core {
    var c1 := if e.command.Some? then Apply(b, c, e.command.value, e.tCommand).0 else c;
    Watchdog(c1, e.tWatchdog)
  }

  /** Everything before the motor's own processing. */
  function Decide(b: Board, c: Core, e: Event): Core {
    Arbitrate(b, Potentiometer(b, Ipc(b, c, e), e.reading), e)
  }

  function Step(b: Board, c: Core, e: Event): Core {
    var c1 := Decide(b, c, e);
    c1.(motor := Process(b, c1.motor, LOOP_MS).0)
  }

  function Steps(b: Board, c: Core, es: seq<Event>): Core
    decreases |es|
  {
    if |es| == 0 then c else Step(b, Steps(b, c, es[..|es| - 1]), Last(es))
  }

  /** The core after power-up and a successful motor initialization. */
  function Boot(m: Motor): Core {
    Core(m, false, false, false, 0, 0, 0, 0, 0)
  }

  // ----- Invariant of every run -----

  /** Only validated commands reach the mailbox. */
  ghost predicate Legal(e: Event) {
    e.command.Some? ==> Acceptable(e.command.value)
  }

  ghost predicate AllLegal(es: seq<Event>) {
    forall i :: 0 <= i < |es| ==> Legal(es[i])
  }

  ghost predicate Sound(b: Board, c: Core, base: nat) {
    && Safe(b, c.motor, base)
    && c.stamp == U32(c.since)
    && (!c.remote ==>
          && c.motor.accel == RUN_RAMP && c.motor.decel == STOP_RAMP
          && !c.timedOut && !c.latched)
    && (c.remote ==> InRange(c.motor.target, c.motor.accel, c.motor.decel, c.timeout))
    && (c.timedOut ==> c.motor.state != Running)
  }

  lemma StopKeeps(b: Board, m: Motor, base: nat)
    requires Safe(b, m, base)
    ensures Safe(b, Stop(m).0, base)
    ensures Stop(m).0.state != Running
  {
  }

  lemma ExecuteKeeps(b: Board, m: Motor, cmd: Command, latched: bool, base: nat)
    requires Safe(b, m, base)
    ensures var r := Execute(b, m, cmd, latched).0;
            && Safe(b, r, base) && m.wire <= r.wire
            && r.target == m.target && r.accel == m.accel && r.decel == m.decel
  {
    hide LaneSince;
    if cmd.ResetFault() {
      ResetKeeps(b, m, base);
    } else if cmd.QuickStop() {
      QuickStopKeeps(b, m, base);
    }
  }

  lemma ExecuteAndStartKeeps(b: Board, m: Motor, cmd: Command, latched: bool, base: nat)
    requires Safe(b, m, base)
    ensures var r := ExecuteAndStart(b, m, cmd, latched).0;
            && Safe(b, r, base) && m.wire <= r.wire
            && r.target == m.target && r.accel == m.accel && r.decel == m.decel
  {
    ExecuteKeeps(b, m, cmd, latched, base);
    StartKeeps(b, Execute(b, m, cmd, latched).0, base);
  }

  lemma ApplyLocalKeeps(b: Board, c: Core, cmd: Command, base: nat)
    requires Sound(b, c, base)
    ensures Sound(b, ApplyLocal(b, c, cmd).0, base)
    ensures c.motor.wire <= ApplyLocal(b, c, cmd).0.motor.wire
  {
    hide Reset, LaneSince;
    ResetKeeps(b, c.motor, base);
    var (m1, e1) := if cmd.ResetFault() then Reset(b, c.motor) else (c.motor, 0);
    StopKeeps(b, m1, base);
  }

  lemma ApplyRemoteKeeps(b: Board, c: Core, cmd: Command, now: nat, base: nat)
    requires Sound(b, c, base) && Acceptable(cmd)
    ensures Sound(b, ApplyRemote(b, c, cmd, now).0, base)
    ensures c.motor.wire <= ApplyRemote(b, c, cmd, now).0.motor.wire
  {
    var m2 := c.motor.(accel := cmd.accel, decel := cmd.decel, target := cmd.duty);
    assert Configure(c.motor, cmd) == (m2, 0);
    hide ExecuteAndStart, LaneSince;
    ExecuteAndStartKeeps(b, m2, cmd, c.latched, base);
  }

  lemma ApplyKeeps(b: Board, c: Core, cmd: Command, now: nat, base: nat)
    requires Sound(b, c, base) && Acceptable(cmd)
    ensures Sound(b, Apply(b, c, cmd, now).0, base)
    ensures c.motor.wire <= Apply(b, c, cmd, now).0.motor.wire
  {
    ApplyLocalKeeps(b, c, cmd, base);
    ApplyRemoteKeeps(b, c, cmd, now, base);
  }

  lemma WatchdogKeeps(b: Board, c: Core, now: nat, base: nat)
    requires Sound(b, c, base)
    ensures Sound(b, Watchdog(c, now), base)
  {
  }

  lemma IpcKeeps(b: Board, c: Core, e: Event, base: nat)
    requires Sound(b, c, base) && Legal(e)
    ensures Sound(b, Ipc(b, c, e), base)
    ensures c.motor.wire <= Ipc(b, c, e).motor.wire
  {
    var c1 := if e.command.Some? then Apply(b, c, e.command.value, e.tCommand).0 else c;
    if e.command.Some? {
      ApplyKeeps(b, c, e.command.value, e.tCommand, base);
    }
    WatchdogKeeps(b, c1, e.tWatchdog, base);
  }

  lemma PotentiometerKeeps(b: Board, c: Core, r: Reading, base: nat)
    requires Sound(b, c, base)
    ensures Sound(b, Potentiometer(b, c, r), base)
    ensures c.motor.wire <= Potentiometer(b, c, r).motor.wire
  {
    if r.Failed? {
      RecordFaultKeeps(b, c.motor, r.error, base);
    }
  }

  lemma LocalCommandsKeep(b: Board, m: Motor, toggle: bool, start: bool, base: nat)
    requires Safe(b, m, base)
    ensures var m1 := if toggle then ToggleDirection(m).0 else m;
            var r := if start then Start(b, m1).0 else m1;
            && Safe(b, r, base) && m.wire <= r.wire
            && r.target == m.target && r.accel == m.accel && r.decel == m.decel
  {
    StartKeeps(b, if toggle then ToggleDirection(m).0 else m, base);
  }

  lemma ArbitrateKeeps(b: Board, c: Core, e: Event, base: nat)
    requires Sound(b, c, base)
    ensures Sound(b, Arbitrate(b, c, e), base)
    ensures c.motor.wire <= Arbitrate(b, c, e).motor.wire
  {
    if e.stop {
      StopKeeps(b, c.motor, base);
    } else if e.reset {
      ResetKeeps(b, c.motor, base);
    } else {
      LocalCommandsKeep(b, c.motor, e.toggle, e.start, base);
    }
  }

  lemma StepKeeps(b: Board, c: Core, e: Event, base: nat)
    requires Sound(b, c, base) && Legal(e)
    ensures Sound(b, Decide(b, c, e), base)
    ensures Sound(b, Step(b, c, e), base)
    ensures c.motor.wire <= Step(b, c, e).motor.wire
  {
    hide Ipc, Potentiometer, Arbitrate, Process;
    IpcKeeps(b, c, e, base);
    var c1 := Ipc(b, c, e);
    PotentiometerKeeps(b, c1, e.reading, base);
    ArbitrateKeeps(b, Potentiometer(b, c1, e.reading), e, base);
    var c3 := Decide(b, c, e);
    ProcessKeeps(b, c3.motor, LOOP_MS, base);
    ProcessNeverStarts(b, c3.motor);
  }

  /** The periodic processing changes neither commands nor ramps and never starts the motor. */
  lemma ProcessNeverStarts(b: Board, m: Motor)
    ensures var r := Process(b, m, LOOP_MS).0;
            && (r.state == Running ==> m.state == Running)
            && r.target == m.target && r.accel == m.accel && r.decel == m.decel
  {
  }

  /** In every run of the main loop, whatever happens outside, the motor stays safe, the bridge
      history stays orderly, local mode keeps the default ramps, and remote mode keeps ramps,
      target and timeout in the command's ranges. */
  lemma {:induction false} StepsKeep(b: Board, c: Core, es: seq<Event>, base: nat)
    requires Sound(b, c, base) && AllLegal(es)
    ensures Sound(b, Steps(b, c, es), base)
    ensures c.motor.wire <= Steps(b, c, es).motor.wire
    ensures NeverUnsafe(Steps(b, c, es).motor.wire, base)
    decreases |es|
  {
    if |es| > 0 {
      StepsKeep(b, c, es[..|es| - 1], base);
      StepKeeps(b, Steps(b, c, es[..|es| - 1]), Last(es), base);
    }
    SafeHistory(Steps(b, c, es).motor.wire, base);
  }

  lemma BootIsSound(b: Board, m: Motor, ready: bool, c1: int, c2: int)
    requires DUTY_MIN <= m.target <= DUTY_MAX && m.accel == RUN_RAMP && m.decel == STOP_RAMP
    requires Init(b, m, ready, c1, c2).1 == 0
    ensures var m0 := Init(b, m, ready, c1, c2).0; Sound(b, Boot(m0), |m0.wire| - 1)
  {
    InitEstablishes(b, m, ready, c1, c2);
  }
}
