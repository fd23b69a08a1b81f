/** What the M4 main loop guarantees over whole runs: the command watchdog, the STOP latch, who
    controls the motor, and what clears a fault. */
module M4Safety {
  import opened Words
  import opened Options
  import opened Contract
  import opened MotorModel
  import opened M4Core
  import MotorRamps

  const WRAP := 0x1_0000_0000

  // ----- The watchdog on the wrapping clock -----

  /** The wrapping age is the true age modulo 2^32. */
  lemma AgeIsModular(c: Core, now: nat)
    requires c.stamp == U32(c.since) && c.since <= now
    ensures Age(c, now) == (now - c.since) % WRAP
  {
    WrappingDifference(now, c.since);
  }

  /** The wrapping test agrees with the true age exactly when the age is not a late multiple of
      the clock's period plus at most the timeout. */
  lemma AgeTestExactness(c: Core, now: nat)
    requires c.stamp == U32(c.since) && c.since <= now
    ensures (Age(c, now) <= c.timeout <==> now - c.since <= c.timeout)
            <==> !(now - c.since >= WRAP && (now - c.since) % WRAP <= c.timeout)
  {
    AgeIsModular(c, now);
  }

  /** Until it has tripped, the watchdog was satisfied at its last test. */
  ghost predicate Fed(c: Core) {
    c.remote && !c.timedOut ==> c.since <= c.checked <= c.since + c.timeout
  }

  /** The iteration follows the previous test by less than 2^32 - 10000 ms. */
  ghost predicate Timely(checked: nat, e: Event) {
    checked <= e.tCommand <= e.tWatchdog < checked + WRAP - TIMEOUT_MAX
  }

  ghost predicate Paced(checked: nat, es: seq<Event>)
    decreases |es|
  {
    |es| == 0 ||
    var init := es[..|es| - 1];
    Paced(checked, init) && Timely(if |init| == 0 then checked else Last(init).tWatchdog, Last(es))
  }

  lemma ApplyTimes(b: Board, c: Core, cmd: Command, now: nat)
    ensures var r := Apply(b, c, cmd, now).0;
            && r.checked == c.checked
            && (cmd.mode != MODE_LOCAL ==> r.remote && r.since == now && !r.timedOut && r.timeout == cmd.timeout)
            && (cmd.mode == MODE_LOCAL ==> r.since == c.since && r.timeout == c.timeout
                                           && (r.remote ==> c.remote && r.timedOut == c.timedOut))
  {
  }

  lemma LaterPhasesKeepTimes(b: Board, c: Core, e: Event)
    ensures var i, r := Ipc(b, c, e), Step(b, c, e);
            && r.since == i.since && r.checked == i.checked == e.tWatchdog
            && r.timeout == i.timeout && r.remote == i.remote && r.timedOut == i.timedOut
            && r.stamp == i.stamp && r.lastAccepted == i.lastAccepted
  {
    var i := Ipc(b, c, e);
    assert i.checked == e.tWatchdog;
    ArbitrateKeepsTimes(b, Potentiometer(b, i, e.reading), e);
  }

  lemma ArbitrateKeepsTimes(b: Board, c: Core, e: Event)
    ensures var r := Arbitrate(b, c, e);
            r == c.(motor := r.motor, latched := r.latched)
  {
  }

  lemma WatchdogFeeds(c: Core, now: nat)
    requires c.stamp == U32(c.since)
    requires c.remote && !c.timedOut ==> c.since <= now && now - c.since < WRAP
    ensures Fed(Watchdog(c, now))
  {
    if c.remote && !c.timedOut {
      AgeIsModular(c, now);
    }
  }

  lemma StepKeepsFed(b: Board, c: Core, e: Event, base: nat)
    requires Sound(b, c, base) && Legal(e) && Fed(c) && Timely(c.checked, e)
    ensures Fed(Step(b, c, e)) && Step(b, c, e).checked == e.tWatchdog
  {
    var c1 := if e.command.Some? then Apply(b, c, e.command.value, e.tCommand).0 else c;
    if e.command.Some? {
      ApplyTimes(b, c, e.command.value, e.tCommand);
      ApplyKeeps(b, c, e.command.value, e.tCommand, base);
    }
    WatchdogFeeds(c1, e.tWatchdog);
    LaterPhasesKeepTimes(b, c, e);
  }

  lemma {:induction false} StepsKeepFed(b: Board, c: Core, es: seq<Event>, base: nat)
    requires Sound(b, c, base) && AllLegal(es) && Fed(c) && Paced(c.checked, es)
    ensures Fed(Steps(b, c, es))
    ensures Steps(b, c, es).checked == if |es| == 0 then c.checked else Last(es).tWatchdog
    decreases |es|
  {
    if |es| > 0 {
      var init := es[..|es| - 1];
      StepsKeepFed(b, c, init, base);
      StepsKeep(b, c, init, base);
      StepKeepsFed(b, Steps(b, c, init), Last(es), base);
    }
  }

  /** At the first test later than the timeout the watchdog trips, across any clock wrap-around. */
  lemma OverdueTrips(b: Board, c: Core, e: Event, base: nat)
    requires Sound(b, c, base) && Fed(c) && c.remote && e.command.None?
    requires Timely(c.checked, e)
    requires e.tWatchdog > c.since + c.timeout
    ensures Ipc(b, c, e).remote && Ipc(b, c, e).timedOut
  {
  }

  /** Saturating subtraction. */
  function Less(a: int, d: int): nat {
    if a <= d then 0 else a - d
  }

  lemma ProcessRampsDown(b: Board, m: Motor, base: nat)
    requires Safe(b, m, base) && m.state != Running
    ensures Process(b, m, LOOP_MS).0.duty <= Less(m.duty, RampStep(m.decel, LOOP_MS))
    ensures Process(b, m, LOOP_MS).0.state != Running
  {
  }

  /** In remote mode, with the watchdog tripped or a STOP in force, the phases between the watchdog
      and the motor's processing neither start the motor nor raise the duty. */
  lemma RemotePhasesStayStopped(b: Board, c: Core, e: Event, base: nat)
    requires Sound(b, c, base) && c.remote && c.motor.state != Running
    ensures var r := Arbitrate(b, Potentiometer(b, c, e.reading), e);
            && Sound(b, r, base)
            && r.remote && r.motor.state != Running && r.motor.duty <= c.motor.duty
            && r.motor.decel == c.motor.decel
  {
    hide LaneSince, Start;
    var c1 := Potentiometer(b, c, e.reading);
    PotentiometerKeeps(b, c, e.reading, base);
    ArbitrateKeeps(b, c1, e, base);
    assert c1.motor.duty <= c.motor.duty && c1.motor.decel == c.motor.decel;
  }

  lemma TrippedStep(b: Board, c: Core, e: Event, base: nat)
    requires Sound(b, c, base) && c.remote && e.command.None? && Ipc(b, c, e).timedOut
    ensures var r := Step(b, c, e);
            && Sound(b, r, base) && r.remote && r.timedOut && r.motor.state != Running
            && r.motor.decel == c.motor.decel
            && r.motor.duty <= Less(c.motor.duty, RampStep(c.motor.decel, LOOP_MS))
  {
    LaterPhasesKeepTimes(b, c, e);
    hide Process, Potentiometer, Arbitrate, RampStep;
    IpcKeeps(b, c, e, base);
    StepKeeps(b, c, e, base);
    var i := Ipc(b, c, e);
    assert i.motor.duty == c.motor.duty && i.motor.decel == c.motor.decel;
    RemotePhasesStayStopped(b, i, e, base);
    var d := Decide(b, c, e);
    ProcessRampsDown(b, d.motor, base);
    ProcessNeverStarts(b, d.motor);
  }

  ghost predicate NoCommand(es: seq<Event>) {
    forall i :: 0 <= i < |es| ==> es[i].command.None?
  }

  lemma LessLess(a: int, d: int, n: nat)
    requires d >= 0
    ensures Less(Less(a, n * d), d) <= Less(a, (n + 1) * d)
  {
  }

  lemma {:induction false} TrippedRun(b: Board, c: Core, es: seq<Event>, base: nat)
    requires Sound(b, c, base) && c.remote && |es| > 0 && NoCommand(es)
    requires Ipc(b, c, es[0]).timedOut
    ensures var r := Steps(b, c, es);
            && Sound(b, r, base) && r.remote && r.timedOut && r.motor.state != Running
            && r.motor.decel == c.motor.decel
            && r.motor.duty <= Less(c.motor.duty, |es| * RampStep(c.motor.decel, LOOP_MS))
    decreases |es|
  {
    var init := es[..|es| - 1];
    var step := RampStep(c.motor.decel, LOOP_MS);
    if |es| == 1 {
      assert init == [] && Last(es) == es[0];
      TrippedStep(b, c, es[0], base);
      assert 1 * step == step;
    } else {
      assert init[0] == es[0];
      TrippedRun(b, c, init, base);
      TrippedStep(b, Steps(b, c, init), Last(es), base);
      LessLess(c.motor.duty, step, |init|);
      assert |es| == |init| + 1;
    }
  }

  /** The dead-man property. Once the true age of the last remote command exceeds its timeout and
      no further command is processed, the motor is not RUNNING at the end of that iteration or of
      any later one; its duty falls by at least one deceleration step an iteration, counting that
      one, and is zero from the iteration on at which the steps cover it. This holds for every
      button, potentiometer and hardware outcome. */
  lemma DeadMan(b: Board, c: Core, es: seq<Event>, base: nat)
    requires Sound(b, c, base) && Fed(c) && c.remote
    requires |es| > 0 && NoCommand(es) && Timely(c.checked, es[0])
    requires es[0].tWatchdog > c.since + c.timeout
    ensures var step := RampStep(c.motor.decel, LOOP_MS);
            var r := Steps(b, c, es);
            && step == (if c.motor.decel < 100 then 1 else c.motor.decel / 100)
            && r.motor.state != Running
            && r.motor.duty <= Less(c.motor.duty, |es| * step)
            && (c.motor.duty <= |es| * step ==>
                  r.motor.duty == 0 && (r.motor.state == Ready ==> Released(Outputs(r.motor)))
                  && r.motor.state in {Ready, Fault})
  {
    OverdueTrips(b, c, es[0], base);
    TrippedRun(b, c, es, base);
    MotorRamps.LoopStep(c.motor.decel);
    hide Steps, RampStep, LaneSince, Ipc;
  }

  /** Without outside intervention a running remote motor keeps running exactly while the wrapping
      age is within the timeout. */
  lemma RunningExactlyWhileFed(b: Board, c: Core, e: Event, base: nat)
    requires Sound(b, c, base) && c.remote && c.motor.state == Running && c.since <= e.tWatchdog
    requires e.command.None? && e.reading.Sampled? && !e.stop && !e.reset
    requires forall i: nat :: b.rc(i) >= 0
    ensures Step(b, c, e).motor.state == Running <==> (e.tWatchdog - c.since) % WRAP <= c.timeout
  {
    AgeIsModular(c, e.tWatchdog);
    hide Age, Process, LaneSince, Stop;
    if Age(c, e.tWatchdog) > c.timeout {
      assert Ipc(b, c, e).timedOut;
      TrippedStep(b, c, e, base);
    } else {
      assert Ipc(b, c, e).motor == c.motor;
      assert Decide(b, c, e).motor == c.motor;
      ProcessWithoutFailureKeepsRunning(b, c.motor, base);
    }
  }

  // A motor freshly initialized on working hardware.
  const WORKING: Board := Board(200000, _ => 0)
  const IDLE: Motor := Motor(Ready, Forward, 0, 800, 0, 0, 1000, 4000, [Pins(0, false, false)])

  lemma IdleIsSafe()
    ensures Safe(WORKING, IDLE, 0)
  {
  }

  /** The pacing bound is needed: a loop stalled for one whole period of the clock hides the
      silence, and the motor keeps running on a command that is 2^32 ms old. */
  lemma StallHidesSilence(c: Core, e: Event)
    requires c == Core(Start(WORKING, IDLE).0, true, false, false, 1000, 0, 0, 0, 0)
    requires e == Event(None, Sampled(800), false, false, false, false, 0, WRAP)
    ensures Sound(WORKING, c, 0) && Fed(c) && e.tWatchdog > c.since + c.timeout
    ensures Step(WORKING, c, e).motor.state == Running
  {
    IdleIsSafe();
    StartKeeps(WORKING, IDLE, 0);
    StartEffect(WORKING, IDLE);
    var m := Start(WORKING, IDLE).0;
    assert m.target == 800 && m.accel == 1000 && m.decel == 4000;
    RunningExactlyWhileFed(WORKING, c, e, 0);
  }

  lemma ProcessWithoutFailureKeepsRunning(b: Board, m: Motor, base: nat)
    requires Safe(b, m, base) && m.state == Running
    requires forall i: nat :: b.rc(i) >= 0
    ensures Process(b, m, LOOP_MS).0.state == Running
  {
  }

  // ----- The physical STOP latch -----

  /** An iteration that may release the latch or bypass it: a physical RESET without STOP, or a
      processed command that is local, resets a fault, or quick-stops. */
  predicate Releases(e: Event) {
    || (e.reset && !e.stop)
    || (e.command.Some? &&
          (e.command.value.mode == MODE_LOCAL || e.command.value.ResetFault()
           || e.command.value.QuickStop()))
  }

  /** A STOP in remote mode sets the latch, and the motor is not RUNNING when the iteration ends. */
  lemma StopLatches(b: Board, c: Core, e: Event, base: nat)
    requires Sound(b, c, base) && Legal(e)
    requires e.stop && Ipc(b, c, e).remote
    ensures var r := Step(b, c, e); r.remote && r.latched && r.motor.state != Running
  {
    IpcKeeps(b, c, e, base);
    PotentiometerKeeps(b, Ipc(b, c, e), e.reading, base);
    ProcessNeverStarts(b, Decide(b, c, e).motor);
  }

  lemma LatchedApply(b: Board, c: Core, cmd: Command, now: nat, base: nat)
    requires Sound(b, c, base) && Acceptable(cmd)
    requires c.remote && c.latched && c.motor.state != Running
    requires cmd.mode != MODE_LOCAL && !cmd.ResetFault() && !cmd.QuickStop()
    ensures var r := Apply(b, c, cmd, now).0; r.remote && r.latched && r.motor.state != Running
  {
  }

  lemma LatchedStep(b: Board, c: Core, e: Event, base: nat)
    requires Sound(b, c, base) && Legal(e) && !Releases(e)
    requires c.remote && c.latched && c.motor.state != Running
    ensures var r := Step(b, c, e);
            Sound(b, r, base) && r.remote && r.latched && r.motor.state != Running
  {
    if e.command.Some? {
      LatchedApply(b, c, e.command.value, e.tCommand, base);
    }
    IpcKeeps(b, c, e, base);
    StepKeeps(b, c, e, base);
    RemotePhasesStayStopped(b, Ipc(b, c, e), e, base);
    ProcessNeverStarts(b, Decide(b, c, e).motor);
  }

  /** While latched, the motor is not RUNNING at the end of any iteration, whatever the buttons,
      the hardware and any number of refreshed RUN commands do, until an iteration releases it. */
  lemma {:induction false} LatchHolds(b: Board, c: Core, es: seq<Event>, base: nat)
    requires Sound(b, c, base) && AllLegal(es)
    requires c.remote && c.latched && c.motor.state != Running
    requires forall i :: 0 <= i < |es| ==> !Releases(es[i])
    ensures var r := Steps(b, c, es);
            Sound(b, r, base) && r.remote && r.latched && r.motor.state != Running
    decreases |es|
  {
    if |es| > 0 {
      LatchHolds(b, c, es[..|es| - 1], base);
      LatchedStep(b, Steps(b, c, es[..|es| - 1]), Last(es), base);
    }
  }

  /** With working hardware, a latched motor that is not running runs at the end of an iteration
      with a remote command exactly when the command asks for RUN and ENABLE together with
      RESET_FAULT or, unless the motor is in fault, with QUICK_STOP, and nothing stops it again.
      So a QUICK_STOP that also asks to run gets past the latch, which then stays set. */
  lemma LatchBypass(b: Board, c: Core, e: Event, base: nat)
    requires Sound(b, c, base) && Legal(e) && e.command.Some?
    requires c.remote && c.latched && c.motor.state != Running
    requires forall i: nat :: b.rc(i) >= 0
    requires e.tCommand <= e.tWatchdog <= e.tCommand + TIMEOUT_MIN && e.reading.Sampled?
    requires !e.stop && !e.reset && e.command.value.mode != MODE_LOCAL
    ensures var cmd := e.command.value;
            var r := Step(b, c, e);
            && (r.motor.state == Running <==>
                  cmd.Run() && cmd.Enable()
                  && (cmd.ResetFault() || (cmd.QuickStop() && c.motor.state != Fault)))
            && r.latched == !cmd.ResetFault()
  {
    hide Apply, Process;
    var cmd := e.command.value;
    var c1 := Apply(b, c, cmd, e.tCommand).0;
    ApplyKeeps(b, c, cmd, e.tCommand, base);
    ApplyTimes(b, c, cmd, e.tCommand);
    AgeIsModular(c1, e.tWatchdog);
    LatchedRemoteCommand(b, c, cmd, e.tCommand, base);
    assert Decide(b, c, e).motor == c1.motor;
    if c1.motor.state == Running {
      ProcessWithoutFailureKeepsRunning(b, c1.motor, base);
    } else {
      ProcessNeverStarts(b, c1.motor);
    }
  }

  lemma LatchedRemoteCommand(b: Board, c: Core, cmd: Command, now: nat, base: nat)
    requires Sound(b, c, base) && Acceptable(cmd) && cmd.mode != MODE_LOCAL
    requires c.remote && c.latched && c.motor.state != Running
    requires forall i: nat :: b.rc(i) >= 0
    ensures var r := Apply(b, c, cmd, now).0;
            && r.remote && r.latched == !cmd.ResetFault()
            && (r.motor.state == Running <==>
                  cmd.Run() && cmd.Enable()
                  && (cmd.ResetFault() || (cmd.QuickStop() && c.motor.state != Fault)))
  {
    var m2 := c.motor.(accel := cmd.accel, decel := cmd.decel, target := cmd.duty);
    assert Apply(b, c, cmd, now).0.motor == ExecuteAndStart(b, m2, cmd, true).0;
    var m3 := Execute(b, m2, cmd, true).0;
    if m3.state == Ready {
      StartEffect(b, m3);
    }
  }

  // ----- Who controls the motor -----

  /** The motor's target, ramps and timeout, and the watchdog's start, come from this event. */
  ghost predicate OwnedBy(c: Core, e: Event) {
    && e.command.Some?
    && var cmd := e.command.value;
    && cmd.mode != MODE_LOCAL
    && c.motor.target == cmd.duty && c.motor.accel == cmd.accel && c.motor.decel == cmd.decel
    && c.timeout == cmd.timeout && c.since == e.tCommand
  }

  predicate RemoteCommand(e: Event) {
    e.command.Some? && e.command.value.mode != MODE_LOCAL
  }

  lemma DriverCallsKeepSettings(b: Board, m: Motor, error: int)
    ensures var r := RecordFault(b, m, error);
            r.target == m.target && r.accel == m.accel && r.decel == m.decel
    ensures var r := Reset(b, m).0;
            r.target == m.target && r.accel == m.accel && r.decel == m.decel
  {
  }

  lemma SettingsAfterIpc(b: Board, c: Core, e: Event)
    requires Ipc(b, c, e).remote
    ensures var i, r := Ipc(b, c, e), Step(b, c, e);
            && r.motor.target == i.motor.target
            && r.motor.accel == i.motor.accel && r.motor.decel == i.motor.decel
  {
    var i := Ipc(b, c, e);
    var p := Potentiometer(b, i, e.reading);
    DriverCallsKeepSettings(b, i.motor, if e.reading.Failed? then e.reading.error else 0);
    DriverCallsKeepSettings(b, p.motor, 0);
    ProcessNeverStarts(b, Decide(b, c, e).motor);
  }

  lemma SettingsAfterApply(b: Board, c: Core, cmd: Command, now: nat, base: nat)
    requires Sound(b, c, base) && Acceptable(cmd)
    ensures var m := Apply(b, c, cmd, now).0.motor;
            && (cmd.mode != MODE_LOCAL ==>
                  m.target == cmd.duty && m.accel == cmd.accel && m.decel == cmd.decel)
            && (cmd.mode == MODE_LOCAL && Apply(b, c, cmd, now).0.remote ==>
                  m.target == c.motor.target && m.accel == c.motor.accel && m.decel == c.motor.decel)
  {
    if cmd.mode != MODE_LOCAL {
      var m2 := c.motor.(accel := cmd.accel, decel := cmd.decel, target := cmd.duty);
      assert ApplyRemote(b, c, cmd, now).0.motor == ExecuteAndStart(b, m2, cmd, c.latched).0;
      ExecuteAndStartKeeps(b, m2, cmd, c.latched, base);
    } else {
      DriverCallsKeepSettings(b, c.motor, 0);
    }
  }

  lemma OwnershipStep(b: Board, c: Core, e: Event, base: nat)
    requires Sound(b, c, base) && Legal(e)
    ensures var r := Step(b, c, e);
            && (RemoteCommand(e) ==> r.remote && OwnedBy(r, e))
            && (!RemoteCommand(e) && r.remote ==> c.remote && SameSettings(r, c))
  {
    LaterPhasesKeepTimes(b, c, e);
    hide Apply, Process, Reset, RecordFault, Start;
    if e.command.Some? {
      ApplyTimes(b, c, e.command.value, e.tCommand);
      SettingsAfterApply(b, c, e.command.value, e.tCommand, base);
    }
    if Ipc(b, c, e).remote {
      SettingsAfterIpc(b, c, e);
    }
  }

  ghost predicate SameSettings(c: Core, d: Core) {
    && c.motor.target == d.motor.target
    && c.motor.accel == d.motor.accel && c.motor.decel == d.motor.decel
    && c.timeout == d.timeout && c.since == d.since
  }

  lemma SameSettingsSameOwner(c: Core, d: Core, e: Event)
    requires SameSettings(c, d) && OwnedBy(d, e)
    ensures OwnedBy(c, e)
  {
  }

  /** The most recent remote command of a run, or -1. */
  function LastRemote(es: seq<Event>): (k: int)
    ensures -1 <= k < |es|
    ensures k >= 0 ==> RemoteCommand(es[k])
    ensures forall i :: k < i < |es| ==> !RemoteCommand(es[i])
    decreases |es|
  {
    if |es| == 0 then -1
    else if RemoteCommand(Last(es)) then |es| - 1
    else LastRemote(es[..|es| - 1])
  }

  /** In remote mode the target, ramps, timeout and watchdog start are those of the most recent
      remote command processed in the run, whether or not its application succeeded. */
  lemma {:induction false} Ownership(b: Board, c: Core, es: seq<Event>, base: nat)
    requires Sound(b, c, base) && AllLegal(es) && !c.remote && Steps(b, c, es).remote
    ensures LastRemote(es) >= 0 && OwnedBy(Steps(b, c, es), es[LastRemote(es)])
    decreases |es|
  {
    if |es| > 0 {
      var init, e := es[..|es| - 1], Last(es);
      StepsKeep(b, c, init, base);
      OwnershipStep(b, Steps(b, c, init), e, base);
      if !RemoteCommand(e) {
        Ownership(b, c, init, base);
        SameSettingsSameOwner(Steps(b, c, es), Steps(b, c, init), es[LastRemote(es)]);
      }
    }
  }

  /** A command that got the motor running and was applied. */
  predicate StartsRemotely(b: Board, c: Core, e: Event) {
    RemoteCommand(e) && e.command.value.Run() && e.command.value.Enable()
    && Apply(b, c, e.command.value, e.tCommand).1 == 0
  }

  lemma LocalCommandNeverStarts(b: Board, c: Core, cmd: Command)
    ensures ApplyLocal(b, c, cmd).0.motor.state == Running ==> c.motor.state == Running
  {
  }

  lemma RemoteCommandStarts(b: Board, c: Core, cmd: Command, now: nat)
    requires Acceptable(cmd) && cmd.mode != MODE_LOCAL
    requires c.motor.state != Running && ApplyRemote(b, c, cmd, now).0.motor.state == Running
    ensures cmd.Run() && cmd.Enable() && ApplyRemote(b, c, cmd, now).1 == 0
  {
    hide ExecuteAndStart;
    var m2 := c.motor.(accel := cmd.accel, decel := cmd.decel, target := cmd.duty);
    NotStartedUnlessAsked(b, m2, cmd, c.latched);
  }

  lemma WatchdogNeverStarts(c: Core, now: nat)
    ensures Watchdog(c, now).motor.state == Running ==> c.motor.state == Running
  {
  }

  lemma EntryDuringIpc(b: Board, c: Core, e: Event, base: nat)
    requires Sound(b, c, base) && Legal(e)
    requires c.motor.state != Running && Ipc(b, c, e).motor.state == Running
    ensures StartsRemotely(b, c, e)
  {
    hide ApplyLocal, ApplyRemote, Watchdog, Acceptable;
    WatchdogNeverStarts(c, e.tWatchdog);
    assert e.command.Some?;
    var cmd := e.command.value;
    WatchdogNeverStarts(Apply(b, c, cmd, e.tCommand).0, e.tWatchdog);
    if cmd.mode == MODE_LOCAL {
      LocalCommandNeverStarts(b, c, cmd);
    } else {
      RemoteCommandStarts(b, c, cmd, e.tCommand);
    }
  }

  /** Every entry into RUNNING has a cause: a successfully applied command with RUN and ENABLE, or
      a START press in local mode without STOP or RESET in the same iteration. */
  lemma EntryIntoRunning(b: Board, c: Core, e: Event, base: nat)
    requires Sound(b, c, base) && Legal(e)
    requires c.motor.state != Running && Step(b, c, e).motor.state == Running
    ensures || StartsRemotely(b, c, e)
            || (!Ipc(b, c, e).remote && e.start && !e.stop && !e.reset)
  {
    hide Ipc, Process, Start;
    ProcessNeverStarts(b, Decide(b, c, e).motor);
    if Ipc(b, c, e).motor.state == Running {
      EntryDuringIpc(b, c, e, base);
    } else {
      assert Potentiometer(b, Ipc(b, c, e), e.reading).motor.state != Running;
    }
  }

  lemma NotStartedUnlessAsked(b: Board, m: Motor, cmd: Command, latched: bool)
    requires m.state != Running
    ensures var r := ExecuteAndStart(b, m, cmd, latched);
            r.0.state == Running ==> r.1 == 0 && cmd.Run() && cmd.Enable()
  {
    assert Execute(b, m, cmd, latched).0.state != Running;
  }

  // ----- Faults -----

  /** No automatic restart: a fault persists until a physical RESET without STOP, or a processed
      command with RESET_FAULT, whatever else happens. */
  lemma {:induction false} FaultPersists(b: Board, c: Core, es: seq<Event>)
    requires c.motor.state == Fault
    requires forall i :: 0 <= i < |es| ==>
               && !(es[i].reset && !es[i].stop)
               && (es[i].command.Some? ==> !es[i].command.value.ResetFault())
    ensures Steps(b, c, es).motor.state == Fault
    decreases |es|
  {
    if |es| > 0 {
      FaultPersists(b, c, es[..|es| - 1]);
      FaultStep(b, Steps(b, c, es[..|es| - 1]), Last(es));
    }
  }

  lemma FaultStep(b: Board, c: Core, e: Event)
    requires c.motor.state == Fault && !(e.reset && !e.stop)
    requires e.command.Some? ==> !e.command.value.ResetFault()
    ensures Step(b, c, e).motor.state == Fault
  {
    if e.command.Some? {
      FaultedApply(b, c, e.command.value, e.tCommand);
    }
    var i := Ipc(b, c, e);
    assert i.motor.state == Fault;
    assert Potentiometer(b, i, e.reading).motor.state == Fault;
  }

  lemma FaultedApply(b: Board, c: Core, cmd: Command, now: nat)
    requires c.motor.state == Fault && !cmd.ResetFault()
    ensures Apply(b, c, cmd, now).0.motor.state == Fault
  {
  }

  // ----- The dead man over a whole run -----

  lemma {:induction false} StepsCompose(b: Board, c: Core, pre: seq<Event>, post: seq<Event>)
    ensures Steps(b, c, pre + post) == Steps(b, Steps(b, c, pre), post)
    decreases |post|
  {
    hide Step;
    if |post| == 0 {
      assert pre + post == pre;
    } else {
      var es := pre + post;
      assert es[..|es| - 1] == pre + post[..|post| - 1];
      StepsCompose(b, c, pre, post[..|post| - 1]);
    }
  }

  /** From power-up: whenever the last remote command of `pre` is overdue at the first iteration of
      `post` and no command is processed in `post`, the motor is off RUNNING for all of `post` and
      stopped once the steps of that command's own deceleration cover the duty. */
  lemma DeadManOverRuns(b: Board, boot: Core, pre: seq<Event>, post: seq<Event>, base: nat)
    requires Sound(b, boot, base) && !boot.remote
    requires AllLegal(pre) && Paced(boot.checked, pre) && Steps(b, boot, pre).remote
    requires |post| > 0 && NoCommand(post)
    requires Timely(if |pre| == 0 then boot.checked else Last(pre).tWatchdog, post[0])
    requires LastRemote(pre) >= 0 ==>
               var last := pre[LastRemote(pre)];
               post[0].tWatchdog > last.tCommand + last.command.value.timeout
    ensures LastRemote(pre) >= 0
    ensures var decel := pre[LastRemote(pre)].command.value.decel;
            var step := if decel < 100 then 1 else decel / 100;
            var before, after := Steps(b, boot, pre), Steps(b, boot, pre + post);
            && after.motor.state != Running
            && after.motor.duty <= Less(before.motor.duty, |post| * step)
            && (before.motor.duty <= |post| * step ==>
                  after.motor.duty == 0 && after.motor.state in {Ready, Fault})
  {
    StepsKeep(b, boot, pre, base);
    StepsKeepFed(b, boot, pre, base);
    Ownership(b, boot, pre, base);
    StepsCompose(b, boot, pre, post);
    DeadMan(b, Steps(b, boot, pre), post, base);
  }
}
