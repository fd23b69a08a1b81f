/** What each documented motor command achieves within one iteration, when the hardware works and
    nothing else interferes. */
module M4Commands {
  import opened Words
  import opened Options
  import opened Contract
  import opened MotorModel
  import opened M4Core
  import T = M4Safety

  /** A command is processed in time, every write succeeds, and no button stops or resets. */
  ghost predicate Undisturbed(b: Board, c: Core, e: Event, base: nat) {
    && Sound(b, c, base) && (forall i: nat :: b.rc(i) >= 0)
    && e.command.Some? && Acceptable(e.command.value)
    && e.reading.Sampled? && !e.stop && !e.reset
    && e.tCommand <= e.tWatchdog <= e.tCommand + e.command.value.timeout
  }

  predicate IsRemote(cmd: Command) {
    cmd.mode != MODE_LOCAL
  }

  /** The motor as the command finds it, with the command's settings. */
  function Configured(c: Core, cmd: Command): Motor {
    c.motor.(accel := cmd.accel, decel := cmd.decel, target := cmd.duty)
  }

  /** The rest of the iteration only runs the motor's periodic processing. */
  lemma RemoteIteration(b: Board, c: Core, e: Event, base: nat)
    requires Undisturbed(b, c, e, base) && IsRemote(e.command.value)
    ensures var cmd := e.command.value;
            var (m, ret) := ExecuteAndStart(b, Configured(c, cmd), cmd, c.latched);
            var r := Step(b, c, e);
            && r.motor == Process(b, m, LOOP_MS).0
            && Safe(b, Configured(c, cmd), base) && Safe(b, m, base)
            && r.remote && !r.timedOut && r.latched == (c.latched && !cmd.ResetFault())
            && r.lastAccepted == if ret == 0 then cmd.sequence else c.lastAccepted
  {
    var cmd := e.command.value;
    var m0 := Configured(c, cmd);
    assert Configure(c.motor, cmd) == (m0, 0);
    hide LaneSince, Process, ExecuteAndStart, Age;
    ExecuteAndStartKeeps(b, m0, cmd, c.latched, base);
    hide U32, Acceptable, RecordFault;
    InTime(Apply(b, c, cmd, e.tCommand).0, e.tWatchdog);
  }

  /** A command processed this recently satisfies the watchdog. */
  lemma InTime(c: Core, now: nat)
    requires c.stamp == U32(c.since) && c.since <= now <= c.since + c.timeout
    ensures Watchdog(c, now) == c.(checked := now)
  {
  }

  /** Asks only to run. */
  predicate PlainRun(c: Command) {
    c.Enable() && c.Run() && !c.ResetFault() && !c.QuickStop()
  }

  /** START: from a ready, unlatched motor, in the direction asked for. */
  lemma StartCommand(b: Board, c: Core, e: Event, base: nat)
    requires Undisturbed(b, c, e, base) && c.motor.state == Ready && !c.latched
    requires IsRemote(e.command.value) && PlainRun(e.command.value)
    ensures var r := Step(b, c, e);
            var cmd := e.command.value;
            && r.motor.state == Running && r.motor.duty == BOOST_DUTY
            && r.motor.target == cmd.duty && r.motor.direction == Wanted(cmd)
            && r.motor.accel == cmd.accel && r.motor.decel == cmd.decel && r.motor.lastError == 0
            && Drives(Outputs(r.motor), Wanted(cmd))
            && r.remote && !r.timedOut && !r.latched && r.lastAccepted == cmd.sequence
  {
    RemoteIteration(b, c, e, base);
    var cmd := e.command.value;
    var m := Configured(c, cmd).(direction := Wanted(cmd));
    hide Start, Step, Sound, LaneSince, Acceptable;
    assert Execute(b, Configured(c, cmd), cmd, false) == (m, 0);
    StartEffect(b, m);
  }

  /** Gradual stop: without RUN a turning motor ramps down with the command's own ramp, in its old
      direction; a ready motor takes the direction asked for and stays ready. */
  lemma StopCommand(b: Board, c: Core, e: Event, base: nat)
    requires Undisturbed(b, c, e, base) && c.motor.state in {Ready, Running, Stopping}
    requires IsRemote(e.command.value)
    requires !e.command.value.Run() && !e.command.value.ResetFault() && !e.command.value.QuickStop()
    ensures var r := Step(b, c, e);
            var cmd := e.command.value;
            && r.lastAccepted == cmd.sequence && r.remote && r.latched == c.latched
            && (if c.motor.state == Ready then
                  r.motor.state == Ready && r.motor.direction == Wanted(cmd)
                else
                  && r.motor.direction == c.motor.direction
                  && r.motor.duty == T.Less(c.motor.duty, RampStep(cmd.decel, LOOP_MS))
                  && r.motor.state == if r.motor.duty == 0 then Ready else Stopping)
  {
    RemoteIteration(b, c, e, base);
    hide Step, Sound, LaneSince, Acceptable, RampStep, Start, Reset, QuickStop;
    var m := ExecuteAndStart(b, Configured(c, e.command.value), e.command.value, c.latched).0;
    if c.motor.state != Ready {
      assert m == Configured(c, e.command.value).(state := Stopping, boost := 0);
      StoppingIteration(b, m, base);
    }
  }

  lemma StoppingIteration(b: Board, m: Motor, base: nat)
    requires Safe(b, m, base) && m.state == Stopping && forall i: nat :: b.rc(i) >= 0
    ensures var r := Process(b, m, LOOP_MS).0;
            && r.direction == m.direction
            && r.duty == T.Less(m.duty, RampStep(m.decel, LOOP_MS))
            && r.state == if r.duty == 0 then Ready else Stopping
  {
  }

  /** Whether the command, once carried out, also starts the motor. */
  predicate AlsoStarts(cmd: Command) {
    cmd.Run() && cmd.Enable()
  }

  /** Immediate stop. In FAULT it is refused. Otherwise it is accepted and keeps the direction, and the
      motor stands with the bridge off when the iteration ends if and only if the same command does
      not also ask to start: one that does, cuts the bridge and starts again, latched or not. */
  lemma QuickStopCommand(b: Board, c: Core, e: Event, base: nat)
    requires Undisturbed(b, c, e, base)
    requires IsRemote(e.command.value) && e.command.value.QuickStop() && !e.command.value.ResetFault()
    ensures var r := Step(b, c, e);
            var cmd := e.command.value;
            if c.motor.state == Fault then r.motor.state == Fault && r.lastAccepted == c.lastAccepted
            else
              && r.lastAccepted == cmd.sequence && r.latched == c.latched
              && r.motor.direction == c.motor.direction
              && (r.motor.state == Ready && Released(Outputs(r.motor)) <==> !AlsoStarts(cmd))
              && (r.motor.state == Running && r.motor.duty == BOOST_DUTY <==> AlsoStarts(cmd))
  {
    RemoteIteration(b, c, e, base);
    var m0 := Configured(c, e.command.value);
    ResetEffect(b, m0, base);
    var m1 := QuickStop(b, m0).0;
    if m1.state == Ready {
      StartEffect(b, m1);
    }
    hide Step, Sound, LaneSince, Acceptable, Start, Reset, QuickStop, RampTowards;
  }

  /** Fault reset: from any state, FAULT and latch included, the fault and the latch are cleared and the
      motor faces forward; it is ready, or running if the same command also asks to start. */
  lemma ResetCommand(b: Board, c: Core, e: Event, base: nat)
    requires Undisturbed(b, c, e, base)
    requires IsRemote(e.command.value) && e.command.value.ResetFault()
    ensures var r := Step(b, c, e);
            var cmd := e.command.value;
            && r.motor.direction == Forward && r.motor.lastError == 0
            && !r.latched && r.lastAccepted == cmd.sequence
            && (r.motor.state == Ready && Released(Outputs(r.motor)) <==> !AlsoStarts(cmd))
            && (r.motor.state == Running && r.motor.duty == BOOST_DUTY <==> AlsoStarts(cmd))
  {
    RemoteIteration(b, c, e, base);
    var m0 := Configured(c, e.command.value);
    ResetEffect(b, m0, base);
    StartEffect(b, Reset(b, m0).0);
    hide Step, Sound, LaneSince, Acceptable, Start, Reset, QuickStop, RampTowards;
  }

  /** A running motor: reversal is refused, leaving it running as it was, with the new settings but
      unacknowledged; the same direction is accepted with or without ENABLE, which only gates a
      start. */
  lemma RunCommandWhileRunning(b: Board, c: Core, e: Event, base: nat)
    requires Undisturbed(b, c, e, base) && c.motor.state == Running && !c.latched
    requires IsRemote(e.command.value) && e.command.value.Run()
    requires !e.command.value.ResetFault() && !e.command.value.QuickStop()
    ensures var r := Step(b, c, e);
            var cmd := e.command.value;
            && r.motor.state == Running && r.motor.direction == c.motor.direction
            && Drives(Outputs(r.motor), c.motor.direction)
            && r.motor.target == cmd.duty && r.motor.accel == cmd.accel && r.motor.decel == cmd.decel
            && r.lastAccepted ==
                 if Wanted(cmd) == c.motor.direction then cmd.sequence else c.lastAccepted
  {
    RemoteIteration(b, c, e, base);
    var cmd := e.command.value;
    var m0 := Configured(c, cmd);
    hide Step, Sound, LaneSince, Acceptable, Reset, QuickStop, RampStep;
    assert ExecuteAndStart(b, m0, cmd, false).0 == m0;
    RunningIteration(b, m0, base);
  }

  lemma RunningIteration(b: Board, m: Motor, base: nat)
    requires Safe(b, m, base) && m.state == Running && forall i: nat :: b.rc(i) >= 0
    ensures var r := Process(b, m, LOOP_MS).0;
            && r == m.(duty := r.duty, boost := r.boost, wire := r.wire)
            && Drives(Outputs(r), m.direction)
  {
  }

  /** RUN under the latch is refused: unacknowledged, the latch kept, and the motor goes on as without
      the command but for its settings. */
  lemma LatchedRunCommand(b: Board, c: Core, e: Event, base: nat)
    requires Undisturbed(b, c, e, base) && c.latched
    requires IsRemote(e.command.value) && e.command.value.Run()
    requires !e.command.value.ResetFault() && !e.command.value.QuickStop()
    ensures var r := Step(b, c, e);
            && r.motor == Process(b, Configured(c, e.command.value), LOOP_MS).0
            && r.latched && r.lastAccepted == c.lastAccepted
  {
    RemoteIteration(b, c, e, base);
    hide Step, Sound, Process, Acceptable;
  }

  /** RUN while stopping or in FAULT, without reset or quick stop, starts nothing: the motor ramps on
      down or stays in FAULT, in its old direction. It is acknowledged only if it asks for nothing,
      neither a start nor another direction. */
  lemma RunCommandRefused(b: Board, c: Core, e: Event, base: nat)
    requires Undisturbed(b, c, e, base) && c.motor.state in {Stopping, Fault} && !c.latched
    requires IsRemote(e.command.value) && e.command.value.Run()
    requires !e.command.value.ResetFault() && !e.command.value.QuickStop()
    ensures var r := Step(b, c, e);
            var cmd := e.command.value;
            && r.motor.direction == c.motor.direction
            && r.motor.duty == T.Less(c.motor.duty, RampStep(cmd.decel, LOOP_MS))
            && r.motor.state == (if c.motor.state == Fault then Fault
                                 else if r.motor.duty == 0 then Ready else Stopping)
            && r.lastAccepted == if !cmd.Enable() && Wanted(cmd) == c.motor.direction then cmd.sequence
                                 else c.lastAccepted
  {
    RemoteIteration(b, c, e, base);
    var m0 := Configured(c, e.command.value);
    hide Step, Sound, LaneSince, Acceptable, Reset, QuickStop, RampStep;
    assert ExecuteAndStart(b, m0, e.command.value, false).0 == m0;
    if c.motor.state == Stopping {
      StoppingIteration(b, m0, base);
    }
  }

  // ----- The documented control words -----

  /** What the documented words ask for. */
  lemma ControlWords(cmd: Command)
    ensures cmd.control == 3 ==> PlainRun(cmd) && Wanted(cmd) == Forward
    ensures cmd.control == 7 ==> PlainRun(cmd) && Wanted(cmd) == Direction.Reverse
    ensures cmd.control in {1, 5} ==> !cmd.Run() && !cmd.ResetFault() && !cmd.QuickStop()
    ensures cmd.control == 1 ==> Wanted(cmd) == Forward
    ensures cmd.control == 5 ==> Wanted(cmd) == Direction.Reverse
    ensures cmd.control == 17 ==> !cmd.Run() && !cmd.ResetFault() && cmd.QuickStop()
    ensures cmd.control == 9 ==> !cmd.Run() && cmd.ResetFault()
  {
  }

  /** The documented table: 3 starts forward and 7 in reverse; 1 stops gradually; 5 prepares reverse at
      standstill, and 1 forward; 17 stops at once; 9 resets a fault and the latch. */
  lemma DocumentedCommands(b: Board, c: Core, e: Event, base: nat)
    requires Undisturbed(b, c, e, base) && IsRemote(e.command.value)
    ensures var r := Step(b, c, e);
            var cmd := e.command.value;
            var ready := c.motor.state == Ready;
            var turning := c.motor.state in {Running, Stopping};
            && (cmd.control in {3, 7} && ready && !c.latched ==>
                  && r.motor.state == Running && r.motor.target == cmd.duty
                  && Drives(Outputs(r.motor), if cmd.control == 3 then Forward else Direction.Reverse))
            && (cmd.control in {1, 5} && turning ==>
                  && r.motor.direction == c.motor.direction
                  && r.motor.duty == T.Less(c.motor.duty, RampStep(cmd.decel, LOOP_MS)))
            && (cmd.control in {1, 5} && ready ==>
                  && r.motor.state == Ready
                  && r.motor.direction == if cmd.control == 1 then Forward else Direction.Reverse)
            && (cmd.control == 17 && c.motor.state != Fault ==>
                  r.motor.state == Ready && Released(Outputs(r.motor)))
            && (cmd.control == 9 ==>
                  r.motor.state == Ready && r.motor.lastError == 0 && r.motor.direction == Forward && !r.latched)
  {
    var cmd := e.command.value;
    ControlWords(cmd);
    hide Step, Sound, Acceptable, RampStep, Wanted;
    if cmd.control in {3, 7} && c.motor.state == Ready && !c.latched {
      StartCommand(b, c, e, base);
    } else if cmd.control in {1, 5} && c.motor.state in {Ready, Running, Stopping} {
      StopCommand(b, c, e, base);
    } else if cmd.control == 17 {
      QuickStopCommand(b, c, e, base);
    } else if cmd.control == 9 {
      ResetCommand(b, c, e, base);
    }
  }

  /** A local-mode command, on any hardware: it hands the motor back to the buttons - stopping or
      stopped, default ramps, latch and timeout cleared - exactly when it resets the motor and the
      three writes of the reset succeed, or does not and the motor is not in FAULT. Otherwise it is
      refused: the M4 stays in the mode it was in, and the motor ends or stays in FAULT. */
  lemma LocalCommand(b: Board, c: Core, cmd: Command, base: nat)
    requires Sound(b, c, base)
    ensures var n := |c.motor.wire|;
            var writes := b.rc(n) >= 0 && b.rc(n + 1) >= 0 && b.rc(n + 2) >= 0;
            var (r, ret) := ApplyLocal(b, c, cmd);
            && (ret == 0 <==> if cmd.ResetFault() then writes else c.motor.state != Fault)
            && (ret != 0 ==> r == c.(motor := r.motor) && r.motor.state == Fault)
            && (ret != 0 && !cmd.ResetFault() ==> r == c)
            && (ret == 0 ==>
                  && !r.remote && !r.timedOut && !r.latched && r.lastAccepted == cmd.sequence
                  && r.motor.accel == RUN_RAMP && r.motor.decel == STOP_RAMP
                  && r.motor.state in {Ready, Stopping})
  {
    ResetEffect(b, c.motor, base);
    ResetKeeps(b, c.motor, base);
    hide LaneSince, Reset;
  }
}
