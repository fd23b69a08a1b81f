/** What the physical buttons and the potentiometer achieve within one iteration. */
module M4Buttons {
  import opened Words
  import opened Options
  import opened Contract
  import opened MotorModel
  import opened M4Core
  import T = M4Safety
  import Commands = M4Commands

  // ----- STOP -----

  /** STOP has absolute priority: in local or remote mode, whatever else happens in the iteration, the
      motor is not RUNNING when it ends. It is latched in remote mode only. */
  lemma StopButton(b: Board, c: Core, e: Event, base: nat)
    requires Sound(b, c, base) && Legal(e) && e.stop
    ensures var r := Step(b, c, e);
            && r.motor.state != Running
            && r.latched == (Ipc(b, c, e).latched || Ipc(b, c, e).remote)
            && r.remote == Ipc(b, c, e).remote
  {
    hide Ipc, Process, Stop;
    IpcKeeps(b, c, e, base);
    PotentiometerKeeps(b, Ipc(b, c, e), e.reading, base);
    StopKeeps(b, Potentiometer(b, Ipc(b, c, e), e.reading).motor, base);
    ProcessNeverStarts(b, Decide(b, c, e).motor);
  }

  /** An iteration without a command, on working hardware, within the watchdog's time. */
  ghost predicate Quiet(b: Board, c: Core, e: Event, base: nat) {
    && Sound(b, c, base) && (forall i: nat :: b.rc(i) >= 0)
    && e.command.None? && e.reading.Sampled? && 800 <= e.reading.duty <= 1000
    && (c.remote && !c.timedOut ==> Age(c, e.tWatchdog) <= c.timeout)
  }

  /** Before the buttons are looked at, only the potentiometer has acted, and only in local mode. */
  function Adjusted(c: Core, e: Event): Motor
    requires e.reading.Sampled?
  {
    if c.remote then c.motor else c.motor.(target := e.reading.duty)
  }

  lemma QuietIteration(b: Board, c: Core, e: Event, base: nat)
    requires Quiet(b, c, e, base)
    ensures var c1 := c.(checked := e.tWatchdog, motor := Adjusted(c, e));
            && Potentiometer(b, Ipc(b, c, e), e.reading) == c1
            && Sound(b, c1, base)
            && Step(b, c, e).motor == Process(b, Arbitrate(b, c1, e).motor, LOOP_MS).0
            && Step(b, c, e) == Arbitrate(b, c1, e).(motor := Step(b, c, e).motor)
  {
    hide Age, LaneSince, Stop, Process, Arbitrate;
  }

  /** On working hardware STOP makes a turning motor lose one deceleration step at once and ramp on, in
      its old direction, in either mode; a standing motor stands, and a fault stays. */
  lemma StopRamps(b: Board, c: Core, e: Event, base: nat)
    requires Quiet(b, c, e, base) && e.stop
    ensures var r := Step(b, c, e).motor;
            && r.direction == c.motor.direction
            && r.duty == T.Less(c.motor.duty, RampStep(c.motor.decel, LOOP_MS))
            && r.state == if c.motor.state == Fault then Fault else if r.duty == 0 then Ready else Stopping
  {
    QuietIteration(b, c, e, base);
    StartAndStopElsewhere(b, Adjusted(c, e));
    var m := Stop(Adjusted(c, e)).0;
    StopKeeps(b, Adjusted(c, e), base);
    hide Step, Quiet, LaneSince, RampStep, Stop, Potentiometer, Ipc, Age;
    if m.state == Stopping {
      Commands.StoppingIteration(b, m, base);
    }
  }

  // ----- RESET -----

  /** Without STOP, RESET on working hardware clears a fault and the latch from any state and in either
      mode: the bridge is off and the motor ready, facing forward. The mode stays. */
  lemma ResetButton(b: Board, c: Core, e: Event, base: nat)
    requires Quiet(b, c, e, base) && e.reset && !e.stop
    ensures var r := Step(b, c, e);
            && r.motor.state == Ready && r.motor.direction == Forward && r.motor.lastError == 0
            && Released(Outputs(r.motor)) && !r.latched && r.remote == c.remote
  {
    QuietIteration(b, c, e, base);
    ResetEffect(b, Adjusted(c, e), base);
    hide Step, Quiet, LaneSince, Reset, RampTowards, Potentiometer, Ipc, Age;
  }

  // ----- START and DIRECTION -----

  /** In local mode, without STOP and RESET: START runs a ready motor at full duty toward the
      potentiometer's duty, in its direction, or in the other one when DIRECTION is pressed as well;
      DIRECTION alone turns a ready motor round and leaves it ready. A motor that is not ready ignores
      both. */
  lemma LocalButtons(b: Board, c: Core, e: Event, base: nat)
    requires Quiet(b, c, e, base) && !c.remote && !e.stop && !e.reset
    ensures var r := Step(b, c, e).motor;
            && r.target == e.reading.duty
            && (c.motor.state == Ready ==>
                  && r.direction == (if e.toggle then Opposite(c.motor.direction) else c.motor.direction)
                  && (e.start ==> r.state == Running && r.duty == 1000 && Drives(Outputs(r), r.direction))
                  && (!e.start ==> r.state == Ready && r.duty == 0))
            && (c.motor.state != Ready ==> r == Process(b, Adjusted(c, e), LOOP_MS).0)
  {
    QuietIteration(b, c, e, base);
    var m := Adjusted(c, e);
    var turned := if e.toggle then ToggleDirection(m).0 else m;
    StartAndStopElsewhere(b, turned);
    if m.state == Ready {
      StartEffect(b, turned);
    }
    ProcessNeverStarts(b, m);
    hide Step, Quiet, LaneSince, Start, Potentiometer, Ipc, Age, SetPwm;
  }

  /** In remote mode START, DIRECTION and the potentiometer are without effect. */
  lemma RemoteIgnoresLocal(b: Board, c: Core, e: Event, start: bool, toggle: bool, duty: word)
    requires Ipc(b, c, e).remote && e.reading.Sampled?
    ensures Step(b, c, e) == Step(b, c, e.(start := start, toggle := toggle, reading := Sampled(duty)))
  {
    hide Apply, Process, Reset, Stop, Age;
  }

  // ----- The converter -----

  /** A failing conversion ends in FAULT with its own error, whatever the command of the iteration was,
      unless RESET is pressed without STOP. */
  lemma ReadingFails(b: Board, c: Core, e: Event)
    requires e.reading.Failed? && e.reading.error < 0 && !(e.reset && !e.stop)
    ensures var r := Step(b, c, e).motor;
            r.state == Fault && r.lastError == e.reading.error && r.duty == 0
  {
    hide Ipc, MakeSafe;
    var m := Ipc(b, c, e).motor;
    MakeSafeClears(b, m);
    assert RecordFault(b, m, e.reading.error).state == Fault;
  }

  lemma MakeSafeClears(b: Board, m: Motor)
    ensures MakeSafe(b, m).0.duty == 0 && MakeSafe(b, m).0.boost == 0
  {
  }
}
