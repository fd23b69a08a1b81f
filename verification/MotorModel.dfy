/** The motor state machine as functions on values, together with the L293D outputs it drives.
    `wire` is the whole history of the driver outputs: one entry per GPIO or PWM write. A write
    that fails leaves the outputs as they were and repeats the last entry. */
module MotorModel {
  import opened Words
  import opened Errno

  const DUTY_MIN := 800
  const DUTY_MAX := 1000
  const BOOST_DUTY := 1000
  const BOOST_MS := 250
  /** The main loop's period. */
  const LOOP_MS := 10
  const RUN_RAMP := 1000
  const STOP_RAMP := 4000

  datatype State = Disabled | Ready | Running | Stopping | Fault
  datatype Direction = Forward | Reverse

  /** PWM pulse width and the levels of the two bridge inputs. */
  datatype Pins = Pins(pulse: nat, in1: bool, in2: bool)
  type Wire = w: seq<Pins> | |w| > 0 witness [Pins(0, false, false)]

  /** The PWM period, and the return code of the n-th driver write: any failure pattern. */
  datatype Board = Board(period: dword, rc: nat -> int)

  datatype Motor = Motor(
    state: State,
    direction: Direction,
    duty: word,
    target: word,
    boost: dword,
    lastError: int,
    accel: word,
    decel: word,
    wire: Wire)

  // ----- Driver writes -----

  function Outputs(m: Motor): Pins {
    Last(m.wire)
  }

  function Write(b: Board, m: Motor, p: Pins): (Motor, int) {
    var ret := b.rc(|m.wire|);
    (m.(wire := m.wire + [if ret < 0 then Outputs(m) else p]), ret)
  }

  function WritePulse(b: Board, m: Motor, pulse: nat): (Motor, int) {
    Write(b, m, Outputs(m).(pulse := pulse))
  }

  function WriteIn1(b: Board, m: Motor, level: bool): (Motor, int) {
    Write(b, m, Outputs(m).(in1 := level))
  }

  function WriteIn2(b: Board, m: Motor, level: bool): (Motor, int) {
    Write(b, m, Outputs(m).(in2 := level))
  }

  function FirstError(e1: int, e2: int, e3: int): int {
    if e1 < 0 then e1 else if e2 < 0 then e2 else if e3 < 0 then e3 else 0
  }

  // ----- Operations -----

  function MakeSafe(b: Board, m: Motor): (Motor, int) {
    var (m1, e1) := WritePulse(b, m, 0);
    var (m2, e2) := WriteIn1(b, m1, false);
    var (m3, e3) := WriteIn2(b, m2, false);
    (m3.(duty := 0, boost := 0), FirstError(e1, e2, e3))
  }

  function RecordFault(b: Board, m: Motor, error: int): Motor {
    MakeSafe(b, m).0.(lastError := if error < 0 then error else -EIO, state := Fault)
  }

  function Pulse(b: Board, duty: word): nat {
    b.period * duty / 1000
  }

  function SetPwm(b: Board, m: Motor, duty: word): (Motor, int) {
    if duty > DUTY_MAX then (m, -EINVAL)
    else
      var (m1, ret) := WritePulse(b, m, Pulse(b, duty));
      if ret < 0 then (RecordFault(b, m1, ret), ret) else (m1.(duty := duty), 0)
  }

  function ApplyDirection(b: Board, m: Motor): (Motor, int) {
    var (m1, e1) := WriteIn1(b, m, m.direction == Forward);
    if e1 < 0 then (RecordFault(b, m1, e1), e1)
    else
      var (m2, e2) := WriteIn2(b, m1, m.direction == Reverse);
      if e2 < 0 then (RecordFault(b, m2, e2), e2) else (m2, 0)
  }

  function RampStep(rate: word, elapsed: dword): word {
    var step := U32(rate * elapsed) / 1000;
    U16(if step == 0 && elapsed != 0 then 1 else step)
  }

  /** One ramp step: toward the target, by the step or onto the target, never past it. */
  function Approach(duty: word, target: word, step: word): (next: word)
    ensures duty <= target ==> duty <= next <= target
    ensures target <= duty ==> target <= next <= duty
    ensures next == target || next == duty + step || next == duty - step
  {
    if duty < target then
      if target - duty <= step then target else duty + step
    else if duty > target then
      if duty - target <= step then target else duty - step
    else duty
  }

  function RampTowards(b: Board, m: Motor, target: word, step: word): (Motor, int) {
    SetPwm(b, m, Approach(m.duty, target, step))
  }

  /** `ready` is the outcome of the three readiness checks, `c1` and `c2` the return codes of the
      pin configuration, which drives a pin low when it succeeds. */
  function Init(b: Board, m: Motor, ready: bool, c1: int, c2: int): (Motor, int) {
    if !ready then (RecordFault(b, m, -ENODEV), -ENODEV)
    else if c1 < 0 then (RecordFault(b, m, c1), c1)
    else
      var m1 := m.(wire := m.wire + [Outputs(m).(in1 := false)]);
      if c2 < 0 then (RecordFault(b, m1, c2), c2)
      else
        var m2 := m1.(wire := m1.wire + [Outputs(m1).(in2 := false)]);
        var (m3, ret) := MakeSafe(b, m2);
        if ret < 0 then (RecordFault(b, m3, ret), ret)
        else (m3.(direction := Forward, lastError := 0, state := Ready), 0)
  }

  function Start(b: Board, m: Motor): (Motor, int) {
    if m.state == Fault then (m, -EIO)
    else if m.state == Running then (m, 0)
    else if m.state != Ready then (m, -EBUSY)
    else
      var (m1, e1) := ApplyDirection(b, m);
      if e1 < 0 then (m1, e1)
      else
        var (m2, e2) := SetPwm(b, m1, BOOST_DUTY);
        if e2 < 0 then (m2, e2) else (m2.(boost := BOOST_MS, state := Running), 0)
  }

  function Stop(m: Motor): (Motor, int) {
    if m.state == Fault then (m, -EIO)
    else if m.state == Ready || m.state == Disabled then (m, 0)
    else (m.(boost := 0, state := Stopping), 0)
  }

  function SetDirection(m: Motor, d: Direction): (Motor, int) {
    if m.state == Fault then (m, -EIO)
    else if m.state != Ready then (m, -EBUSY)
    else (m.(direction := d), 0)
  }

  function Opposite(d: Direction): Direction {
    if d == Forward then Reverse else Forward
  }

  function ToggleDirection(m: Motor): (Motor, int) {
    SetDirection(m, Opposite(m.direction))
  }

  function Reset(b: Board, m: Motor): (Motor, int) {
    var (m1, ret) := MakeSafe(b, m);
    if ret < 0 then (RecordFault(b, m1, ret), ret)
    else (m1.(direction := Forward, lastError := 0, state := Ready), 0)
  }

  function QuickStop(b: Board, m: Motor): (Motor, int) {
    if m.state == Fault then (m, -EIO)
    else
      var (m1, ret) := MakeSafe(b, m);
      if ret < 0 then (RecordFault(b, m1, ret), ret) else (m1.(state := Ready), 0)
  }

  function SetTargetDuty(m: Motor, duty: word): (Motor, int) {
    if duty < DUTY_MIN || duty > DUTY_MAX then (m, -ERANGE) else (m.(target := duty), 0)
  }

  function SetRamps(m: Motor, accel: word, decel: word): (Motor, int) {
    if accel == 0 || decel == 0 then (m, -EINVAL) else (m.(accel := accel, decel := decel), 0)
  }

  function RestoreDefaultRamps(m: Motor): Motor {
    m.(accel := RUN_RAMP, decel := STOP_RAMP)
  }

  /** At zero duty a stopping motor releases the bridge and is ready again. */
  function FinishStop(b: Board, m: Motor): (Motor, int) {
    if m.duty != 0 then (m, 0)
    else
      var (m1, ret) := MakeSafe(b, m);
      if ret < 0 then (RecordFault(b, m1, ret), ret) else (m1.(state := Ready), 0)
  }

  function Process(b: Board, m: Motor, elapsed: dword): (Motor, int) {
    match m.state
    case Running =>
      if m.boost != 0 then
        (m.(boost := if elapsed >= m.boost then 0 else m.boost - elapsed), 0)
      else RampTowards(b, m, m.target, RampStep(m.accel, elapsed))
    case Stopping =>
      var (m1, e1) := RampTowards(b, m, 0, RampStep(m.decel, elapsed));
      if e1 < 0 then (m1, e1) else FinishStop(b, m1)
    case _ => (m, 0)
  }

  /** One call of the module's interface after initialization. */
  datatype Call =
    | CallStart
    | CallStop
    | CallToggle
    | CallSetDirection(d: Direction)
    | CallReset
    | CallQuickStop
    | CallSetTarget(duty: word)
    | CallSetRamps(accel: word, decel: word)
    | CallRestoreRamps
    | CallProcess(elapsed: dword)
    | CallFail(error: int)

  function Do(b: Board, m: Motor, c: Call): Motor {
    match c
    case CallStart => Start(b, m).0
    case CallStop => Stop(m).0
    case CallToggle => ToggleDirection(m).0
    case CallSetDirection(d) => SetDirection(m, d).0
    case CallReset => Reset(b, m).0
    case CallQuickStop => QuickStop(b, m).0
    case CallSetTarget(duty) => SetTargetDuty(m, duty).0
    case CallSetRamps(accel, decel) => SetRamps(m, accel, decel).0
    case CallRestoreRamps => RestoreDefaultRamps(m)
    case CallProcess(elapsed) => Process(b, m, elapsed).0
    case CallFail(error) => RecordFault(b, m, error)
  }

  function DoAll(b: Board, m: Motor, cs: seq<Call>): Motor
    decreases |cs|
  {
    if |cs| == 0 then m else Do(b, DoAll(b, m, cs[..|cs| - 1]), Last(cs))
  }

  // ----- What every operation keeps -----

  /** The bridge input combination, ignoring the enable pulse. */
  ghost predicate Drives(p: Pins, d: Direction) {
    p.in1 == (d == Forward) && p.in2 == (d == Reverse)
  }

  /** The bridge is completely off: both inputs low and no pulse. */
  ghost predicate Released(p: Pins) {
    p == Pins(0, false, false)
  }

  /** Which polarity has been driven since the bridge was last completely released. */
  datatype Lane = Free | Driven(d: Direction) | Crossed

  ghost function LaneAfter(lane: Lane, p: Pins): Lane {
    if lane == Crossed || (p.in1 && p.in2) then Crossed
    else if Released(p) then Free
    else if !p.in1 && !p.in2 then lane
    else
      var d := if p.in1 then Forward else Reverse;
      if lane == Driven(Opposite(d)) then Crossed else Driven(d)
  }

  /** The lane after the writes from index `base` on. */
  ghost function LaneSince(wire: seq<Pins>, base: nat): Lane
    decreases |wire|
  {
    if |wire| <= base then Free
    else LaneAfter(LaneSince(wire[..|wire| - 1], base), Last(wire))
  }

  /** Relations between the software state and the state machine. */
  ghost predicate Consistent(m: Motor) {
    && DUTY_MIN <= m.target <= DUTY_MAX
    && m.accel > 0 && m.decel > 0
    && (m.state in {Disabled, Ready, Fault} ==> m.duty == 0 && m.boost == 0)
    && (m.state == Running ==> DUTY_MIN <= m.duty <= DUTY_MAX)
    && (m.state == Stopping ==> 0 < m.duty <= DUTY_MAX && m.boost == 0)
    && (m.boost > 0 ==> m.state == Running && m.duty == DUTY_MAX)
    && m.boost <= BOOST_MS
    && m.lastError <= 0
    && (m.lastError < 0 <==> m.state == Fault)
  }

  /** The driver outputs agree with the software state, and have never been unsafe since `base`. */
  ghost predicate BridgeSafe(b: Board, m: Motor, base: nat) {
    && base < |m.wire|
    && LaneSince(m.wire, base) != Crossed
    && (m.state == Ready ==> Released(Outputs(m)))
    && (m.state in {Running, Stopping} ==>
          Drives(Outputs(m), m.direction) && Outputs(m).pulse == Pulse(b, m.duty))
    && m.state != Disabled
  }

  ghost predicate Safe(b: Board, m: Motor, base: nat) {
    Consistent(m) && BridgeSafe(b, m, base)
  }

  /** The last outputs determine the lane, unless both inputs are low. */
  lemma LaneOfLast(wire: seq<Pins>, base: nat)
    requires base < |wire| && LaneSince(wire, base) != Crossed
    ensures !(Last(wire).in1 && Last(wire).in2)
    ensures forall d :: Drives(Last(wire), d) ==> LaneSince(wire, base) == Driven(d)
    ensures Released(Last(wire)) ==> LaneSince(wire, base) == Free
  {
  }

  /** A write that cannot start driving a new polarity, or starts one from a released bridge. */
  ghost predicate Gentle(from: Pins, to: Pins) {
    || (to.in1 == from.in1 && to.in2 == from.in2)
    || (!to.in1 && !to.in2)
    || (Released(from) && !(to.in1 && to.in2))
  }

  lemma WriteKeepsLane(b: Board, m: Motor, p: Pins, base: nat)
    requires base < |m.wire| && LaneSince(m.wire, base) != Crossed
    requires Gentle(Outputs(m), p)
    ensures LaneSince(Write(b, m, p).0.wire, base) != Crossed
    ensures m.wire <= Write(b, m, p).0.wire
  {
  }

  lemma MakeSafeKeepsLane(b: Board, m: Motor, base: nat)
    requires base < |m.wire| && LaneSince(m.wire, base) != Crossed
    ensures var r := MakeSafe(b, m);
            && LaneSince(r.0.wire, base) != Crossed
            && m.wire <= r.0.wire
            && r.0 == m.(duty := 0, boost := 0, wire := r.0.wire)
            && r.1 <= 0
            && (r.1 == 0 ==> Released(Outputs(r.0)))
  {
    hide LaneSince;
    LaneOfLast(m.wire, base);
    var m1 := WritePulse(b, m, 0).0;
    WriteKeepsLane(b, m, Outputs(m).(pulse := 0), base);
    LaneOfLast(m1.wire, base);
    var m2 := WriteIn1(b, m1, false).0;
    WriteKeepsLane(b, m1, Outputs(m1).(in1 := false), base);
    LaneOfLast(m2.wire, base);
    WriteKeepsLane(b, m2, Outputs(m2).(in2 := false), base);
  }

  lemma RecordFaultKeeps(b: Board, m: Motor, error: int, base: nat)
    requires base < |m.wire| && LaneSince(m.wire, base) != Crossed
    requires DUTY_MIN <= m.target <= DUTY_MAX && m.accel > 0 && m.decel > 0
    ensures Safe(b, RecordFault(b, m, error), base)
    ensures m.wire <= RecordFault(b, m, error).wire
    ensures RecordFault(b, m, error).state == Fault
    ensures RecordFault(b, m, error).lastError == if error < 0 then error else -EIO
  {
    MakeSafeKeepsLane(b, m, base);
  }

  lemma SetPwmKeeps(b: Board, m: Motor, duty: word, base: nat)
    requires base < |m.wire| && LaneSince(m.wire, base) != Crossed
    requires DUTY_MIN <= m.target <= DUTY_MAX && m.accel > 0 && m.decel > 0
    requires duty <= DUTY_MAX
    ensures var r := SetPwm(b, m, duty);
            && r.1 <= 0
            && m.wire <= r.0.wire
            && (r.1 < 0 ==> Safe(b, r.0, base) && r.0.state == Fault)
            && (r.1 == 0 ==>
                  && LaneSince(r.0.wire, base) != Crossed
                  && r.0 == m.(duty := duty, wire := r.0.wire)
                  && Outputs(r.0) == Outputs(m).(pulse := Pulse(b, duty)))
  {
    var p := Outputs(m).(pulse := Pulse(b, duty));
    WriteKeepsLane(b, m, p, base);
    var (m1, ret) := WritePulse(b, m, Pulse(b, duty));
    if ret < 0 {
      RecordFaultKeeps(b, m1, ret, base);
    }
  }

  lemma ApplyDirectionKeeps(b: Board, m: Motor, base: nat)
    requires Safe(b, m, base) && m.state == Ready
    ensures var r := ApplyDirection(b, m);
            && r.1 <= 0
            && m.wire <= r.0.wire
            && (r.1 < 0 ==> Safe(b, r.0, base) && r.0.state == Fault)
            && (r.1 == 0 ==>
                  && LaneSince(r.0.wire, base) != Crossed
                  && r.0 == m.(wire := r.0.wire)
                  && Drives(Outputs(r.0), m.direction))
  {
    hide RecordFault, LaneSince;
    LaneOfLast(m.wire, base);
    var level1, level2 := m.direction == Forward, m.direction == Reverse;
    var (m1, e1) := WriteIn1(b, m, level1);
    WriteKeepsLane(b, m, Outputs(m).(in1 := level1), base);
    if e1 < 0 {
      RecordFaultKeeps(b, m1, e1, base);
    } else {
      var (m2, e2) := WriteIn2(b, m1, level2);
      WriteKeepsLane(b, m1, Outputs(m1).(in2 := level2), base);
      if e2 < 0 {
        RecordFaultKeeps(b, m2, e2, base);
      }
    }
  }

  lemma StartKeeps(b: Board, m: Motor, base: nat)
    requires Safe(b, m, base)
    ensures var r := Start(b, m);
            && Safe(b, r.0, base) && m.wire <= r.0.wire
            && (r.1 == 0 ==> r.0.state == Running)
  {
    if m.state == Ready {
      ApplyDirectionKeeps(b, m, base);
      var (m1, e1) := ApplyDirection(b, m);
      if e1 == 0 {
        SetPwmKeeps(b, m1, BOOST_DUTY, base);
      }
    }
  }

  lemma ResetKeeps(b: Board, m: Motor, base: nat)
    requires Safe(b, m, base)
    ensures var r := Reset(b, m).0;
            && Safe(b, r, base) && m.wire <= r.wire && r.state in {Ready, Fault}
            && r.target == m.target && r.accel == m.accel && r.decel == m.decel
  {
    MakeSafeKeepsLane(b, m, base);
    var (m1, ret) := MakeSafe(b, m);
    if ret < 0 {
      RecordFaultKeeps(b, m1, ret, base);
    }
  }

  lemma QuickStopKeeps(b: Board, m: Motor, base: nat)
    requires Safe(b, m, base)
    ensures var r := QuickStop(b, m).0;
            && Safe(b, r, base) && m.wire <= r.wire && r.state in {Ready, Fault}
            && r.target == m.target && r.accel == m.accel && r.decel == m.decel
  {
    MakeSafeKeepsLane(b, m, base);
    var (m1, ret) := MakeSafe(b, m);
    if ret < 0 {
      RecordFaultKeeps(b, m1, ret, base);
    }
  }

  lemma FinishStopKeeps(b: Board, m: Motor, base: nat)
    requires base < |m.wire| && LaneSince(m.wire, base) != Crossed
    requires DUTY_MIN <= m.target <= DUTY_MAX && m.accel > 0 && m.decel > 0
    requires m.state == Stopping && m.duty <= DUTY_MAX && m.boost == 0 && m.lastError == 0
    requires Drives(Outputs(m), m.direction) && Outputs(m).pulse == Pulse(b, m.duty)
    ensures Safe(b, FinishStop(b, m).0, base) && m.wire <= FinishStop(b, m).0.wire
  {
    if m.duty == 0 {
      MakeSafeKeepsLane(b, m, base);
      var (m1, ret) := MakeSafe(b, m);
      if ret < 0 {
        RecordFaultKeeps(b, m1, ret, base);
      }
    }
  }

  lemma ProcessKeeps(b: Board, m: Motor, elapsed: dword, base: nat)
    requires Safe(b, m, base)
    ensures Safe(b, Process(b, m, elapsed).0, base) && m.wire <= Process(b, m, elapsed).0.wire
  {
    hide SetPwm, FinishStop, LaneSince, RampStep, Pulse;
    if m.state == Running && m.boost == 0 {
      SetPwmKeeps(b, m, Approach(m.duty, m.target, RampStep(m.accel, elapsed)), base);
    } else if m.state == Stopping {
      var next := Approach(m.duty, 0, RampStep(m.decel, elapsed));
      SetPwmKeeps(b, m, next, base);
      var (m1, e1) := SetPwm(b, m, next);
      if e1 == 0 {
        FinishStopKeeps(b, m1, base);
      }
    }
  }

  /** Every call, with any elapsed time and any failing writes, keeps the motor safe. */
  lemma DoKeeps(b: Board, m: Motor, c: Call, base: nat)
    requires Safe(b, m, base)
    ensures Safe(b, Do(b, m, c), base)
    ensures m.wire <= Do(b, m, c).wire
  {
    match c
    case CallStart => StartKeeps(b, m, base);
    case CallReset => ResetKeeps(b, m, base);
    case CallQuickStop => QuickStopKeeps(b, m, base);
    case CallProcess(elapsed) => ProcessKeeps(b, m, elapsed, base);
    case CallFail(error) => RecordFaultKeeps(b, m, error, base);
    case _ =>
  }

  /** A successful initialization makes the motor safe from its last write on, whatever the
      outputs and the software state were before. */
  lemma InitEstablishes(b: Board, m: Motor, ready: bool, c1: int, c2: int)
    requires DUTY_MIN <= m.target <= DUTY_MAX && m.accel > 0 && m.decel > 0
    ensures var r := Init(b, m, ready, c1, c2);
            && (r.1 == 0 ==> Safe(b, r.0, |r.0.wire| - 1) && r.0.state == Ready)
            && (r.1 != 0 ==> r.0.state == Fault && r.0.lastError < 0)
  {
  }

  lemma {:induction false} DoAllKeeps(b: Board, m: Motor, cs: seq<Call>, base: nat)
    requires Safe(b, m, base)
    ensures Safe(b, DoAll(b, m, cs), base)
    ensures m.wire <= DoAll(b, m, cs).wire
    decreases |cs|
  {
    if |cs| > 0 {
      DoAllKeeps(b, m, cs[..|cs| - 1], base);
      DoKeeps(b, DoAll(b, m, cs[..|cs| - 1]), Last(cs), base);
    }
  }

  // ----- What a safe history means, instant by instant -----

  lemma {:induction false} LanePrefix(wire: seq<Pins>, base: nat, n: nat)
    requires base <= n <= |wire| && LaneSince(wire, base) != Crossed
    ensures LaneSince(wire[..n], base) != Crossed
    decreases |wire|
  {
    if n == |wire| {
      assert wire[..n] == wire;
    } else {
      var init := wire[..|wire| - 1];
      LanePrefix(init, base, n);
      assert init[..n] == wire[..n];
    }
  }

  /** While the bridge is not released it keeps driving the polarity it drove at `i`. */
  lemma {:induction false} LaneSticks(wire: seq<Pins>, base: nat, i: nat, d: Direction)
    requires base <= i < |wire| && LaneSince(wire, base) != Crossed
    requires Drives(wire[i], d)
    requires forall k :: i < k < |wire| ==> !Released(wire[k])
    ensures LaneSince(wire, base) == Driven(d)
    decreases |wire|
  {
    if i == |wire| - 1 {
      LaneOfLast(wire, base);
    } else {
      var init := wire[..|wire| - 1];
      assert init[i] == wire[i];
      forall k | i < k < |init|
        ensures !Released(init[k])
      {
        assert init[k] == wire[k];
      }
      LaneSticks(init, base, i, d);
    }
  }

  /** No instant has both inputs high, and between two instants of opposite polarity there is one
      at which both inputs are low and the pulse is zero. */
  ghost predicate NeverUnsafe(wire: seq<Pins>, base: nat) {
    && (forall i :: base <= i < |wire| ==> !(wire[i].in1 && wire[i].in2))
    && (forall i, j, d ::
          base <= i < j < |wire| && Drives(wire[i], d) && Drives(wire[j], Opposite(d)) ==>
            exists k :: i < k < j && Released(wire[k]))
  }

  lemma SafeHistory(wire: seq<Pins>, base: nat)
    requires LaneSince(wire, base) != Crossed
    ensures NeverUnsafe(wire, base)
  {
    forall i | base <= i < |wire|
      ensures !(wire[i].in1 && wire[i].in2)
    {
      LanePrefix(wire, base, i + 1);
      LaneOfLast(wire[..i + 1], base);
    }
    forall i, j, d | base <= i < j < |wire| && Drives(wire[i], d) && Drives(wire[j], Opposite(d))
      ensures exists k :: i < k < j && Released(wire[k])
    {
      var upTo := wire[..j + 1];
      LanePrefix(wire, base, j + 1);
      if forall k :: i < k < j ==> !Released(wire[k]) {
        assert upTo[i] == wire[i] && upTo[j] == wire[j];
        LaneSticks(upTo, base, i, d);
        LaneOfLast(upTo, base);
      }
    }
  }

  /** Bridge safety over every run: any calls, any elapsed times, any pattern of failing writes. */
  lemma BridgeNeverUnsafe(b: Board, m: Motor, ready: bool, c1: int, c2: int, cs: seq<Call>)
    requires DUTY_MIN <= m.target <= DUTY_MAX && m.accel > 0 && m.decel > 0
    requires Init(b, m, ready, c1, c2).1 == 0
    ensures var m0 := Init(b, m, ready, c1, c2).0;
            var final := DoAll(b, m0, cs);
            NeverUnsafe(final.wire, |m0.wire| - 1)
  {
    InitEstablishes(b, m, ready, c1, c2);
    var m0 := Init(b, m, ready, c1, c2).0;
    DoAllKeeps(b, m0, cs, |m0.wire| - 1);
    SafeHistory(DoAll(b, m0, cs).wire, |m0.wire| - 1);
  }

  lemma PulseBound(period: dword, duty: word)
    requires duty <= 1000
    ensures 0 <= period * duty / 1000 <= period
  {
    assert period * (1000 - duty) >= 0;
    assert period * duty == period * 1000 - period * (1000 - duty);
  }

  lemma PulseExact(b: Board, duty: word)
    requires duty <= DUTY_MAX
    ensures 1000 * Pulse(b, duty) <= b.period * duty < 1000 * (Pulse(b, duty) + 1)
    ensures Pulse(b, duty) <= b.period
    ensures Pulse(b, 0) == 0 && Pulse(b, DUTY_MAX) == b.period
  {
    PulseBound(b.period, duty);
  }

  /** Outside FAULT the pulse is the period times the duty over 1000, rounded down, and never exceeds
      the period: the 64-bit product keeps the division exact. At full duty it is the whole period. */
  lemma PulseInPeriod(b: Board, m: Motor, base: nat)
    requires Safe(b, m, base) && m.state != Fault
    ensures 1000 * Outputs(m).pulse <= b.period * m.duty < 1000 * (Outputs(m).pulse + 1)
    ensures Outputs(m).pulse <= b.period
    ensures m.duty == DUTY_MAX ==> Outputs(m).pulse == b.period
  {
    hide LaneSince;
    PulseExact(b, m.duty);
    hide Pulse;
  }

  /** With a period of at least 1000 every permille counts: more duty is a longer pulse, and the pulse
      is 0 only at duty 0. */
  lemma PulseGrows(b: Board, less: word, more: word)
    requires less < more <= DUTY_MAX && b.period >= 1000
    ensures Pulse(b, less) < Pulse(b, more) && Pulse(b, more) > 0
  {
    PulseExact(b, less);
    PulseExact(b, more);
    hide Pulse;
    Gap(b.period, less, more);
    Gap(b.period, 0, more);
  }

  lemma {:induction false} Gap(period: nat, less: nat, more: nat)
    requires less < more
    ensures period * more >= period * less + period
    decreases more
  {
    var n := more - 1;
    assert period * (n + 1) == period * n + period;
    if less < n {
      Gap(period, less, n);
    }
  }

  // ----- What single operations do -----

  /** Making safe attempts all three writes whatever the others do: each output that accepts its
      write is off afterwards, each other one is as it was, and the first error is reported. */
  lemma MakeSafeEffect(b: Board, m: Motor)
    ensures var (r, ret) := MakeSafe(b, m);
            var n := |m.wire|;
            && |r.wire| == n + 3
            && Outputs(r) == Pins(if b.rc(n) < 0 then Outputs(m).pulse else 0,
                                  b.rc(n + 1) < 0 && Outputs(m).in1,
                                  b.rc(n + 2) < 0 && Outputs(m).in2)
            && ret == (if b.rc(n) < 0 then b.rc(n) else if b.rc(n + 1) < 0 then b.rc(n + 1)
                       else if b.rc(n + 2) < 0 then b.rc(n + 2) else 0)
  {
  }

  /** From READY, starting succeeds exactly when its three writes do, and then drives the direction at
      full duty for the boost time; otherwise it ends in FAULT. */
  lemma StartEffect(b: Board, m: Motor)
    requires m.state == Ready
    ensures var n := |m.wire|;
            var writes := b.rc(n) >= 0 && b.rc(n + 1) >= 0 && b.rc(n + 2) >= 0;
            var (r, ret) := Start(b, m);
            && (ret == 0 <==> writes)
            && (writes ==>
                  && r == m.(state := Running, duty := BOOST_DUTY, boost := BOOST_MS, wire := r.wire)
                  && Drives(Outputs(r), m.direction) && Outputs(r).pulse == b.period)
            && (!writes ==> r.state == Fault && r.lastError == ret)
            && (!writes ==> ret == if b.rc(n) < 0 then b.rc(n) else if b.rc(n + 1) < 0 then b.rc(n + 1)
                                   else b.rc(n + 2))
  {
    PulseExact(b, BOOST_DUTY);
    hide Pulse;
  }

  /** Anywhere else starting changes nothing: it is an error in FAULT, busy while stopping or before
      initialization, and fine when already running. Stopping is an error in FAULT and otherwise only
      turns a turning motor to STOPPING, without boost. */
  lemma StartAndStopElsewhere(b: Board, m: Motor)
    ensures m.state != Ready ==>
              && Start(b, m).0 == m
              && Start(b, m).1 == (if m.state == Fault then -5 else if m.state == Running then 0 else -16)
    ensures Stop(m) ==
            if m.state == Fault then (m, -5)
            else if m.state in {Running, Stopping} then (m.(state := Stopping, boost := 0), 0)
            else (m, 0)
  {
  }

  /** Initialization succeeds exactly when the devices are ready and all five operations succeed;
      otherwise it ends in FAULT with the first error. */
  lemma InitEffect(b: Board, m: Motor, ready: bool, c1: int, c2: int)
    ensures var n := |m.wire| + 2;
            var (r, ret) := Init(b, m, ready, c1, c2);
            && ret == (if !ready then -19 else if c1 < 0 then c1 else if c2 < 0 then c2
                       else if b.rc(n) < 0 then b.rc(n) else if b.rc(n + 1) < 0 then b.rc(n + 1)
                       else if b.rc(n + 2) < 0 then b.rc(n + 2) else 0)
            && (ret < 0 ==> r.state == Fault && r.lastError == ret && r.duty == 0)
            && (ret >= 0 ==>
                  && r.state == Ready && r.direction == Forward && r.lastError == 0
                  && r.duty == 0 && Released(Outputs(r)))
  {
  }

  /** Reset succeeds, from any state, exactly when its three writes do, and then faces forward with
      no error; quick stop does the same outside FAULT but keeps the direction. */
  lemma ResetEffect(b: Board, m: Motor, base: nat)
    requires Safe(b, m, base)
    ensures var n := |m.wire|;
            var writes := b.rc(n) >= 0 && b.rc(n + 1) >= 0 && b.rc(n + 2) >= 0;
            var (r, ret) := Reset(b, m);
            var (q, quick) := QuickStop(b, m);
            && (ret == 0 <==> writes) && (r.state == Ready <==> writes)
            && (writes ==> r.direction == Forward && r.lastError == 0 && Released(Outputs(r)))
            && (quick == 0 <==> writes && m.state != Fault)
            && (!writes ==> r.state == Fault && r.lastError == ret < 0 && MakeSafe(b, m).1 == ret)
            && (!writes && m.state != Fault ==> q == r && quick == ret)
            && (m.state == Fault ==> q == m && quick == -5)
            && (quick == 0 ==> q.state == Ready && q.direction == m.direction && Released(Outputs(q)))
  {
  }

  /** The direction changes only while the motor is stopped, with the bridge released before the call
      or by it. */
  lemma DirectionChangesAtRest(b: Board, m: Motor, c: Call, base: nat)
    requires Safe(b, m, base)
    ensures var r := Do(b, m, c);
            r.direction != m.direction ==>
              && r.direction == Opposite(m.direction) && r.state == Ready && Released(Outputs(r))
              && (m.state == Ready || c.CallReset?)
    ensures m.state == Ready ==> Do(b, m, CallToggle).direction == Opposite(m.direction)
  {
    hide LaneSince, SetPwm, ApplyDirection;
    if c.CallReset? {
      ResetEffect(b, m, base);
      hide MakeSafe;
    } else {
      hide MakeSafe;
      if c.CallStart? || c.CallProcess? || c.CallQuickStop? || c.CallFail? {
        RestKeepsDirection(b, m, c);
      }
    }
  }

  lemma RestKeepsDirection(b: Board, m: Motor, c: Call)
    requires c.CallStart? || c.CallProcess? || c.CallQuickStop? || c.CallFail?
    ensures Do(b, m, c).direction == m.direction
  {
  }
}
