/** The motor state the M4 publishes, and what its words always say. */
module M4Snapshot {
  import opened Words
  import opened Options
  import opened Contract
  import opened MotorModel
  import opened M4Core

  // Bit positions of the flags word.
  const BIT_DISABLED := 0
  const BIT_READY := 1
  const BIT_RUNNING := 2
  const BIT_STOPPING := 3
  const BIT_FAULT := 4
  const BIT_LOCAL := 5
  const BIT_REMOTE := 6
  const BIT_IPC_VALID := 7
  const BIT_TIMEOUT := 8
  const BIT_LATCH := 9

  function StateFlag(s: State): word {
    match s
    case Disabled => 1
    case Ready => 2
    case Running => 4
    case Stopping => 8
    case Fault => 16
  }

  /** The flags are distinct bits, so setting them adds them up. */
  function Flags(c: Core): word {
    128 + (if c.remote then 64 else 32) + (if c.timedOut then 256 else 0)
    + (if c.latched then 512 else 0) + StateFlag(c.motor.state)
  }

  /** The twelve words of the state message. */
  function StateWords(c: Core, buttons: word, raw: word, loopTime: word, now: nat, heartbeat: word)
    : (ws: seq<word>)
    ensures |ws| == STATE_WORDS
  {
    [Flags(c), c.motor.duty, c.motor.target, if c.motor.direction == Forward then 0 else 1,
     U16(c.motor.lastError), buttons, raw, if c.remote then U16(Age(c, now)) else 0,
     loopTime, heartbeat, c.lastAccepted, 0]
  }

  // ----- Reading the words back -----

  /** Bit `k` of a word, for the ten positions in use. */
  predicate Bit(w: word, k: nat) {
    match k
    case 0 => w % 2 == 1
    case 1 => w / 2 % 2 == 1
    case 2 => w / 4 % 2 == 1
    case 3 => w / 8 % 2 == 1
    case 4 => w / 16 % 2 == 1
    case 5 => w / 32 % 2 == 1
    case 6 => w / 64 % 2 == 1
    case 7 => w / 128 % 2 == 1
    case 8 => w / 256 % 2 == 1
    case 9 => w / 512 % 2 == 1
    case _ => false
  }

  /** Exactly one of the five motor states is flagged. */
  predicate OneState(w: word) {
    && (Bit(w, BIT_DISABLED) || Bit(w, BIT_READY) || Bit(w, BIT_RUNNING) || Bit(w, BIT_STOPPING)
        || Bit(w, BIT_FAULT))
    && (Bit(w, BIT_DISABLED) ==>
          !Bit(w, BIT_READY) && !Bit(w, BIT_RUNNING) && !Bit(w, BIT_STOPPING) && !Bit(w, BIT_FAULT))
    && (Bit(w, BIT_READY) ==> !Bit(w, BIT_RUNNING) && !Bit(w, BIT_STOPPING) && !Bit(w, BIT_FAULT))
    && (Bit(w, BIT_RUNNING) ==> !Bit(w, BIT_STOPPING) && !Bit(w, BIT_FAULT))
    && (Bit(w, BIT_STOPPING) ==> !Bit(w, BIT_FAULT))
  }

  /** What a PLC can rely on in any snapshot. */
  predicate Sane(ws: seq<word>) {
    && |ws| == STATE_WORDS
    && OneState(ws[0])
    && Bit(ws[0], BIT_IPC_VALID)
    && (Bit(ws[0], BIT_LOCAL) <==> !Bit(ws[0], BIT_REMOTE))
    && (Bit(ws[0], BIT_TIMEOUT) ==> Bit(ws[0], BIT_REMOTE) && !Bit(ws[0], BIT_RUNNING))
    && (Bit(ws[0], BIT_LATCH) ==> Bit(ws[0], BIT_REMOTE))
    && (Bit(ws[0], BIT_READY) ==> ws[1] == 0)
    && (Bit(ws[0], BIT_RUNNING) ==> 800 <= ws[1] <= 1000)
    && ws[1] <= 1000
    && 800 <= ws[2] <= 1000
    && ws[3] <= 1
    && (Bit(ws[0], BIT_FAULT) <==> ws[4] != 0)
  }

  lemma FlagsReadBack(c: Core)
    ensures var w := Flags(c);
            && OneState(w) && Bit(w, BIT_IPC_VALID)
            && Bit(w, BIT_REMOTE) == c.remote && Bit(w, BIT_LOCAL) == !c.remote
            && Bit(w, BIT_TIMEOUT) == c.timedOut && Bit(w, BIT_LATCH) == c.latched
            && Bit(w, BIT_READY) == (c.motor.state == Ready)
            && Bit(w, BIT_RUNNING) == (c.motor.state == Running)
            && Bit(w, BIT_STOPPING) == (c.motor.state == Stopping)
            && Bit(w, BIT_FAULT) == (c.motor.state == Fault)
  {
  }

  /** The flags word in numbers, from bit 0 for DISABLED to bit 9 for the latch. */
  lemma FlagWord(c: Core)
    ensures var w := Flags(c);
            && (w % 2 == 1 <==> c.motor.state == Disabled) && (w / 2 % 2 == 1 <==> c.motor.state == Ready)
            && (w / 4 % 2 == 1 <==> c.motor.state == Running) && (w / 8 % 2 == 1 <==> c.motor.state == Stopping)
            && (w / 16 % 2 == 1 <==> c.motor.state == Fault)
            && (w / 32 % 2 == 1 <==> !c.remote) && (w / 64 % 2 == 1 <==> c.remote) && w / 128 % 2 == 1
            && (w / 256 % 2 == 1 <==> c.timedOut) && (w / 512 % 2 == 1 <==> c.latched)
  {
    hide Flags;
    FlagsReadBack(c);
  }

  /** The error code fits the signed 16-bit fault word. */
  predicate ErrorFits(m: Motor) {
    -0x8000 <= m.lastError
  }

  lemma SnapshotIsSane(b: Board, c: Core, base: nat, buttons: word, raw: word, loopTime: word,
                       now: nat, heartbeat: word)
    requires Sound(b, c, base) && ErrorFits(c.motor)
    ensures Sane(StateWords(c, buttons, raw, loopTime, now, heartbeat))
  {
    FlagsReadBack(c);
  }

  // ----- Error codes stay in range -----

  /** Drivers and converter report errors of at most 15 bits, as all defined error numbers are. */
  ghost predicate SmallErrors(b: Board) {
    forall i: nat :: -0x8000 <= b.rc(i)
  }

  ghost predicate SmallReading(e: Event) {
    e.reading.Failed? ==> -0x8000 <= e.reading.error
  }

  lemma StartErrorFits(b: Board, m: Motor)
    requires SmallErrors(b) && ErrorFits(m)
    ensures ErrorFits(Start(b, m).0)
  {
  }

  lemma ResetErrorFits(b: Board, m: Motor)
    requires SmallErrors(b) && ErrorFits(m)
    ensures ErrorFits(Reset(b, m).0) && ErrorFits(QuickStop(b, m).0)
  {
  }

  lemma ProcessErrorFits(b: Board, m: Motor)
    requires SmallErrors(b) && ErrorFits(m)
    ensures ErrorFits(Process(b, m, LOOP_MS).0)
  {
  }

  lemma ApplyErrorFits(b: Board, c: Core, cmd: Command, now: nat)
    requires SmallErrors(b) && ErrorFits(c.motor)
    ensures ErrorFits(Apply(b, c, cmd, now).0.motor)
  {
    hide Reset, QuickStop, Start;
    ResetErrorFits(b, c.motor);
    if cmd.mode != MODE_LOCAL {
      var m2 := Configure(c.motor, cmd).0;
      ResetErrorFits(b, m2);
      StartErrorFits(b, Execute(b, m2, cmd, c.latched).0);
    }
  }

  lemma StepErrorFits(b: Board, c: Core, e: Event)
    requires SmallErrors(b) && SmallReading(e) && ErrorFits(c.motor)
    ensures ErrorFits(Step(b, c, e).motor)
  {
    hide Reset, Start, Process, Apply;
    if e.command.Some? {
      ApplyErrorFits(b, c, e.command.value, e.tCommand);
    }
    var i := Ipc(b, c, e);
    assert ErrorFits(i.motor);
    var p := Potentiometer(b, i, e.reading);
    assert ErrorFits(p.motor);
    ResetErrorFits(b, p.motor);
    StartErrorFits(b, if e.toggle then ToggleDirection(p.motor).0 else p.motor);
    ProcessErrorFits(b, Decide(b, c, e).motor);
  }

  lemma {:induction false} RunErrorFits(b: Board, c: Core, es: seq<Event>)
    requires SmallErrors(b) && ErrorFits(c.motor)
    requires forall i :: 0 <= i < |es| ==> SmallReading(es[i])
    ensures ErrorFits(Steps(b, c, es).motor)
    decreases |es|
  {
    if |es| > 0 {
      RunErrorFits(b, c, es[..|es| - 1]);
      StepErrorFits(b, Steps(b, c, es[..|es| - 1]), Last(es));
    }
  }

  /** Every snapshot that could be published at the end of any iteration of any run is sane. */
  lemma EverySnapshotIsSane(b: Board, c: Core, es: seq<Event>, base: nat,
                            buttons: word, raw: word, loopTime: word, now: nat, heartbeat: word)
    requires Sound(b, c, base) && ErrorFits(c.motor) && SmallErrors(b) && AllLegal(es)
    requires forall i :: 0 <= i < |es| ==> SmallReading(es[i])
    ensures Sane(StateWords(Steps(b, c, es), buttons, raw, loopTime, now, heartbeat))
  {
    StepsKeep(b, c, es, base);
    RunErrorFits(b, c, es);
    SnapshotIsSane(b, Steps(b, c, es), base, buttons, raw, loopTime, now, heartbeat);
  }
}
