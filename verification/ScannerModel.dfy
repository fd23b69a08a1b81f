/** The directional scanner of Unit-ID 2 and the EtherNet/IP assemblies on values: five Input and
    five Output slots that the mapping tables redirect into the holding registers. */
module ScannerModel {
  import opened Words
  import opened Errno
  import opened RegisterModel
  import G = GatewayModel
  import C = Contract

  /** Local slot values and whether the register accessors are registered. */
  datatype Scanner = Scanner(attached: bool, inputs: seq<word>, outputs: seq<word>)

  datatype Server = Server(m: M7, scanner: Scanner)

  const ATTACHED: Scanner := Scanner(true, [0, 0, 0, 0, 0], [0, 0, 0, 0, 0])

  ghost predicate Shaped(s: Server) {
    |s.scanner.inputs| == |s.scanner.outputs| == SLOTS
  }

  // ----- Access -----

  function ReadSlot(s: Server, base: nat, local: seq<word>, addr: word): Reading
    requires |local| == SLOTS && base + SLOTS <= COUNT
  {
    if addr >= SLOTS then Error(-ENOTSUP)
    else if !s.scanner.attached then Error(-ENODEV)
    else
      match Read(s.m, base + addr)
      case Error(code) => Error(code)
      case Value(target) => if target == FREE then Value(local[addr]) else Read(s.m, target)
  }

  function InputRead(s: Server, addr: word): Reading
    requires |s.scanner.inputs| == SLOTS
  {
    ReadSlot(s, INPUT_MAP, s.scanner.inputs, addr)
  }

  function OutputRead(s: Server, addr: word): Reading
    requires |s.scanner.outputs| == SLOTS
  {
    ReadSlot(s, OUTPUT_MAP, s.scanner.outputs, addr)
  }

  /** A write to a mapped register. A slot mapped to APPLY does nothing at 0 and otherwise claims
      remote mode before applying. */
  function MappedWrite(env: Env, m: M7, target: word, reg: word): (M7, int) {
    if target == MOTOR_APPLY && reg == 0 then (m, 0)
    else if target == MOTOR_APPLY then
      var (m1, e1) := Write(env, m, MOTOR_MODE, 1);
      if e1 < 0 then (m1, e1) else Write(env, m1, MOTOR_APPLY, reg)
    else Write(env, m, target, reg)
  }

  function OutputWrite(env: Env, s: Server, addr: word, reg: word): (Server, int)
    requires |s.scanner.outputs| == SLOTS
  {
    if addr >= SLOTS then (s, -ENOTSUP)
    else if !s.scanner.attached then (s, -ENODEV)
    else
      var target := s.m.regs[OUTPUT_MAP + addr];
      if target == FREE then
        (s.(scanner := s.scanner.(outputs := s.scanner.outputs[addr := reg])), 0)
      else
        var (m, ret) := MappedWrite(env, s.m, target, reg);
        (s.(m := m), ret)
  }

  /** The assembly callback: slots in order, up to the first that fails. Returns how many slots
      were attempted and whether all succeeded. */
  function Receive(env: Env, s: Server, image: seq<word>, n: nat): (r: (Server, nat, bool))
    requires |s.scanner.outputs| == SLOTS && n <= |image| <= SLOTS
    ensures |r.0.scanner.outputs| == SLOTS && r.1 <= n && (r.2 ==> r.1 == n)
  {
    if n == 0 then (s, 0, true)
    else
      var (s1, k, ok) := Receive(env, s, image, n - 1);
      if !ok then (s1, k, false)
      else
        var (s2, ret) := OutputWrite(env, s1, n - 1, image[n - 1]);
        (s2, n, ret >= 0)
  }

  /** The Input image sent to the originator; an unreadable slot is sent as 0. */
  function InputImage(s: Server): (ws: seq<word>)
    requires |s.scanner.inputs| == SLOTS
    ensures |ws| == SLOTS
  {
    seq(SLOTS, i requires 0 <= i < SLOTS =>
      match InputRead(s, i) case Value(w) => w case Error(_) => 0)
  }

  // ----- Output writes stay within their rights -----

  /** What an Output write can never touch. */
  ghost predicate SameTables(r: M7, m: M7) {
    && r.regs[RESERVED] == m.regs[RESERVED]
    && (forall k :: INPUT_MAP <= k < OUTPUT_MAP + SLOTS ==> r.regs[k] == m.regs[k])
    && r.report == m.report
  }

  lemma MappedWriteKeeps(env: Env, m: M7, target: word, reg: word)
    requires Sound(m) && SmallErrors(env)
    requires target < COUNT && IsWritableMapping(target)
    ensures Sound(MappedWrite(env, m, target, reg).0)
    ensures SameTables(MappedWrite(env, m, target, reg).0, m)
  {
    hide Write, Sound;
    if target == MOTOR_APPLY && reg != 0 {
      WriteKeeps(env, m, MOTOR_MODE, 1);
      WriteFrame(env, m, MOTOR_MODE, 1);
      var m1 := Write(env, m, MOTOR_MODE, 1).0;
      WriteKeeps(env, m1, MOTOR_APPLY, reg);
      WriteFrame(env, m1, MOTOR_APPLY, reg);
    } else if target != MOTOR_APPLY {
      WriteKeeps(env, m, target, reg);
      WriteFrame(env, m, target, reg);
    }
  }

  /** An Output write goes to a local slot or to a register it has the rights to write: it is never
      refused for rights, and changes neither the reserved register, nor a mapping table, nor the
      motor state, nor an Input slot's local value. */
  lemma OutputWriteKeeps(env: Env, s: Server, addr: word, reg: word)
    requires Shaped(s) && Sound(s.m) && SmallErrors(env)
    ensures var r := OutputWrite(env, s, addr, reg).0;
            && Shaped(r) && Sound(r.m) && SameTables(r.m, s.m)
            && r.scanner.inputs == s.scanner.inputs && r.scanner.attached == s.scanner.attached
    ensures addr < SLOTS ==>
              var target := s.m.regs[OUTPUT_MAP + addr];
              target == FREE || (target < COUNT && !IsRefused(target, reg) && !IsRefused(MOTOR_MODE, 1))
  {
    if addr < SLOTS {
      var k: word := OUTPUT_MAP + addr;
      assert IsOutputMapping(k);
      hide Sound, MappedWrite;
      if s.m.regs[k] != FREE {
        MappedWriteKeeps(env, s.m, s.m.regs[k], reg);
      }
    }
  }

  /** What every FREE Input slot reads, before and after any Output write: zero. */
  lemma FreeInputsReadZero(env: Env, s: Server, addr: word, reg: word, slot: word)
    requires Shaped(s) && Sound(s.m) && SmallErrors(env)
    requires s.scanner.attached && s.scanner.inputs == ATTACHED.inputs
    requires slot < SLOTS && s.m.regs[INPUT_MAP + slot] == FREE
    ensures InputRead(s, slot) == Value(0)
    ensures InputRead(OutputWrite(env, s, addr, reg).0, slot) == Value(0)
  {
    OutputWriteKeeps(env, s, addr, reg);
    hide OutputWrite, Sound;
    assert ATTACHED.inputs[slot] == 0;
  }

  /** Any sequence of Output writes, from Unit-ID 2 or from assemblies. */
  datatype SlotWrite = SlotWrite(addr: word, reg: word)

  function OutputWrites(env: Env, s: Server, ws: seq<SlotWrite>): (r: Server)
    requires |s.scanner.outputs| == SLOTS
    ensures |r.scanner.outputs| == SLOTS
    decreases |ws|
  {
    if |ws| == 0 then s
    else OutputWrite(env, OutputWrites(env, s, ws[..|ws| - 1]), Last(ws).addr, Last(ws).reg).0
  }

  /** Mapping non-interference over whole sequences of Output writes. */
  lemma {:induction false} OutputWritesKeep(env: Env, s: Server, ws: seq<SlotWrite>)
    requires Shaped(s) && Sound(s.m) && SmallErrors(env)
    ensures var r := OutputWrites(env, s, ws);
            && Shaped(r) && Sound(r.m) && SameTables(r.m, s.m)
            && r.scanner.inputs == s.scanner.inputs && r.scanner.attached == s.scanner.attached
    decreases |ws|
  {
    if |ws| > 0 {
      hide Sound, OutputWrite;
      OutputWritesKeep(env, s, ws[..|ws| - 1]);
      OutputWriteKeeps(env, OutputWrites(env, s, ws[..|ws| - 1]), Last(ws).addr, Last(ws).reg);
    }
  }

  // ----- From an Output image to motor commands -----

  /** The Output mapping table. */
  function Table(m: M7): (t: seq<word>)
    ensures |t| == SLOTS
  {
    m.regs[OUTPUT_MAP..OUTPUT_MAP + SLOTS]
  }

  /** The value a register has once slots 0..n-1 have been written: the last of them mapped to it,
      or what it held before. */
  function Written(t: seq<word>, image: seq<word>, n: nat, target: word, before: word): word
    requires n <= |t| && n <= |image|
  {
    if n == 0 then before
    else if t[n - 1] == target then image[n - 1]
    else Written(t, image, n - 1, target, before)
  }

  /** The command slot `n` applies: all earlier slots, no later one, in remote mode. */
  function CommandAt(t: seq<word>, image: seq<word>, n: nat, regs: Registers): G.Submission
    requires n <= |t| && n <= |image|
  {
    G.Submission(
      Written(t, image, n, MOTOR_CONTROL, regs[MOTOR_CONTROL]),
      Written(t, image, n, MOTOR_DUTY, regs[MOTOR_DUTY]),
      Written(t, image, n, MOTOR_ACCEL, regs[MOTOR_ACCEL]),
      Written(t, image, n, MOTOR_DECEL, regs[MOTOR_DECEL]),
      Written(t, image, n, MOTOR_TIMEOUT, regs[MOTOR_TIMEOUT]),
      C.SOURCE_MODBUS, true)
  }

  /** One command for each of the first `n` slots that is mapped to APPLY and holds 1. */
  function Commands(t: seq<word>, image: seq<word>, n: nat, regs: Registers): seq<G.Submission>
    requires n <= |t| && n <= |image|
  {
    if n == 0 then []
    else
      Commands(t, image, n - 1, regs)
      + if t[n - 1] == MOTOR_APPLY && image[n - 1] == 1 then [CommandAt(t, image, n - 1, regs)] else []
  }

  function Submitted(attempts: seq<Attempt>): (ss: seq<G.Submission>)
    ensures |ss| == |attempts|
  {
    seq(|attempts|, i requires 0 <= i < |attempts| => attempts[i].submission)
  }

  /** The staging registers hold what the first `n` slots wrote. */
  ghost predicate StagedBy(regs: Registers, t: seq<word>, image: seq<word>, n: nat, start: Registers)
    requires n <= |t| && n <= |image|
  {
    forall k: word :: MOTOR_CONTROL <= k <= MOTOR_TIMEOUT && k != MOTOR_APPLY ==>
      regs[k] == Written(t, image, n, k, start[k])
  }

  /** A mapped write that succeeds stores its value in the staging register it is mapped to, and
      leaves the others; writing APPLY, in or out of turn, changes none of them. */
  lemma MappedWriteStages(env: Env, m: M7, target: word, reg: word, k: word)
    requires target < COUNT && IsWritableMapping(target)
    requires MOTOR_CONTROL <= k <= MOTOR_TIMEOUT && k != MOTOR_APPLY
    ensures var (r, ret) := MappedWrite(env, m, target, reg);
            r.regs[k] == if target == k then reg else m.regs[k]
  {
  }

  /** A mapped write submits exactly when it writes 1 to APPLY, and then what is staged, in remote
      mode. */
  lemma MappedWriteSubmits(env: Env, m: M7, target: word, reg: word)
    requires target < COUNT
    ensures var (r, ret) := MappedWrite(env, m, target, reg);
            if target == MOTOR_APPLY && reg == 1 then
              && |r.attempts| == |m.attempts| + 1 && r.attempts[..|m.attempts|] == m.attempts
              && Last(r.attempts).submission == Staged(m.regs).(remote := true)
            else r.attempts == m.attempts
  {
  }

  lemma SubmittedAppend(attempts: seq<Attempt>, more: seq<Attempt>)
    requires |more| == |attempts| + 1 && more[..|attempts|] == attempts
    ensures Submitted(more) == Submitted(attempts) + [Last(more).submission]
  {
  }

  /** One slot of the image. */
  lemma SlotStages(env: Env, s: Server, t: seq<word>, image: seq<word>, n: nat, start: Registers)
    requires Shaped(s) && Sound(s.m) && s.scanner.attached
    requires t == Table(s.m) && n < SLOTS == |image|
    requires StagedBy(s.m.regs, t, image, n, start)
    ensures var r := OutputWrite(env, s, n, image[n]).0;
            && StagedBy(r.m.regs, t, image, n + 1, start)
            && Submitted(r.m.attempts) == Submitted(s.m.attempts) +
                 if t[n] == MOTOR_APPLY && image[n] == 1 then [CommandAt(t, image, n, start)] else []
  {
    var k: word := OUTPUT_MAP + n;
    assert IsOutputMapping(k) && t[n] == s.m.regs[k];
    hide Sound, MappedWrite;
    var r := OutputWrite(env, s, n, image[n]).0;
    if t[n] != FREE {
      forall k: word | MOTOR_CONTROL <= k <= MOTOR_TIMEOUT && k != MOTOR_APPLY
        ensures r.m.regs[k] == Written(t, image, n + 1, k, start[k])
      {
        MappedWriteStages(env, s.m, t[n], image[n], k);
      }
      MappedWriteSubmits(env, s.m, t[n], image[n]);
      if t[n] == MOTOR_APPLY && image[n] == 1 {
        SubmittedAppend(s.m.attempts, r.m.attempts);
        assert Staged(s.m.regs).(remote := true) == CommandAt(t, image, n, start);
      }
    }
  }

  lemma {:induction false} ReceiveProgress(env: Env, s: Server, image: seq<word>, n: nat)
    requires Shaped(s) && Sound(s.m) && SmallErrors(env) && s.scanner.attached
    requires |image| == SLOTS && n <= SLOTS
    ensures var (r, k, ok) := Receive(env, s, image, n);
            && Shaped(r) && Sound(r.m) && SameTables(r.m, s.m) && r.scanner.attached
            && StagedBy(r.m.regs, Table(s.m), image, k, s.m.regs)
            && Submitted(r.m.attempts) ==
               Submitted(s.m.attempts) + Commands(Table(s.m), image, k, s.m.regs)
  {
    hide Sound, OutputWrite, CommandAt, Read;
    if n > 0 {
      ReceiveProgress(env, s, image, n - 1);
      var (s1, k, ok) := Receive(env, s, image, n - 1);
      if ok {
        assert Table(s1.m) == Table(s.m);
        hide StagedBy, Submitted, Table;
        OutputWriteKeeps(env, s1, n - 1, image[n - 1]);
        SlotStages(env, s1, Table(s.m), image, n - 1, s.m.regs);
      }
    } else {
      assert Submitted(s.m.attempts) + [] == Submitted(s.m.attempts);
    }
  }

  /** A received assembly submits one remote command attempt for each slot mapped to APPLY and
      holding 1, up to and including the first failing slot, for every mapping table that can be
      reached; each command reflects all earlier slots of the image and no later one. */
  lemma ImageToCommands(env: Env, s: Server, image: seq<word>)
    requires Shaped(s) && Sound(s.m) && SmallErrors(env) && s.scanner.attached && |image| == SLOTS
    ensures var (r, k, ok) := Receive(env, s, image, SLOTS);
            && (ok ==> k == SLOTS) && (!ok ==> 0 < k <= SLOTS && OutputWriteFails(env, s, image, k - 1))
            && Submitted(r.m.attempts) ==
               Submitted(s.m.attempts) + Commands(Table(s.m), image, k, s.m.regs)
            && Sound(r.m) && SameTables(r.m, s.m)
  {
    ReceiveProgress(env, s, image, SLOTS);
    FailureCounts(env, s, image, SLOTS);
  }

  lemma {:induction false} FailureCounts(env: Env, s: Server, image: seq<word>, n: nat)
    requires Shaped(s) && n <= |image| == SLOTS
    ensures var (r, k, ok) := Receive(env, s, image, n);
            !ok ==> 0 < k && OutputWriteFails(env, s, image, k - 1)
  {
    if n > 0 {
      FailureCounts(env, s, image, n - 1);
    }
  }

  /** Slot `i` fails once the slots before it have been written. */
  ghost predicate OutputWriteFails(env: Env, s: Server, image: seq<word>, i: nat)
    requires |s.scanner.outputs| == SLOTS && i < |image| <= SLOTS
  {
    var (before, _, ok) := Receive(env, s, image, i);
    ok && OutputWrite(env, before, i, image[i]).1 < 0
  }

  /** Under the default mappings word 0 is the control word, word 1 the duty, and the command is
      submitted exactly when word 2 is 1; the ramps and the timeout stay as staged. */
  lemma DefaultImage(env: Env, s: Server, image: seq<word>)
    requires Shaped(s) && Sound(s.m) && SmallErrors(env) && s.scanner.attached && |image| == SLOTS
    requires Table(s.m) == [MOTOR_CONTROL as word, MOTOR_DUTY as word, MOTOR_APPLY as word, FREE, FREE]
    ensures var (r, k, ok) := Receive(env, s, image, SLOTS);
            Submitted(r.m.attempts) == Submitted(s.m.attempts) +
              if image[2] == 1 then
                [G.Submission(image[0], image[1], s.m.regs[MOTOR_ACCEL], s.m.regs[MOTOR_DECEL],
                              s.m.regs[MOTOR_TIMEOUT], C.SOURCE_MODBUS, true)]
              else []
  {
    var t := Table(s.m);
    assert s.m.regs[OUTPUT_MAP] == t[0] && s.m.regs[OUTPUT_MAP + 1] == t[1];
    hide Sound, Table, Submitted, SameTables, Receive, OutputWrite, OutputWriteFails, Commands;
    ImageToCommands(env, s, image);
    DefaultSlotsSucceed(env, s, image);
    FailureCounts(env, s, image, SLOTS);
    var k := Receive(env, s, image, SLOTS).1;
    assert k >= 3;
    DefaultCommands(t, image, s.m.regs, k);
  }

  lemma DefaultCommands(t: seq<word>, image: seq<word>, regs: Registers, k: nat)
    requires t == [MOTOR_CONTROL as word, MOTOR_DUTY as word, MOTOR_APPLY as word, FREE, FREE]
    requires |image| == SLOTS && 3 <= k <= SLOTS
    ensures Commands(t, image, k, regs) ==
              if image[2] == 1 then
                [G.Submission(image[0], image[1], regs[MOTOR_ACCEL], regs[MOTOR_DECEL],
                              regs[MOTOR_TIMEOUT], C.SOURCE_MODBUS, true)]
              else []
  {
    assert Commands(t, image, 0, regs) == [];
    assert Commands(t, image, 1, regs) == [];
    assert Commands(t, image, 2, regs) == [];
    var one: seq<G.Submission> := if image[2] == 1 then [CommandAt(t, image, 2, regs)] else [];
    assert Commands(t, image, 3, regs) == one;
    assert Commands(t, image, 4, regs) == one;
    assert Commands(t, image, 5, regs) == one;
    assert Written(t, image, 1, MOTOR_CONTROL, regs[MOTOR_CONTROL]) == image[0];
    assert Written(t, image, 2, MOTOR_CONTROL, regs[MOTOR_CONTROL]) == image[0];
    forall target: word | target !in {MOTOR_CONTROL as word, MOTOR_DUTY as word}
      ensures Written(t, image, 2, target, regs[MOTOR_ACCEL]) == regs[MOTOR_ACCEL]
      ensures Written(t, image, 2, target, regs[MOTOR_DECEL]) == regs[MOTOR_DECEL]
      ensures Written(t, image, 2, target, regs[MOTOR_TIMEOUT]) == regs[MOTOR_TIMEOUT]
    {
      assert Written(t, image, 1, target, regs[MOTOR_ACCEL]) == regs[MOTOR_ACCEL];
      assert Written(t, image, 1, target, regs[MOTOR_DECEL]) == regs[MOTOR_DECEL];
      assert Written(t, image, 1, target, regs[MOTOR_TIMEOUT]) == regs[MOTOR_TIMEOUT];
    }
  }

  /** The control and duty slots accept any word. */
  lemma DefaultSlotsSucceed(env: Env, s: Server, image: seq<word>)
    requires Shaped(s) && s.scanner.attached && |image| == SLOTS
    requires s.m.regs[OUTPUT_MAP] == MOTOR_CONTROL && s.m.regs[OUTPUT_MAP + 1] == MOTOR_DUTY
    ensures !OutputWriteFails(env, s, image, 0) && !OutputWriteFails(env, s, image, 1)
  {
  }
}
