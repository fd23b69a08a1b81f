/** The sixty Modbus holding registers on values: access rights, staged motor commands committed by
    APPLY, and the tables that map scanner slots back onto registers. */
module RegisterModel {
  import opened Words
  import opened Errno
  import opened Options
  import C = Contract
  import G = GatewayModel

  const COUNT := 60
  const COMMAND := 8
  const STATUS := 9
  const MOTOR_MODE := 10
  const MOTOR_CONTROL := 11
  const MOTOR_APPLY := 12
  const MOTOR_DUTY := 13
  const MOTOR_ACCEL := 14
  const MOTOR_DECEL := 15
  const MOTOR_TIMEOUT := 16
  const COMMAND_STATUS := 17
  const COMMAND_SEQUENCE := 18
  const RESERVED := 19
  const STATE_BASE := 20
  const STATE_COUNT := 12
  const INPUT_MAP := 40
  const OUTPUT_MAP := 45
  const SLOTS := 5
  const FREE: word := 0xffff
  const SAVE_COMMAND: word := 1
  const PENDING: word := 0x7fff

  type Registers = s: seq<word> | |s| == COUNT witness seq(COUNT, _ => 0)
  type TenWords = s: seq<word> | |s| == 10 witness seq(10, _ => 0)
  type StateImage = s: seq<word> | |s| == STATE_COUNT witness seq(STATE_COUNT, _ => 0)

  /** A submission made by APPLY, and what the link answered. */
  datatype Attempt = Attempt(submission: G.Submission, ret: int)

  /** Registers, link and the cached motor state; `attempts` is the history of APPLY. */
  datatype M7 = M7(
    regs: Registers,
    gateway: G.Gateway,
    report: Option<StateImage>,
    attempts: seq<Attempt>,
    saves: nat)

  /** What saving the network configuration leaves in registers 0..9, and its result. */
  datatype Saved = Saved(words: TenWords, ret: int)

  datatype Env = Env(link: nat -> int, save: nat -> Saved)

  // ----- Address predicates -----

  predicate IsMotorCommand(addr: word) {
    MOTOR_MODE <= addr <= MOTOR_TIMEOUT
  }

  predicate IsMotorState(addr: word) {
    STATE_BASE <= addr < STATE_BASE + STATE_COUNT
  }

  predicate IsInputMapping(addr: word) {
    INPUT_MAP <= addr < INPUT_MAP + SLOTS
  }

  predicate IsOutputMapping(addr: word) {
    OUTPUT_MAP <= addr < OUTPUT_MAP + SLOTS
  }

  predicate IsValidMapping(target: word) {
    target == FREE || target < COUNT
  }

  predicate IsWritableMapping(target: word) {
    target == FREE
    || (!IsMotorState(target) && target != COMMAND_STATUS && target != COMMAND_SEQUENCE
        && target != RESERVED && !IsInputMapping(target) && !IsOutputMapping(target))
  }

  /** A register no client may write. */
  predicate IsReadOnly(addr: word) {
    IsMotorState(addr) || addr == COMMAND_STATUS || addr == COMMAND_SEQUENCE || addr == RESERVED
  }

  /** The write would be refused for lack of rights. */
  predicate IsRefused(addr: word, reg: word) {
    addr < COUNT
    && (IsReadOnly(addr)
        || (IsOutputMapping(addr) && IsValidMapping(reg) && !IsWritableMapping(reg)))
  }

  // ----- Register access -----

  datatype Reading = Value(reg: word) | Error(code: int)

  function Read(m: M7, addr: word): Reading {
    if addr >= COUNT then Error(-ENOTSUP)
    else if IsMotorState(addr) then
      if m.report.None? then Error(-EAGAIN) else Value(m.report.value[addr - STATE_BASE])
    else Value(m.regs[addr])
  }

  /** The command the staged registers stand for. */
  function Staged(regs: Registers): G.Submission {
    G.Submission(regs[MOTOR_CONTROL], regs[MOTOR_DUTY], regs[MOTOR_ACCEL], regs[MOTOR_DECEL],
                 regs[MOTOR_TIMEOUT], C.SOURCE_MODBUS, regs[MOTOR_MODE] == 1)
  }

  /** APPLY, from taking to releasing the register lock. */
  function Apply(env: Env, m: M7): (M7, int) {
    var s := Staged(m.regs);
    var (g, ret) := G.Submit(env.link, m.gateway, s);
    var regs: Registers :=
      if ret >= 0 then
        m.regs[COMMAND_STATUS := 0][COMMAND_SEQUENCE := U16((m.regs[COMMAND_SEQUENCE] as int) + 1)]
      else m.regs[COMMAND_STATUS := U16(ret)];
    (m.(regs := regs[MOTOR_APPLY := 0], gateway := g, attempts := m.attempts + [Attempt(s, ret)]),
     if ret >= 0 then 0 else ret)
  }

  /** A write to the configuration command register. Saving has an arbitrary result and may leave
      anything in the configuration registers 0..9. */
  function Configure(env: Env, m: M7, reg: word): (M7, int) {
    if reg != SAVE_COMMAND then
      (m.(regs := m.regs[COMMAND := 0][STATUS := U16(-EINVAL)]), -EINVAL)
    else
      var saved := env.save(m.saves);
      (m.(regs := saved.words + m.regs[10..], saves := m.saves + 1), saved.ret)
  }

  function Write(env: Env, m: M7, addr: word, reg: word): (M7, int) {
    if addr >= COUNT then (m, -ENOTSUP)
    else if IsReadOnly(addr) then (m, -EACCES)
    else if (IsInputMapping(addr) || IsOutputMapping(addr)) && !IsValidMapping(reg) then (m, -EINVAL)
    else if IsOutputMapping(addr) && !IsWritableMapping(reg) then (m, -EACCES)
    else if IsMotorCommand(addr) then
      if addr == MOTOR_MODE && reg > 1 then (m, -EINVAL)
      else if addr == MOTOR_APPLY then
        if reg != 1 then (m.(regs := m.regs[COMMAND_STATUS := U16(-EINVAL)]), -EINVAL)
        else Apply(env, m)
      else (m.(regs := m.regs[addr := reg]), 0)
    else if addr == COMMAND then Configure(env, m, reg)
    else (m.(regs := m.regs[addr := reg]), 0)
  }

  // ----- Start-up -----

  /** The power-up registers with the saved configuration. */
  function PowerUp(saved: TenWords): Registers {
    saved + [0, 0, 0, 800, 1000, 4000, 1000] + seq(43, _ => 0)
  }

  /** The default scanner mappings in place of whatever the tables held. */
  function WithDefaultTables(regs: Registers): Registers {
    var inputs := [24, 21, FREE, FREE, FREE];
    var outputs := [MOTOR_CONTROL as word, MOTOR_DUTY as word, MOTOR_APPLY as word, FREE, FREE];
    regs[..INPUT_MAP] + inputs + outputs + regs[OUTPUT_MAP + SLOTS..]
  }

  lemma DefaultTableAt(regs: Registers, k: nat)
    requires k < COUNT
    ensures WithDefaultTables(regs)[k] ==
            if k == INPUT_MAP then 24 else if k == INPUT_MAP + 1 then 21
            else if k == OUTPUT_MAP then MOTOR_CONTROL else if k == OUTPUT_MAP + 1 then MOTOR_DUTY
            else if k == OUTPUT_MAP + 2 then MOTOR_APPLY
            else if INPUT_MAP <= k < OUTPUT_MAP + SLOTS then FREE
            else regs[k]
  {
  }

  function Defaults(saved: TenWords): Registers {
    WithDefaultTables(PowerUp(saved))
  }

  function Startup(saved: TenWords): M7 {
    M7(Defaults(saved), G.POWER_UP, None, [], 0)
  }

  // ----- Everything that touches the registers, one lock section at a time -----

  datatype Op =
    | OpWrite(addr: word, reg: word)
    | OpRefresh
    | OpDisable
    | OpUpdate(activate: bool, control: word, duty: word)
    | OpResetFault
    | OpPause
    | OpBinding(online: bool)
    | OpReport(image: StateImage)
    | OpConfigChanged(words: TenWords)

  predicate ValidOp(op: Op) {
    op.OpUpdate? ==> C.COMMAND_DUTY_MIN <= op.duty <= C.COMMAND_DUTY_MAX
  }

  /** The link operation a register operation stands for. */
  function LinkOp(op: Op): G.Op {
    match op
    case OpUpdate(activate, control, duty) => G.OpUpdate(activate, control, duty)
    case OpDisable => G.OpDisable
    case OpRefresh => G.OpRefresh
    case OpResetFault => G.OpResetFault
    case OpBinding(online) => G.OpBinding(online)
    case _ => G.OpPause
  }

  function Do(env: Env, m: M7, op: Op): M7 {
    match op
    case OpWrite(addr, reg) => Write(env, m, addr, reg).0
    case OpRefresh =>
      var (g, ret) := G.Refresh(env.link, m.gateway);
      m.(gateway := g, regs := if ret >= 0 then m.regs[MOTOR_MODE := 1] else m.regs)
    case OpDisable =>
      var (g, ret) := G.Disable(env.link, m.gateway);
      m.(gateway := g, regs := if ret >= 0 then m.regs[MOTOR_MODE := 0] else m.regs)
    case OpReport(image) => m.(report := Some(image))
    case OpConfigChanged(words) => m.(regs := words + m.regs[10..])
    case _ => m.(gateway := G.Do(env.link, m.gateway, LinkOp(op)))
  }

  function DoAll(env: Env, m: M7, ops: seq<Op>): M7
    decreases |ops|
  {
    if |ops| == 0 then m else Do(env, DoAll(env, m, ops[..|ops| - 1]), Last(ops))
  }

  // ----- Invariant of every run -----

  function Successes(attempts: seq<Attempt>): nat
    decreases |attempts|
  {
    if |attempts| == 0 then 0
    else Successes(attempts[..|attempts| - 1]) + if Last(attempts).ret >= 0 then 1 else 0
  }

  /** What a client sees whenever the register lock is free. */
  ghost predicate Settled(m: M7) {
    && m.regs[MOTOR_APPLY] == 0
    && m.regs[COMMAND_STATUS] != PENDING
    && m.regs[MOTOR_MODE] <= 1
    && m.regs[COMMAND_SEQUENCE] == U16(Successes(m.attempts))
    && m.regs[RESERVED] == 0
  }

  /** Every mapping is FREE or a register, every Output mapping a writable one. */
  ghost predicate Mapped(regs: Registers) {
    && (forall k: word :: IsInputMapping(k) || IsOutputMapping(k) ==> IsValidMapping(regs[k]))
    && (forall k: word :: IsOutputMapping(k) ==> IsWritableMapping(regs[k]))
  }

  ghost predicate Sound(m: M7) {
    Settled(m) && Mapped(m.regs) && G.Healthy(m.gateway)
  }

  /** The link reports errors of at most 15 bits, as all defined error numbers are. */
  ghost predicate SmallErrors(env: Env) {
    forall i: nat :: -0x8000 <= env.link(i)
  }

  lemma SubmitError(env: Env, g: G.Gateway, s: G.Submission)
    requires SmallErrors(env)
    ensures -0x8000 <= G.Submit(env.link, g, s).1
  {
    if G.Submittable(s) && g.online {
      var stored := G.Stored(s.remote, s.remote, s.control, s.duty, s.accel, s.decel, s.timeout, s.source);
      var g1 := g.(stored := stored, counter := g.counter + 1);
      var frame := G.SentCommand(
        C.EncodeCommand(G.Compose(stored, s.remote, g1.counter), U32(g1.counter)), g1.counter);
      hide C.EncodeCommand, G.Attempts, G.Decides;
      G.SendDecides(env.link, g1, frame, 0);
    }
  }

  lemma SuccessesAppend(attempts: seq<Attempt>, a: Attempt)
    ensures Successes(attempts + [a]) == Successes(attempts) + if a.ret >= 0 then 1 else 0
  {
  }

  /** APPLY changes no register but 12, 17 and 18. */
  lemma ApplyFrame(env: Env, m: M7)
    ensures var r := Apply(env, m).0;
            && (forall k :: 0 <= k < COUNT && k !in {MOTOR_APPLY, COMMAND_STATUS, COMMAND_SEQUENCE} ==>
                  r.regs[k] == m.regs[k])
            && r.regs[MOTOR_APPLY] == 0
            && r.report == m.report
            && r.gateway == G.Submit(env.link, m.gateway, Staged(m.regs)).0
  {
  }

  lemma ApplySettles(env: Env, m: M7)
    requires Settled(m) && SmallErrors(env)
    ensures Settled(Apply(env, m).0)
  {
    hide G.Submit, Successes, Staged;
    var s := Staged(m.regs);
    var (g, ret) := G.Submit(env.link, m.gateway, s);
    SubmitError(env, m.gateway, s);
    SuccessesAppend(m.attempts, Attempt(s, ret));
    WrappingIncrement(Successes(m.attempts));
    ApplyFrame(env, m);
  }

  /** APPLY leaves the motor registers settled. */
  lemma ApplyKeeps(env: Env, m: M7)
    requires Sound(m) && SmallErrors(env)
    ensures Sound(Apply(env, m).0)
  {
    hide Apply, G.Submit, G.Healthy, Settled, IsWritableMapping, IsValidMapping;
    G.SubmitKeeps(env.link, m.gateway, Staged(m.regs));
    ApplySettles(env, m);
    ApplyFrame(env, m);
  }

  lemma WriteKeeps(env: Env, m: M7, addr: word, reg: word)
    requires Sound(m) && SmallErrors(env)
    ensures Sound(Write(env, m, addr, reg).0)
  {
    hide Apply, G.Healthy, Successes;
    if addr == MOTOR_APPLY {
      ApplyKeeps(env, m);
    }
  }

  lemma LinkKeeps(env: Env, m: M7, op: Op)
    requires Sound(m) && ValidOp(op)
    ensures G.Healthy(G.Do(env.link, m.gateway, LinkOp(op)))
  {
    G.DoKeeps(env.link, m.gateway, LinkOp(op));
  }

  lemma DoKeeps(env: Env, m: M7, op: Op)
    requires Sound(m) && ValidOp(op) && SmallErrors(env)
    ensures Sound(Do(env, m, op))
  {
    hide Write, G.Healthy, G.Refresh, G.Disable, Successes;
    LinkKeeps(env, m, op);
    if op.OpWrite? {
      WriteKeeps(env, m, op.addr, op.reg);
    }
  }

  /** Any run keeps a sound state sound. */
  lemma {:induction false} OpsKeepSound(env: Env, m: M7, ops: seq<Op>)
    requires SmallErrors(env) && Sound(m) && forall i :: 0 <= i < |ops| ==> ValidOp(ops[i])
    ensures Sound(DoAll(env, m, ops))
    decreases |ops|
  {
    if |ops| > 0 {
      hide Sound, Do;
      OpsKeepSound(env, m, ops[..|ops| - 1]);
      DoKeeps(env, DoAll(env, m, ops[..|ops| - 1]), Last(ops));
    }
  }

  /** For every interleaving of writers, refreshes, shell commands and configuration changes at
      lock granularity: whenever the lock is free APPLY reads 0, the command status is not pending,
      the mode is 0 or 1, the sequence counts the successful submissions, and every Output mapping
      is FREE or a writable register. */
  lemma RegistersSettle(env: Env, saved: TenWords, ops: seq<Op>)
    requires SmallErrors(env) && forall i :: 0 <= i < |ops| ==> ValidOp(ops[i])
    ensures Sound(DoAll(env, Startup(saved), ops))
  {
    assert Sound(Startup(saved));
    hide Sound, Startup;
    OpsKeepSound(env, Startup(saved), ops);
  }

  // ----- APPLY is an atomic snapshot -----

  lemma OnlyApplySubmits(env: Env, m: M7, op: Op)
    ensures var r := Do(env, m, op);
            if op == OpWrite(MOTOR_APPLY, 1) then
              |r.attempts| == |m.attempts| + 1 && r.attempts[..|m.attempts|] == m.attempts
              && Last(r.attempts).submission == Staged(m.regs)
            else r.attempts == m.attempts
  {
  }

  /** Each command ever submitted is the staged registers at the one instant its APPLY took effect,
      whatever other writers did before, between and after. */
  lemma {:induction false} SubmissionsAreSnapshots(env: Env, m: M7, ops: seq<Op>, k: nat)
    requires m.attempts == [] && k < |DoAll(env, m, ops).attempts|
    ensures exists j ::
              && 0 <= j < |ops| && ops[j] == OpWrite(MOTOR_APPLY, 1)
              && |DoAll(env, m, ops[..j]).attempts| == k
              && DoAll(env, m, ops).attempts[k].submission == Staged(DoAll(env, m, ops[..j]).regs)
    decreases |ops|
  {
    hide Do, Staged;
    var init, last := ops[..|ops| - 1], |ops| - 1;
    var before := DoAll(env, m, init);
    OnlyApplySubmits(env, before, Last(ops));
    assert DoAll(env, m, ops) == Do(env, before, Last(ops));
    hide DoAll;
    if k < |before.attempts| {
      SubmissionsAreSnapshots(env, m, init, k);
      var j :| && 0 <= j < |init| && init[j] == OpWrite(MOTOR_APPLY, 1)
               && |DoAll(env, m, init[..j]).attempts| == k
               && before.attempts[k].submission == Staged(DoAll(env, m, init[..j]).regs);
      assert init[..j] == ops[..j];
      assert DoAll(env, m, ops).attempts[k] == before.attempts[k];
    } else {
      assert ops[last] == OpWrite(MOTOR_APPLY, 1);
    }
  }

  // ----- Rights -----

  /** A write changes only what its own register allows: the read-only registers and the mapping
      tables move only under APPLY's bookkeeping or a permitted table write. */
  lemma WriteFrame(env: Env, m: M7, addr: word, reg: word)
    ensures var r := Write(env, m, addr, reg).0;
            && r.regs[RESERVED] == m.regs[RESERVED]
            && r.report == m.report
            && (forall k :: STATE_BASE <= k < COUNT && k != addr ==> r.regs[k] == m.regs[k])
            && (addr != MOTOR_APPLY ==> r.attempts == m.attempts && r.gateway == m.gateway
                                        && r.regs[COMMAND_SEQUENCE] == m.regs[COMMAND_SEQUENCE])
            && (addr >= COUNT || IsReadOnly(addr) ==> r == m)
  {
  }

  /** Rights are decided by address and value alone: a refused write answers -EACCES and changes
      nothing, and one that is not refused is answered for another reason unless it submits a command
      or saves the configuration. */
  lemma RefusalIsExact(env: Env, m: M7, addr: word, reg: word)
    ensures IsRefused(addr, reg) ==> Write(env, m, addr, reg) == (m, -EACCES)
    ensures Write(env, m, addr, reg).1 == -EACCES ==>
              || IsRefused(addr, reg)
              || (addr == MOTOR_APPLY && reg == 1)
              || (addr == COMMAND && reg == SAVE_COMMAND)
  {
  }
}
