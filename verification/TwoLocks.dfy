/** The register lock and the command lock, statement by statement: any number of threads store
    registers, apply the staged command, refresh it, return to local mode or give other commands over
    the link, interleaved freely with each other and with the link coming up and going down. Every
    such run is a run of RegisterModel at lock granularity. */
module TwoLocks {
  import opened Words
  import opened Errno
  import opened Options
  import opened R = RegisterModel
  import C = Contract
  import G = GatewayModel

  /** Where a thread stands. */
  datatype Pc =
    | Idle
    | Storing(addr: word, reg: word)    // waits for the register lock
    | StoreHeld(addr: word, reg: word)
    | StoreDone
    | Applying                          // waits for the register lock
    | ApplyHeld
    | ApplyReading(got: seq<word>)      // status pending; reads, then waits for the command lock
    | ApplyLinked(got: seq<word>)       // holds both locks
    | ApplySubmitted(ret: int)
    | ApplyStatus(ret: int)
    | ApplyCounted
    | ApplyCleared
    | Switching(remote: bool)           // refresh or return to local; waits for the command lock
    | SwitchHeld(remote: bool)
    | SwitchSent(remote: bool)          // waits for the register lock
    | SwitchModeHeld(remote: bool)
    | SwitchModeDone(remote: bool)
    | SwitchModeFreed(remote: bool)
    | Linking(op: Op)                   // waits for the command lock
    | LinkHeld(op: Op)
    | LinkOver

  datatype Fine = Fine(m: M7, regsOwner: Option<nat>, linkOwner: Option<nat>, pc: seq<Pc>)

  const READ_ORDER: seq<word> :=
    [MOTOR_CONTROL, MOTOR_DUTY, MOTOR_ACCEL, MOTOR_DECEL, MOTOR_TIMEOUT, MOTOR_MODE]

  /** The command assembled from the words read one by one. */
  function Assembled(got: seq<word>): G.Submission
    requires |got| == 6
  {
    G.Submission(got[0], got[1], got[2], got[3], got[4], C.SOURCE_MODBUS, got[5] == 1)
  }

  // ----- One statement of one thread -----

  /** A write that stores one word under the register lock. A wrong value written to APPLY stores an
      error in the command status. */
  predicate IsStore(addr: word, reg: word) {
    && addr < COUNT && !IsReadOnly(addr) && !IsRefused(addr, reg) && addr != COMMAND
    && (IsInputMapping(addr) || IsOutputMapping(addr) ==> IsValidMapping(reg))
    && (addr == MOTOR_MODE ==> reg <= 1)
    && (addr == MOTOR_APPLY ==> reg != 1)
  }

  function Stored(regs: Registers, addr: word, reg: word): Registers
    requires addr < COUNT
  {
    if addr == MOTOR_APPLY then regs[COMMAND_STATUS := U16(-EINVAL)] else regs[addr := reg]
  }

  predicate Waits(f: Fine, t: nat)
    requires t < |f.pc|
  {
    match f.pc[t]
    case Storing(_, _) => f.regsOwner.Some?
    case Applying => f.regsOwner.Some?
    case ApplyReading(got) => |got| == 6 && G.Submittable(Assembled(got)) && f.linkOwner.Some?
    case Switching(_) => f.linkOwner.Some?
    case SwitchSent(_) => f.regsOwner.Some?
    case Linking(_) => f.linkOwner.Some?
    case _ => false
  }

  /** An operation on the link that touches no register. */
  predicate IsLinkOnly(op: Op) {
    (op.OpUpdate? || op.OpResetFault? || op.OpPause?) && ValidOp(op)
  }

  predicate IsRequest(pc: Pc) {
    || pc.Applying? || pc.Switching? || (pc.Storing? && IsStore(pc.addr, pc.reg))
    || (pc.Linking? && IsLinkOnly(pc.op))
  }

  function Goto(f: Fine, t: nat, pc: Pc): Fine
    requires t < |f.pc|
  {
    f.(pc := f.pc[t := pc])
  }

  function WithRegs(f: Fine, regs: Registers): Fine {
    f.(m := f.m.(regs := regs))
  }

  function WithGateway(f: Fine, g: G.Gateway): Fine {
    f.(m := f.m.(gateway := g))
  }

  function StoreStatement(f: Fine, t: nat): Fine
    requires t < |f.pc|
  {
    match f.pc[t]
    case Storing(addr, reg) => Goto(f, t, StoreHeld(addr, reg)).(regsOwner := Some(t))
    case StoreHeld(addr, reg) =>
      if addr >= COUNT then f else WithRegs(Goto(f, t, StoreDone), Stored(f.m.regs, addr, reg))
    case StoreDone => Goto(f, t, Idle).(regsOwner := None)
    case _ => f
  }

  function ApplyStatement(env: Env, f: Fine, t: nat): Fine
    requires t < |f.pc|
  {
    match f.pc[t]
    case Applying => Goto(f, t, ApplyHeld).(regsOwner := Some(t))
    case ApplyHeld => WithRegs(Goto(f, t, ApplyReading([])), f.m.regs[COMMAND_STATUS := PENDING])
    case ApplyReading(got) =>
      if |got| < 6 then Goto(f, t, ApplyReading(got + [f.m.regs[READ_ORDER[|got|]]]))
      else if |got| > 6 then f
      else if G.Submittable(Assembled(got)) then Goto(f, t, ApplyLinked(got)).(linkOwner := Some(t))
      else Submit(env, f, t, got)
    case ApplyLinked(got) => if |got| != 6 then f else Submit(env, f, t, got).(linkOwner := None)
    case ApplySubmitted(ret) =>
      WithRegs(Goto(f, t, ApplyStatus(ret)),
               f.m.regs[COMMAND_STATUS := if ret >= 0 then 0 else U16(ret)])
    case ApplyStatus(ret) =>
      var count := U16((f.m.regs[COMMAND_SEQUENCE] as int) + if ret >= 0 then 1 else 0);
      WithRegs(Goto(f, t, ApplyCounted), f.m.regs[COMMAND_SEQUENCE := count])
    case ApplyCounted => WithRegs(Goto(f, t, ApplyCleared), f.m.regs[MOTOR_APPLY := 0])
    case ApplyCleared => Goto(f, t, Idle).(regsOwner := None)
    case _ => f
  }

  // A refresh repeats the stored command in remote mode; the return to local mode sends it as a local
  // one. Both then store the mode register while they hold the command lock.

  predicate Allowed(g: G.Gateway, remote: bool) {
    remote ==> g.stored.enabled
  }

  function Prepared(g: G.Gateway, remote: bool): G.Gateway {
    if remote then g.(armed := false)
    else g.(stored := g.stored.(timeout := G.SHELL_TIMEOUT, source := C.SOURCE_SHELL))
  }

  function Finished(g: G.Gateway, remote: bool): G.Gateway {
    if remote then g.(armed := true)
    else g.(stored := g.stored.(enabled := false, control := 0), armed := false)
  }

  function ModeOf(remote: bool): word {
    if remote then 1 else 0
  }

  function SwitchOp(remote: bool): Op {
    if remote then OpRefresh else OpDisable
  }

  function LinkStatement(env: Env, f: Fine, t: nat): Fine
    requires t < |f.pc|
  {
    match f.pc[t]
    case Switching(remote) => Goto(f, t, SwitchHeld(remote)).(linkOwner := Some(t))
    case SwitchHeld(remote) =>
      var g0 := Prepared(f.m.gateway, remote);
      if !Allowed(g0, remote) then WithGateway(Goto(f, t, LinkOver), g0)
      else
        var (g, ret) := G.Send(env.link, g0, remote);
        WithGateway(Goto(f, t, if ret >= 0 then SwitchSent(remote) else LinkOver), g)
    case SwitchSent(remote) => Goto(f, t, SwitchModeHeld(remote)).(regsOwner := Some(t))
    case SwitchModeHeld(remote) =>
      WithRegs(Goto(f, t, SwitchModeDone(remote)), f.m.regs[MOTOR_MODE := ModeOf(remote)])
    case SwitchModeDone(remote) => Goto(f, t, SwitchModeFreed(remote)).(regsOwner := None)
    case SwitchModeFreed(remote) => WithGateway(Goto(f, t, LinkOver), Finished(f.m.gateway, remote))
    case Linking(op) => Goto(f, t, LinkHeld(op)).(linkOwner := Some(t))
    case LinkHeld(op) =>
      if !IsLinkOnly(op) then f
      else WithGateway(Goto(f, t, LinkOver), G.Do(env.link, f.m.gateway, LinkOp(op)))
    case LinkOver => Goto(f, t, Idle).(linkOwner := None)
    case _ => f
  }

  predicate IsStoring(pc: Pc) {
    pc.Storing? || pc.StoreHeld? || pc.StoreDone?
  }

  predicate IsLinking(pc: Pc) {
    pc.Switching? || pc.SwitchHeld? || pc.SwitchSent? || pc.SwitchModeHeld? || pc.SwitchModeDone?
    || pc.SwitchModeFreed? || pc.Linking? || pc.LinkHeld? || pc.LinkOver?
  }

  /** Thread `t` executes its next statement; an idle thread takes up `want`. */
  function Step(env: Env, f: Fine, t: nat, want: Pc): Fine {
    if t >= |f.pc| || Waits(f, t) then f
    else if f.pc[t].Idle? then if IsRequest(want) then Goto(f, t, want) else f
    else if IsStoring(f.pc[t]) then StoreStatement(f, t)
    else if IsLinking(f.pc[t]) then LinkStatement(env, f, t)
    else ApplyStatement(env, f, t)
  }

  /** The transport reports the link up or down, at any moment and under no lock. */
  function Bind(f: Fine, online: bool): Fine {
    WithGateway(f, f.m.gateway.(online := online))
  }

  function Submit(env: Env, f: Fine, t: nat, got: seq<word>): Fine
    requires t < |f.pc| && |got| == 6
  {
    var s := Assembled(got);
    var (g, ret) := G.Submit(env.link, f.m.gateway, s);
    Goto(f, t, ApplySubmitted(ret)).(
      m := f.m.(gateway := g, attempts := f.m.attempts + [Attempt(s, ret)]))
  }

  // ----- The abstract run behind it -----

  /** The link state of a sent but unfinished refresh or return to local is settled with it. */
  predicate Defers(pc: Pc) {
    pc.SwitchSent? || pc.SwitchModeHeld?
  }

  /** The operations that take effect, as a whole, at this statement. */
  function Effect(env: Env, f: Fine, t: nat): seq<Op> {
    if t >= |f.pc| || Waits(f, t) then []
    else
      match f.pc[t]
      case StoreHeld(addr, reg) => [OpWrite(addr, reg)]
      case ApplyReading(got) =>
        if |got| == 6 && !G.Submittable(Assembled(got)) then [OpWrite(MOTOR_APPLY, 1)] else []
      case ApplyLinked(_) => [OpWrite(MOTOR_APPLY, 1)]
      case SwitchHeld(remote) =>
        var g0 := Prepared(f.m.gateway, remote);
        if !Allowed(g0, remote) || G.Send(env.link, g0, remote).1 < 0 then [SwitchOp(remote)] else []
      case SwitchModeHeld(remote) => [SwitchOp(remote), OpBinding(f.m.gateway.online)]
      case LinkHeld(op) => if IsLinkOnly(op) then [op] else []
      case _ => []
  }

  function BindEffect(f: Fine, online: bool): seq<Op> {
    match f.linkOwner
    case Some(t) => if t < |f.pc| && Defers(f.pc[t]) then [] else [OpBinding(online)]
    case None => [OpBinding(online)]
  }

  predicate HoldsRegs(pc: Pc) {
    pc.StoreHeld? || pc.StoreDone? || pc.ApplyHeld? || pc.ApplyReading? || pc.ApplyLinked?
    || pc.ApplySubmitted? || pc.ApplyStatus? || pc.ApplyCounted? || pc.ApplyCleared?
    || pc.SwitchModeHeld? || pc.SwitchModeDone?
  }

  predicate HoldsLink(pc: Pc) {
    pc.ApplyLinked? || pc.SwitchHeld? || pc.SwitchSent? || pc.SwitchModeHeld?
    || pc.SwitchModeDone? || pc.SwitchModeFreed? || pc.LinkHeld? || pc.LinkOver?
  }

  /** At most one thread holds each lock, and it is the recorded owner. */
  ghost predicate Exclusive(f: Fine) {
    && (forall t :: 0 <= t < |f.pc| ==> (HoldsRegs(f.pc[t]) <==> f.regsOwner == Some(t)))
    && (forall t :: 0 <= t < |f.pc| ==> (HoldsLink(f.pc[t]) <==> f.linkOwner == Some(t)))
    && (f.regsOwner.Some? ==> f.regsOwner.value < |f.pc|)
    && (f.linkOwner.Some? ==> f.linkOwner.value < |f.pc|)
  }

  /** The words read so far are the registers' words. */
  ghost predicate ReadSoFar(got: seq<word>, regs: Registers) {
    |got| <= 6 && forall i :: 0 <= i < |got| ==> got[i] == regs[READ_ORDER[i]]
  }

  /** How far the owner of the register lock has brought the registers towards `abs`. */
  ghost predicate RegsPart(pc: Pc, regs: Registers, abs: Registers) {
    match pc
    case StoreHeld(addr, reg) => regs == abs && IsStore(addr, reg)
    case ApplyReading(got) => regs == abs[COMMAND_STATUS := PENDING] && ReadSoFar(got, regs)
    case ApplyLinked(got) =>
      regs == abs[COMMAND_STATUS := PENDING] && ReadSoFar(got, regs) && |got| == 6
      && G.Submittable(Assembled(got))
    case ApplySubmitted(ret) =>
      && abs[COMMAND_STATUS] == (if ret >= 0 then 0 else U16(ret))
      && abs[COMMAND_SEQUENCE] == U16((regs[COMMAND_SEQUENCE] as int) + if ret >= 0 then 1 else 0)
      && abs == regs[COMMAND_STATUS := abs[COMMAND_STATUS]]
                    [COMMAND_SEQUENCE := abs[COMMAND_SEQUENCE]][MOTOR_APPLY := 0]
    case ApplyStatus(ret) =>
      && abs[COMMAND_SEQUENCE] == U16((regs[COMMAND_SEQUENCE] as int) + if ret >= 0 then 1 else 0)
      && abs == regs[COMMAND_SEQUENCE := abs[COMMAND_SEQUENCE]][MOTOR_APPLY := 0]
    case ApplyCounted => abs == regs[MOTOR_APPLY := 0]
    case _ => regs == abs
  }

  /** How far the owner of the command lock has brought the link towards `abs`. */
  ghost predicate LinkPart(env: Env, pc: Pc, g: G.Gateway, abs: G.Gateway) {
    match pc
    case SwitchSent(remote) => SentPart(env, remote, g, abs)
    case SwitchModeHeld(remote) => SentPart(env, remote, g, abs)
    case SwitchModeDone(remote) => abs == Finished(g, remote)
    case SwitchModeFreed(remote) => abs == Finished(g, remote)
    case _ => g == abs
  }

  /** The frame has been sent, and since then only the link may have come up or gone down. */
  ghost predicate SentPart(env: Env, remote: bool, g: G.Gateway, abs: G.Gateway) {
    && Allowed(abs, remote)
    && g == G.Send(env.link, Prepared(abs, remote), remote).0.(online := g.online)
    && G.Send(env.link, Prepared(abs, remote), remote).1 >= 0
  }

  ghost predicate Refines(env: Env, f: Fine, abs: M7) {
    && Exclusive(f)
    && f.m == abs.(regs := f.m.regs, gateway := f.m.gateway)
    && (if f.regsOwner.None? then f.m.regs == abs.regs
        else RegsPart(f.pc[f.regsOwner.value], f.m.regs, abs.regs))
    && (if f.linkOwner.None? then f.m.gateway == abs.gateway
        else LinkPart(env, f.pc[f.linkOwner.value], f.m.gateway, abs.gateway))
    && (forall t :: 0 <= t < |f.pc| && f.pc[t].Storing? ==> IsStore(f.pc[t].addr, f.pc[t].reg))
  }

  // ----- Each statement refines -----

  function After(env: Env, abs: M7, ops: seq<Op>): M7 {
    if |ops| == 0 then abs
    else if |ops| == 1 then Do(env, abs, ops[0])
    else Do(env, Do(env, abs, ops[0]), ops[1])
  }

  lemma ExclusiveAt(f: Fine, t: nat)
    requires Exclusive(f) && t < |f.pc|
    ensures HoldsRegs(f.pc[t]) <==> f.regsOwner == Some(t)
    ensures HoldsLink(f.pc[t]) <==> f.linkOwner == Some(t)
    ensures f.regsOwner.Some? ==> f.regsOwner.value < |f.pc|
    ensures f.linkOwner.Some? ==> f.linkOwner.value < |f.pc|
  {
  }

  /** A lock is only taken when free, and only released by its owner. */
  ghost predicate Handover(before: Option<nat>, after: Option<nat>, t: nat) {
    after == before || (before.None? && after == Some(t)) || (before == Some(t) && after.None?)
  }

  lemma HandoverKeeps(f: Fine, g: Fine, t: nat)
    requires Exclusive(f) && t < |f.pc| && |g.pc| == |f.pc| && g.pc == f.pc[t := g.pc[t]]
    requires Handover(f.regsOwner, g.regsOwner, t) && Handover(f.linkOwner, g.linkOwner, t)
    requires HoldsRegs(g.pc[t]) <==> g.regsOwner == Some(t)
    requires HoldsLink(g.pc[t]) <==> g.linkOwner == Some(t)
    ensures Exclusive(g)
  {
  }

  lemma ApplyExclusive(env: Env, f: Fine, t: nat)
    requires Exclusive(f) && t < |f.pc| && !Waits(f, t)
    ensures Exclusive(ApplyStatement(env, f, t))
  {
    hide Exclusive, G.Send, G.Submit, G.Submittable, Assembled;
    ExclusiveAt(f, t);
    HandoverKeeps(f, ApplyStatement(env, f, t), t);
  }

  lemma LinkExclusive(env: Env, f: Fine, t: nat)
    requires Exclusive(f) && t < |f.pc| && !Waits(f, t)
    ensures Exclusive(LinkStatement(env, f, t))
  {
    hide Exclusive, G.Send, G.Submittable, Assembled;
    ExclusiveAt(f, t);
    HandoverKeeps(f, LinkStatement(env, f, t), t);
  }

  lemma StepExclusive(env: Env, f: Fine, t: nat, want: Pc)
    requires Exclusive(f)
    ensures Exclusive(Step(env, f, t, want))
  {
    hide Exclusive, ApplyStatement, LinkStatement, G.Submittable, Assembled, Stored, IsStore;
    if t < |f.pc| && !Waits(f, t) {
      ExclusiveAt(f, t);
      if IsLinking(f.pc[t]) {
        LinkExclusive(env, f, t);
      } else if !f.pc[t].Idle? && !IsStoring(f.pc[t]) {
        ApplyExclusive(env, f, t);
      } else {
        HandoverKeeps(f, Step(env, f, t, want), t);
      }
    }
  }

  lemma StoreMatches(env: Env, m: M7, addr: word, reg: word)
    requires IsStore(addr, reg)
    ensures Do(env, m, OpWrite(addr, reg)) == m.(regs := Stored(m.regs, addr, reg))
  {
  }

  /** The words read under the lock are the staged command. */
  lemma AssembledIsStaged(got: seq<word>, regs: Registers, abs: Registers)
    requires |got| == 6 && ReadSoFar(got, regs) && regs == abs[COMMAND_STATUS := PENDING]
    ensures Assembled(got) == Staged(abs)
  {
  }

  lemma SubmitRefines(env: Env, f: Fine, t: nat, got: seq<word>, abs: M7)
    requires t < |f.pc| && |got| == 6 && ReadSoFar(got, f.m.regs)
    requires f.m.regs == abs.regs[COMMAND_STATUS := PENDING]
    requires f.m.gateway == abs.gateway || !G.Submittable(Assembled(got))
    requires f.m == abs.(regs := f.m.regs, gateway := f.m.gateway)
    ensures var r := Submit(env, f, t, got);
            var a := Do(env, abs, OpWrite(MOTOR_APPLY, 1));
            && r.pc == f.pc[t := ApplySubmitted(G.Submit(env.link, f.m.gateway, Assembled(got)).1)]
            && r.m == a.(regs := f.m.regs, gateway := r.m.gateway)
            && RegsPart(r.pc[t], r.m.regs, a.regs)
            && (f.m.gateway == abs.gateway ==> r.m.gateway == a.gateway)
            && (!G.Submittable(Assembled(got)) ==>
                  r.m.gateway == f.m.gateway && a.gateway == abs.gateway)
  {
    AssembledIsStaged(got, f.m.regs, abs.regs);
    hide Assembled, ReadSoFar, Staged, G.Send, G.Submittable;
  }

  lemma StoreStep(env: Env, f: Fine, t: nat, want: Pc, abs: M7)
    requires Refines(env, f, abs) && t < |f.pc|
    requires f.pc[t].Idle? || IsStoring(f.pc[t])
    ensures Refines(env, Step(env, f, t, want), After(env, abs, Effect(env, f, t)))
  {
    StepExclusive(env, f, t, want);
    if f.pc[t].StoreHeld? {
      StoreMatches(env, abs, f.pc[t].addr, f.pc[t].reg);
    }
    ExclusiveAt(f, t);
    hide ApplyStatement, LinkStatement, G.Send, Stored, Exclusive, IsStore, Do;
  }

  /** The next statement is the submission itself. */
  predicate Submits(f: Fine, t: nat)
    requires t < |f.pc|
  {
    f.pc[t].ApplyLinked?
    || (f.pc[t].ApplyReading? && |f.pc[t].got| == 6 && !G.Submittable(Assembled(f.pc[t].got)))
  }

  lemma ApplyStep(env: Env, f: Fine, t: nat, want: Pc, abs: M7)
    requires Refines(env, f, abs) && t < |f.pc| && !Submits(f, t)
    requires f.pc[t].Applying? || f.pc[t].ApplyHeld? || f.pc[t].ApplyReading?
    ensures Refines(env, Step(env, f, t, want), After(env, abs, Effect(env, f, t)))
  {
    StepExclusive(env, f, t, want);
    ExclusiveAt(f, t);
    hide G.Send, G.Submittable, Exclusive, IsStore, Do, Submit, Assembled, LinkStatement;
  }

  lemma SubmitStep(env: Env, f: Fine, t: nat, want: Pc, abs: M7)
    requires Refines(env, f, abs) && t < |f.pc| && Submits(f, t)
    ensures Refines(env, Step(env, f, t, want), After(env, abs, Effect(env, f, t)))
  {
    StepExclusive(env, f, t, want);
    ExclusiveAt(f, t);
    hide G.Send, G.Submit, G.Submittable, Exclusive, IsStore, Do, Submit, Assembled, LinkStatement;
    SubmitRefines(env, f, t, f.pc[t].got, abs);
  }

  lemma AppliedStep(env: Env, f: Fine, t: nat, want: Pc, abs: M7)
    requires Refines(env, f, abs) && t < |f.pc|
    requires f.pc[t].ApplySubmitted? || f.pc[t].ApplyStatus? || f.pc[t].ApplyCounted?
             || f.pc[t].ApplyCleared?
    ensures Refines(env, Step(env, f, t, want), After(env, abs, Effect(env, f, t)))
  {
    StepExclusive(env, f, t, want);
    ExclusiveAt(f, t);
    hide G.Send, Exclusive, IsStore, U16, LinkStatement;
  }

  /** A refresh or return to local, as one operation. */
  lemma SwitchMatches(env: Env, m: M7, remote: bool)
    ensures var g0 := Prepared(m.gateway, remote);
            var (g, ret) := G.Send(env.link, g0, remote);
            Do(env, m, SwitchOp(remote)) ==
            if !Allowed(m.gateway, remote) then m.(gateway := g0)
            else if ret < 0 then m.(gateway := g)
            else m.(gateway := Finished(g, remote), regs := m.regs[MOTOR_MODE := ModeOf(remote)])
  {
    hide G.Send;
  }

  /** Sending does not look at what a later binding changes, and keeps the link state. */
  lemma SwitchThenBind(env: Env, m: M7, remote: bool, g: G.Gateway)
    requires SentPart(env, remote, g, m.gateway)
    ensures After(env, m, [SwitchOp(remote), OpBinding(g.online)])
            == m.(gateway := Finished(g, remote), regs := m.regs[MOTOR_MODE := ModeOf(remote)])
  {
    SwitchMatches(env, m, remote);
    hide G.Send;
  }

  lemma SwitchSendStep(env: Env, f: Fine, t: nat, want: Pc, abs: M7)
    requires Refines(env, f, abs) && t < |f.pc| && f.pc[t].SwitchHeld?
    ensures Refines(env, Step(env, f, t, want), After(env, abs, Effect(env, f, t)))
  {
    StepExclusive(env, f, t, want);
    ExclusiveAt(f, t);
    SwitchMatches(env, abs, f.pc[t].remote);
    hide G.Send, Exclusive, IsStore, ApplyStatement, StoreStatement, Do, SwitchOp, Prepared, Finished;
    hide ReadSoFar, G.Submittable, Assembled, IsLinkOnly;
  }

  lemma SwitchModeStep(env: Env, f: Fine, t: nat, want: Pc, abs: M7)
    requires Refines(env, f, abs) && t < |f.pc| && f.pc[t].SwitchModeHeld?
    ensures Refines(env, Step(env, f, t, want), After(env, abs, Effect(env, f, t)))
  {
    StepExclusive(env, f, t, want);
    ExclusiveAt(f, t);
    SwitchThenBind(env, abs, f.pc[t].remote, f.m.gateway);
    hide G.Send, Exclusive, IsStore, ApplyStatement, StoreStatement, After, SwitchOp, Prepared, Finished;
    hide SentPart, ReadSoFar, G.Submittable, Assembled, IsLinkOnly;
  }

  lemma LinkHeldStep(env: Env, f: Fine, t: nat, want: Pc, abs: M7)
    requires Refines(env, f, abs) && t < |f.pc| && f.pc[t].LinkHeld?
    ensures Refines(env, Step(env, f, t, want), After(env, abs, Effect(env, f, t)))
  {
    StepExclusive(env, f, t, want);
    ExclusiveAt(f, t);
    hide G.Do, G.Send, Exclusive, IsStore, ApplyStatement, StoreStatement;
  }

  lemma LinkLockStep(env: Env, f: Fine, t: nat, want: Pc, abs: M7)
    requires Refines(env, f, abs) && t < |f.pc|
    requires f.pc[t].Switching? || f.pc[t].SwitchSent? || f.pc[t].SwitchModeDone? || f.pc[t].Linking?
    ensures Refines(env, Step(env, f, t, want), After(env, abs, Effect(env, f, t)))
  {
    StepExclusive(env, f, t, want);
    ExclusiveAt(f, t);
    hide G.Send, Exclusive, IsStore, Do, ApplyStatement, StoreStatement, Finished, SentPart;
  }

  lemma LinkEndStep(env: Env, f: Fine, t: nat, want: Pc, abs: M7)
    requires Refines(env, f, abs) && t < |f.pc|
    requires f.pc[t].SwitchModeFreed? || f.pc[t].LinkOver?
    ensures Refines(env, Step(env, f, t, want), After(env, abs, Effect(env, f, t)))
  {
    StepExclusive(env, f, t, want);
    ExclusiveAt(f, t);
    hide G.Send, Exclusive, IsStore, Do, ApplyStatement, StoreStatement;
  }

  lemma NoSuchThread(env: Env, f: Fine, t: nat, want: Pc)
    requires t >= |f.pc|
    ensures Step(env, f, t, want) == f && Effect(env, f, t) == []
  {
  }

  lemma StepRefines(env: Env, f: Fine, t: nat, want: Pc, abs: M7)
    requires Refines(env, f, abs)
    ensures Refines(env, Step(env, f, t, want), After(env, abs, Effect(env, f, t)))
  {
    hide Refines, Step, Effect, Do;
    if t < |f.pc| {
      var pc := f.pc[t];
      if pc.Idle? || IsStoring(pc) {
        StoreStep(env, f, t, want, abs);
      } else if pc.SwitchHeld? {
        SwitchSendStep(env, f, t, want, abs);
      } else if pc.SwitchModeHeld? {
        SwitchModeStep(env, f, t, want, abs);
      } else if pc.LinkHeld? {
        LinkHeldStep(env, f, t, want, abs);
      } else if Submits(f, t) {
        SubmitStep(env, f, t, want, abs);
      } else if pc.Applying? || pc.ApplyHeld? || pc.ApplyReading? {
        ApplyStep(env, f, t, want, abs);
      } else if pc.ApplySubmitted? || pc.ApplyStatus? || pc.ApplyCounted? || pc.ApplyCleared? {
        AppliedStep(env, f, t, want, abs);
      } else if pc.SwitchModeFreed? || pc.LinkOver? {
        LinkEndStep(env, f, t, want, abs);
      } else {
        LinkLockStep(env, f, t, want, abs);
      }
    } else {
      NoSuchThread(env, f, t, want);
    }
  }

  lemma BindRefines(env: Env, f: Fine, online: bool, abs: M7)
    requires Refines(env, f, abs)
    ensures Refines(env, Bind(f, online), After(env, abs, BindEffect(f, online)))
  {
    hide G.Send, IsStore, RegsPart;
  }

  // ----- Whole runs -----

  /** Which thread runs next and what it takes up if idle, or a change of the link. */
  datatype Choice = Choice(t: nat, want: Pc) | LinkChange(online: bool)

  function Start(m: M7, threads: nat): Fine {
    Fine(m, None, None, seq(threads, _ => Idle))
  }

  function Next(env: Env, f: Fine, c: Choice): Fine {
    match c
    case Choice(t, want) => Step(env, f, t, want)
    case LinkChange(online) => Bind(f, online)
  }

  function NextEffect(env: Env, f: Fine, c: Choice): seq<Op> {
    match c
    case Choice(t, _) => Effect(env, f, t)
    case LinkChange(online) => BindEffect(f, online)
  }

  function Run(env: Env, f: Fine, cs: seq<Choice>): Fine
    decreases |cs|
  {
    if |cs| == 0 then f else Next(env, Run(env, f, cs[..|cs| - 1]), Last(cs))
  }

  /** The operations of a run, in the order they take effect. */
  function Effects(env: Env, f: Fine, cs: seq<Choice>): seq<Op>
    decreases |cs|
  {
    if |cs| == 0 then []
    else Effects(env, f, cs[..|cs| - 1]) + NextEffect(env, Run(env, f, cs[..|cs| - 1]), Last(cs))
  }

  lemma DoAllAppend(env: Env, m: M7, ops: seq<Op>, more: seq<Op>)
    requires |more| <= 2
    ensures DoAll(env, m, ops + more) == After(env, DoAll(env, m, ops), more)
  {
    hide Do;
    if |more| == 0 {
      assert ops + more == ops;
    } else {
      assert (ops + more)[..|ops| + |more| - 1] == ops + more[..|more| - 1];
      DoAllAppend(env, m, ops, more[..|more| - 1]);
    }
  }

  lemma EffectIsShort(env: Env, f: Fine, c: Choice)
    ensures |NextEffect(env, f, c)| <= 2
    ensures forall op :: op in NextEffect(env, f, c) ==> ValidOp(op)
  {
  }

  lemma NextRefines(env: Env, f: Fine, c: Choice, abs: M7)
    requires Refines(env, f, abs)
    ensures Refines(env, Next(env, f, c), After(env, abs, NextEffect(env, f, c)))
  {
    hide Refines, Step, Effect, Bind, BindEffect, Do;
    match c
    case Choice(t, want) => StepRefines(env, f, t, want, abs);
    case LinkChange(online) => BindRefines(env, f, online, abs);
  }

  /** Every statement-level run, whatever the scheduling, is the run of the operations it performs,
      each as one indivisible step. */
  lemma {:induction false} RunRefines(env: Env, m: M7, threads: nat, cs: seq<Choice>)
    ensures var f := Start(m, threads);
            Refines(env, Run(env, f, cs), DoAll(env, m, Effects(env, f, cs)))
    decreases |cs|
  {
    hide Next, NextEffect, Do;
    if |cs| > 0 {
      var f := Start(m, threads);
      var init := cs[..|cs| - 1];
      RunRefines(env, m, threads, init);
      hide Refines;
      var before := Run(env, f, init);
      NextRefines(env, before, Last(cs), DoAll(env, m, Effects(env, f, init)));
      EffectIsShort(env, before, Last(cs));
      DoAllAppend(env, m, Effects(env, f, init), NextEffect(env, before, Last(cs)));
    }
  }

  lemma {:induction false} EffectsAreValid(env: Env, f: Fine, cs: seq<Choice>)
    ensures forall i :: 0 <= i < |Effects(env, f, cs)| ==> ValidOp(Effects(env, f, cs)[i])
    decreases |cs|
  {
    hide NextEffect;
    if |cs| > 0 {
      EffectsAreValid(env, f, cs[..|cs| - 1]);
      EffectIsShort(env, Run(env, f, cs[..|cs| - 1]), Last(cs));
    }
  }

  /** From any sound state, whenever no thread holds the register lock: APPLY is 0, the status is not
      pending, the mode is 0 or 1, the sequence counts the successful submissions and the mapping
      tables are permitted. */
  lemma FreeLockIsSettled(env: Env, m: M7, threads: nat, cs: seq<Choice>)
    requires SmallErrors(env) && R.Sound(m)
    requires Run(env, Start(m, threads), cs).regsOwner.None?
    ensures var r := Run(env, Start(m, threads), cs).m;
            Settled(r) && Mapped(r.regs)
  {
    var f := Start(m, threads);
    RunRefines(env, m, threads, cs);
    EffectsAreValid(env, f, cs);
    OpsKeepSound(env, m, Effects(env, f, cs));
    hide Next, Mapped, Exclusive, G.Healthy, LinkPart, Effects, DoAll;
  }

  lemma OnlySubmitsRecord(env: Env, f: Fine, t: nat, want: Pc)
    requires t >= |f.pc| || Waits(f, t) || !Submits(f, t)
    ensures Step(env, f, t, want).m.attempts == f.m.attempts
  {
    hide G.Do, G.Send, G.Submit, G.Submittable, Assembled;
  }

  /** A statement records nothing, or a command that is staged at that instant. */
  lemma NextRecords(env: Env, f: Fine, c: Choice, abs: M7)
    requires Refines(env, f, abs)
    ensures var r := Next(env, f, c);
            || r.m.attempts == f.m.attempts
            || (|r.m.attempts| == |f.m.attempts| + 1 && r.m.attempts[..|f.m.attempts|] == f.m.attempts
                && Last(r.m.attempts).submission == Staged(f.m.regs))
  {
    if c.Choice? {
      var t := c.t;
      if t < |f.pc| && !Waits(f, t) && Submits(f, t) {
        ExclusiveAt(f, t);
        hide G.Submit, G.Send, G.Submittable, Assembled, Exclusive, LinkStatement, StoreStatement, LinkPart;
        AssembledIsStaged(f.pc[t].got, f.m.regs, abs.regs);
        assert Staged(abs.regs) == Staged(f.m.regs);
      } else {
        hide Step;
        OnlySubmitsRecord(env, f, t, c.want);
      }
    }
  }

  lemma RunRecords(env: Env, m: M7, threads: nat, cs: seq<Choice>)
    requires |cs| > 0
    ensures var before := Run(env, Start(m, threads), cs[..|cs| - 1]).m;
            var after := Run(env, Start(m, threads), cs).m;
            || after.attempts == before.attempts
            || (|after.attempts| == |before.attempts| + 1
                && after.attempts[..|before.attempts|] == before.attempts
                && Last(after.attempts).submission == Staged(before.regs))
  {
    hide Next, Staged, Refines, DoAll, Effects;
    var init := cs[..|cs| - 1];
    RunRefines(env, m, threads, init);
    NextRecords(env, Run(env, Start(m, threads), init), Last(cs),
                DoAll(env, m, Effects(env, Start(m, threads), init)));
  }

  /** APPLY is an atomic snapshot although it reads six registers one after the other: every command
      ever submitted is what the six registers held together at one instant of the run. */
  lemma {:induction false} SubmissionIsOneInstant(env: Env, m: M7, threads: nat, cs: seq<Choice>, k: nat)
    requires m.attempts == [] && k < |Run(env, Start(m, threads), cs).m.attempts|
    ensures exists j ::
              && 0 <= j < |cs|
              && |Run(env, Start(m, threads), cs[..j]).m.attempts| == k
              && Run(env, Start(m, threads), cs).m.attempts[k].submission
                 == Staged(Run(env, Start(m, threads), cs[..j]).m.regs)
    decreases |cs|
  {
    hide Next, Staged;
    var f := Start(m, threads);
    assert |cs| > 0;
    RunRecords(env, m, threads, cs);
    hide Run;
    var init := cs[..|cs| - 1];
    var before := Run(env, f, init);
    if k < |before.m.attempts| {
      SubmissionIsOneInstant(env, m, threads, init, k);
      var j :| && 0 <= j < |init| && |Run(env, f, init[..j]).m.attempts| == k
               && before.m.attempts[k].submission == Staged(Run(env, f, init[..j]).m.regs);
      assert init[..j] == cs[..j];
    } else {
      assert cs[..|init|] == init;
    }
  }

  // ----- The two locks are taken in both orders -----

  /** An APPLY waits for the command lock held by a refresh (`remote`) or a return to local mode, which
      waits for the register lock. */
  ghost predicate DeadlockedBy(f: Fine, t: nat, u: nat, remote: bool) {
    && t < |f.pc| && u < |f.pc|
    && f.pc[t].ApplyReading? && Waits(f, t) && f.linkOwner == Some(u)
    && f.pc[u] == SwitchSent(remote) && Waits(f, u) && f.regsOwner == Some(t)
  }

  ghost predicate Deadlocked(f: Fine) {
    exists t, u, remote :: DeadlockedBy(f, t, u, remote)
  }

  /** A thread has begun something and its next statement can run. */
  ghost predicate CanMove(f: Fine, t: nat) {
    t < |f.pc| && !f.pc[t].Idle? && !Waits(f, t)
  }

  ghost predicate Unfinished(f: Fine, t: nat) {
    t < |f.pc| && !f.pc[t].Idle?
  }

  /** In every reachable state with unfinished work some thread can continue, except exactly when an
      APPLY and either a refresh or a return to local mode hold one lock each and wait for the
      other's. */
  lemma OnlyDeadlock(env: Env, m: M7, threads: nat, cs: seq<Choice>)
    ensures var f := Run(env, Start(m, threads), cs);
            Deadlocked(f) <==> (exists t :: Unfinished(f, t)) && forall t :: !CanMove(f, t)
  {
    var f := Run(env, Start(m, threads), cs);
    RunRefines(env, m, threads, cs);
    hide Run, RegsPart, LinkPart, G.Submittable, Assembled, IsStore, DoAll, Effects;
    if Deadlocked(f) {
      var t, u, remote :| DeadlockedBy(f, t, u, remote);
      assert Unfinished(f, t);
      PairBlocksAll(f, t, u, remote);
    } else if exists t :: Unfinished(f, t) {
      var t :| Unfinished(f, t);
      SomeoneMoves(f, t);
    }
  }

  lemma PairBlocksAll(f: Fine, t: nat, u: nat, remote: bool)
    requires Exclusive(f) && DeadlockedBy(f, t, u, remote)
    ensures forall v :: !CanMove(f, v)
  {
  }

  lemma SomeoneMoves(f: Fine, t: nat)
    requires Exclusive(f) && Unfinished(f, t) && !Deadlocked(f)
    ensures exists v :: CanMove(f, v)
  {
    hide G.Submittable, Assembled, Exclusive, Deadlocked;
    ExclusiveAt(f, t);
    if !CanMove(f, t) {
      if f.regsOwner.Some? && !CanMove(f, f.regsOwner.value) {
        OwnersMove(f, f.regsOwner.value);
      } else if f.regsOwner.None? && f.linkOwner.Some? {
        ExclusiveAt(f, f.linkOwner.value);
        assert CanMove(f, f.linkOwner.value);
      }
    }
  }

  /** The owner of the register lock only ever waits for the command lock, whose owner can move
      unless it waits for the register lock. */
  lemma OwnersMove(f: Fine, t: nat)
    requires Exclusive(f) && t < |f.pc|
    requires f.regsOwner == Some(t) && !CanMove(f, t)
    ensures Deadlocked(f) || (f.linkOwner.Some? && CanMove(f, f.linkOwner.value))
  {
    ExclusiveAt(f, t);
    hide G.Submittable, Assembled, Exclusive;
    var u := f.linkOwner.value;
    ExclusiveAt(f, u);
    if !CanMove(f, u) {
      assert DeadlockedBy(f, t, u, f.pc[u].remote);
    }
  }

  // ----- That deadlock is reachable from start-up -----

  lemma RunAppend(env: Env, f: Fine, cs: seq<Choice>, c: Choice)
    ensures Run(env, f, cs + [c]) == Next(env, Run(env, f, cs), c)
  {
    assert (cs + [c])[..|cs|] == cs;
  }

  /** Nothing is under way, and a command with this mode could be submitted. */
  ghost predicate Ready(f: Fine, enabled: bool, mode: word) {
    && f.pc == [Idle, Idle] && f.regsOwner.None? && f.linkOwner.None?
    && f.m.gateway.online && f.m.gateway.stored.enabled == enabled
    && f.m.regs[MOTOR_MODE] == mode && G.Submittable(Staged(f.m.regs))
  }

  lemma StartupIsReady(env: Env, saved: TenWords) returns (cs: seq<Choice>)
    ensures Ready(Run(env, Start(Startup(saved), 2), cs), false, 0)
  {
    var f := Start(Startup(saved), 2);
    var c := LinkChange(true);
    RunAppend(env, f, [], c);
    cs := [] + [c];
    assert Run(env, f, []) == f;
    StartupSubmittable(saved);
    hide Startup, G.Submittable, Staged;
    assert f.pc == [Idle, Idle];
  }

  lemma StartupSubmittable(saved: TenWords)
    ensures var m := Startup(saved);
            && G.Submittable(Staged(m.regs)) && m.regs[MOTOR_MODE] == 0
            && !m.gateway.stored.enabled
  {
  }

  /** One client writes remote mode. */
  lemma StoreRuns(env: Env, f0: Fine, before: seq<Choice>) returns (cs: seq<Choice>)
    requires Ready(Run(env, f0, before), false, 0)
    ensures Ready(Run(env, f0, cs), false, 1)
  {
    hide Run, G.Send, G.Submit, G.Do, ApplyStatement, LinkStatement;
    var c := Choice(0, Storing(MOTOR_MODE, 1));
    var f := Run(env, f0, before);
    cs := before;
    for i := 0 to 4
      invariant Run(env, f0, cs) ==
                if i == 0 then f
                else if i == 1 then f.(pc := [Storing(MOTOR_MODE, 1), Idle])
                else if i == 2 then f.(pc := [StoreHeld(MOTOR_MODE, 1), Idle], regsOwner := Some(0))
                else
                  WithRegs(f.(pc := [if i == 3 then StoreDone else Idle, Idle],
                              regsOwner := if i == 3 then Some(0) else None),
                           f.m.regs[MOTOR_MODE := 1])
    {
      RunAppend(env, f0, cs, c);
      cs := cs + [c];
    }
  }

  /** An APPLY up to where it needs the command lock, whatever the other thread holds of it. */
  lemma ApplyReads(env: Env, f0: Fine, before: seq<Choice>) returns (cs: seq<Choice>)
    requires var f := Run(env, f0, before);
             |f.pc| == 2 && f.pc[0].Idle? && f.regsOwner.None?
    ensures var f, r := Run(env, f0, before), Run(env, f0, cs);
            && |r.pc| == 2 && r.pc[0].ApplyReading? && |r.pc[0].got| == 6 && r.pc[1] == f.pc[1]
            && r.regsOwner == Some(0) && r.linkOwner == f.linkOwner && r.m.gateway == f.m.gateway
            && r.m.regs == f.m.regs[COMMAND_STATUS := PENDING]
            && ReadSoFar(r.pc[0].got, r.m.regs)
  {
    hide G.Send, G.Submit, G.Submittable, Assembled, LinkStatement, StoreStatement, Run;
    var a := Choice(0, Applying);
    RunAppend(env, f0, before, a);
    cs := before + [a];
    RunAppend(env, f0, cs, a);
    cs := cs + [a];
    RunAppend(env, f0, cs, a);
    cs := cs + [a];
    var f := Run(env, f0, before);
    for i := 0 to 6
      invariant var r := Run(env, f0, cs);
                && |r.pc| == 2 && r.pc[0].ApplyReading? && |r.pc[0].got| == i && r.pc[1] == f.pc[1]
                && r.regsOwner == Some(0) && r.linkOwner == f.linkOwner && r.m.gateway == f.m.gateway
                && r.m.regs == f.m.regs[COMMAND_STATUS := PENDING]
                && ReadSoFar(r.pc[0].got, r.m.regs)
    {
      RunAppend(env, f0, cs, a);
      cs := cs + [a];
    }
  }

  /** Stages the same command. */
  ghost predicate SameStaged(regs: Registers, regs': Registers) {
    Staged(regs) == Staged(regs') && regs[MOTOR_MODE] == regs'[MOTOR_MODE]
  }

  /** The rest of an APPLY, undisturbed, over a working link: the submission ... */
  lemma ApplySubmits(env: Env, f0: Fine, before: seq<Choice>) returns (cs: seq<Choice>)
    requires forall i: nat :: env.link(i) >= 0
    requires var f := Run(env, f0, before);
             && |f.pc| == 2 && f.pc[0].ApplyReading? && f.pc[1].Idle? && |f.pc[0].got| == 6
             && f.regsOwner == Some(0) && f.linkOwner.None? && f.m.gateway.online
             && G.Submittable(Assembled(f.pc[0].got))
    ensures var f, r := Run(env, f0, before), Run(env, f0, cs);
            && |r.pc| == 2 && r.pc[0].ApplySubmitted? && r.pc[1].Idle?
            && r.regsOwner == Some(0) && r.linkOwner.None? && r.m.regs == f.m.regs
            && r.m.gateway.online && r.m.gateway.stored.enabled == Assembled(f.pc[0].got).remote
            && |r.m.attempts| > 0 && Last(r.m.attempts).ret >= 0
  {
    var f := Run(env, f0, before);
    var got := f.pc[0].got;
    SubmitSucceeds(env, f.m.gateway, Assembled(got));
    hide G.Submit, G.Submittable, Assembled, LinkStatement, StoreStatement, Run;
    var a := Choice(0, Applying);
    RunAppend(env, f0, before, a);
    cs := before + [a];
    assert Run(env, f0, cs) == f.(pc := [ApplyLinked(got), Idle], linkOwner := Some(0));
    RunAppend(env, f0, cs, a);
    cs := cs + [a];
  }

  lemma BookkeepingStep(env: Env, f: Fine)
    requires |f.pc| == 2 && f.pc[1].Idle? && f.regsOwner == Some(0) && f.linkOwner.None?
    requires f.pc[0].ApplySubmitted? || f.pc[0].ApplyStatus? || f.pc[0].ApplyCounted? || f.pc[0].ApplyCleared?
    ensures var r := Step(env, f, 0, Applying);
            && |r.pc| == 2 && r.pc[1].Idle? && r.linkOwner.None?
            && r.regsOwner == (if r.pc[0].Idle? then None else Some(0))
            && (f.pc[0].ApplySubmitted? ==> r.pc[0].ApplyStatus?)
            && (f.pc[0].ApplyStatus? ==> r.pc[0].ApplyCounted?)
            && (f.pc[0].ApplyCounted? ==> r.pc[0].ApplyCleared?)
            && (f.pc[0].ApplyCleared? ==> r.pc[0].Idle?)
            && r.m == f.m.(regs := r.m.regs) && SameStaged(r.m.regs, f.m.regs)
  {
    hide U16, LinkStatement, StoreStatement, Submit, SameStaged;
    SameStagedBookkeeping(f.m.regs, Step(env, f, 0, Applying).m.regs);
  }

  /** ... and the bookkeeping. */
  lemma ApplyEnds(env: Env, f0: Fine, before: seq<Choice>) returns (cs: seq<Choice>)
    requires var f := Run(env, f0, before);
             && |f.pc| == 2 && f.pc[0].ApplySubmitted? && f.pc[1].Idle?
             && f.regsOwner == Some(0) && f.linkOwner.None?
    ensures var f, r := Run(env, f0, before), Run(env, f0, cs);
            && r.pc == [Idle, Idle] && r.regsOwner.None? && r.linkOwner.None?
            && r.m.gateway == f.m.gateway && r.m.attempts == f.m.attempts
            && SameStaged(r.m.regs, f.m.regs)
  {
    hide Run, Step, Staged;
    var a := Choice(0, Applying);
    cs := before;
    for i := 0 to 4
      invariant var f, r := Run(env, f0, before), Run(env, f0, cs);
                && |r.pc| == 2 && r.pc[1].Idle? && r.linkOwner.None?
                && r.regsOwner == (if i < 4 then Some(0) else None)
                && (i == 0 ==> r.pc[0].ApplySubmitted?) && (i == 1 ==> r.pc[0].ApplyStatus?)
                && (i == 2 ==> r.pc[0].ApplyCounted?) && (i == 3 ==> r.pc[0].ApplyCleared?)
                && (i == 4 ==> r.pc[0].Idle?)
                && r.m == f.m.(regs := r.m.regs) && SameStaged(r.m.regs, f.m.regs)
    {
      BookkeepingStep(env, Run(env, f0, cs));
      RunAppend(env, f0, cs, a);
      cs := cs + [a];
    }
  }

  /** The registers APPLY writes stage nothing. */
  lemma SameStagedBookkeeping(regs: Registers, more: Registers)
    requires forall k :: 0 <= k < COUNT && k !in {MOTOR_APPLY, COMMAND_STATUS, COMMAND_SEQUENCE} ==>
               more[k] == regs[k]
    ensures SameStaged(more, regs)
  {
  }

  lemma SubmitSucceeds(env: Env, g: G.Gateway, s: G.Submission)
    requires G.Submittable(s) && g.online && forall i: nat :: env.link(i) >= 0
    ensures var (r, ret) := G.Submit(env.link, g, s);
            ret >= 0 && r.online && r.stored.enabled == s.remote
  {
    hide C.EncodeCommand;
  }

  /** A refresh or return to local up to where it needs the register lock. */
  lemma SwitchHolds(env: Env, f0: Fine, before: seq<Choice>, remote: bool) returns (cs: seq<Choice>)
    requires forall i: nat :: env.link(i) >= 0
    requires Ready(Run(env, f0, before), true, 1)
    ensures var f, r := Run(env, f0, before), Run(env, f0, cs);
            && r.pc == [Idle, SwitchSent(remote)] && r.regsOwner.None? && r.linkOwner == Some(1)
            && r.m.regs == f.m.regs
  {
    var f := Run(env, f0, before);
    SendSucceeds(env, Prepared(f.m.gateway, remote), remote);
    hide G.Send, G.Submittable, Staged, ApplyStatement, StoreStatement, Run;
    var c := Choice(1, Switching(remote));
    cs := before;
    for i := 0 to 3
      invariant var r := Run(env, f0, cs);
                && r.regsOwner.None? && r.m.regs == f.m.regs
                && (if i == 0 then r == f
                    else if i == 1 then r == f.(pc := [Idle, Switching(remote)])
                    else if i == 2 then
                      r == f.(pc := [Idle, SwitchHeld(remote)], linkOwner := Some(1))
                    else r.pc == [Idle, SwitchSent(remote)] && r.linkOwner == Some(1))
    {
      RunAppend(env, f0, cs, c);
      cs := cs + [c];
    }
  }

  lemma SendSucceeds(env: Env, g: G.Gateway, remote: bool)
    requires g.online && forall i: nat :: env.link(i) >= 0
    ensures G.Send(env.link, g, remote).1 >= 0
  {
    hide C.EncodeCommand;
  }

  /** After start-up and over a working link: the link comes up, one client writes remote mode and
      applies, successfully, and everything is at rest. */
  lemma SuccessIsReachable(env: Env, saved: TenWords) returns (cs: seq<Choice>)
    requires forall i: nat :: env.link(i) >= 0
    ensures var f := Run(env, Start(Startup(saved), 2), cs);
            Ready(f, true, 1) && |f.m.attempts| > 0 && Last(f.m.attempts).ret >= 0
  {
    var f0 := Start(Startup(saved), 2);
    cs := StartupIsReady(env, saved);
    hide Run, G.Submittable, Staged, Assembled, ReadSoFar;
    cs := StoreRuns(env, f0, cs);
    var f := Run(env, f0, cs);
    cs := ApplyReads(env, f0, cs);
    var r := Run(env, f0, cs);
    AssembledIsStaged(r.pc[0].got, r.m.regs, f.m.regs);
    StagedRemote(f.m.regs);
    SameStagedBookkeeping(f.m.regs, r.m.regs);
    cs := ApplySubmits(env, f0, cs);
    cs := ApplyEnds(env, f0, cs);
  }

  lemma StagedRemote(regs: Registers)
    ensures Staged(regs).remote <==> regs[MOTOR_MODE] == 1
  {
  }

  /** Then a refresh, or a return to local mode, takes the command lock and a second APPLY the register
      lock, before either asks for the other. */
  lemma DeadlockIsReachable(env: Env, saved: TenWords, remote: bool)
    requires forall i: nat :: env.link(i) >= 0
    ensures exists cs :: DeadlockedBy(Run(env, Start(Startup(saved), 2), cs), 0, 1, remote)
  {
    var f0 := Start(Startup(saved), 2);
    var cs := SuccessIsReachable(env, saved);
    hide Run, G.Submittable, Staged, Assembled, ReadSoFar;
    cs := SwitchHolds(env, f0, cs, remote);
    var f := Run(env, f0, cs);
    cs := ApplyReads(env, f0, cs);
    var r := Run(env, f0, cs);
    AssembledIsStaged(r.pc[0].got, r.m.regs, f.m.regs);
    assert Waits(r, 0) && Waits(r, 1);
  }
}
