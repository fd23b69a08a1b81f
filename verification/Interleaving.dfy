/** The scanner's writes among those of other clients. A slot of an image is a lock section of its
    own, and the APPLY slot is two, so what a PLC commits depends on what the others store in
    between: exactly how is stated here on their operations. */
module Interleaving {
  import opened Words
  import opened Options
  import opened RegisterModel
  import S = ScannerModel
  import C = Contract
  import G = GatewayModel

  /** A register that is part of a command. */
  predicate IsStaging(k: word) {
    k in {MOTOR_MODE as word, MOTOR_CONTROL, MOTOR_DUTY, MOTOR_ACCEL, MOTOR_DECEL, MOTOR_TIMEOUT}
  }

  /** What an operation stores in a staging register: a permitted write its value, a successful refresh
      remote mode, and a successful return to local mode local mode. */
  function Stores(env: Env, m: M7, op: Op, k: word): Option<word> {
    match op
    case OpWrite(addr, reg) => if addr == k && (k == MOTOR_MODE ==> reg <= 1) then Some(reg) else None
    case OpRefresh => if k == MOTOR_MODE && G.Refresh(env.link, m.gateway).1 >= 0 then Some(1) else None
    case OpDisable => if k == MOTOR_MODE && G.Disable(env.link, m.gateway).1 >= 0 then Some(0) else None
    case _ => None
  }

  /** What the last operation of a run to store in this register stored. */
  function LastStored(env: Env, m: M7, ops: seq<Op>, k: word): Option<word>
    decreases |ops|
  {
    if |ops| == 0 then None
    else
      var init := ops[..|ops| - 1];
      var last := Stores(env, DoAll(env, m, init), Last(ops), k);
      if last.Some? then last else LastStored(env, m, init, k)
  }

  lemma OpStores(env: Env, m: M7, op: Op, k: word)
    requires IsStaging(k)
    ensures Do(env, m, op).regs[k] ==
            match Stores(env, m, op, k) case Some(v) => v case None => m.regs[k]
  {
    hide G.Refresh, G.Disable, G.Do;
    if op == OpWrite(MOTOR_APPLY, 1) {
      ApplyFrame(env, m);
      hide Apply;
    }
    hide G.Submit;
  }

  /** A staging register holds what was last stored in it. */
  lemma {:induction false} HoldsLastStored(env: Env, m: M7, ops: seq<Op>, k: word)
    requires IsStaging(k)
    ensures DoAll(env, m, ops).regs[k] ==
            match LastStored(env, m, ops, k) case Some(v) => v case None => m.regs[k]
    decreases |ops|
  {
    hide Do, Stores;
    if |ops| > 0 {
      HoldsLastStored(env, m, ops[..|ops| - 1], k);
      OpStores(env, DoAll(env, m, ops[..|ops| - 1]), Last(ops), k);
    }
  }

  lemma {:induction false} DoAllCompose(env: Env, m: M7, pre: seq<Op>, post: seq<Op>)
    ensures DoAll(env, m, pre + post) == DoAll(env, DoAll(env, m, pre), post)
    decreases |post|
  {
    hide Do;
    if |post| == 0 {
      assert pre + post == pre;
    } else {
      assert (pre + post)[..|pre + post| - 1] == pre + post[..|post| - 1];
      DoAllCompose(env, m, pre, post[..|post| - 1]);
    }
  }

  // ----- The APPLY slot -----

  /** The others left this register alone, or last stored this value in it. */
  predicate Leaves(env: Env, m: M7, ops: seq<Op>, k: word, v: word) {
    LastStored(env, m, ops, k) in {None, Some(v)}
  }

  lemma LeavesMeans(env: Env, m: M7, ops: seq<Op>, k: word)
    requires IsStaging(k)
    ensures Leaves(env, m, ops, k, m.regs[k]) <==> DoAll(env, m, ops).regs[k] == m.regs[k]
  {
    hide Do, DoAll, Stores, LastStored;
    HoldsLastStored(env, m, ops, k);
  }

  /** Between claiming remote mode and applying, others may run. The command submitted is remote
      exactly when the last of them to store the mode stored remote, or none stored it; and it is the
      command the scanner found staged, in remote mode, exactly when the same is true of each of its
      registers. In particular it is so when they store none of them. */
  lemma ScannerApplyInterleaved(env: Env, m: M7, between: seq<Op>)
    ensures var claimed := Do(env, m, OpWrite(MOTOR_MODE, 1));
            var before := DoAll(env, claimed, between);
            var after := Do(env, before, OpWrite(MOTOR_APPLY, 1));
            && |after.attempts| == |before.attempts| + 1
            && var s := Last(after.attempts).submission;
            && (s.remote <==> Leaves(env, claimed, between, MOTOR_MODE, 1))
            && (s == Staged(m.regs).(remote := true) <==>
                  && Leaves(env, claimed, between, MOTOR_MODE, 1)
                  && Leaves(env, claimed, between, MOTOR_CONTROL, m.regs[MOTOR_CONTROL])
                  && Leaves(env, claimed, between, MOTOR_DUTY, m.regs[MOTOR_DUTY])
                  && Leaves(env, claimed, between, MOTOR_ACCEL, m.regs[MOTOR_ACCEL])
                  && Leaves(env, claimed, between, MOTOR_DECEL, m.regs[MOTOR_DECEL])
                  && Leaves(env, claimed, between, MOTOR_TIMEOUT, m.regs[MOTOR_TIMEOUT]))
            && ((forall k: word :: IsStaging(k) ==> LastStored(env, claimed, between, k).None?) ==>
                  s == Staged(m.regs).(remote := true))
  {
    var claimed := Do(env, m, OpWrite(MOTOR_MODE, 1));
    assert claimed == m.(regs := m.regs[MOTOR_MODE := 1]);
    var before := DoAll(env, claimed, between);
    OnlyApplySubmits(env, before, OpWrite(MOTOR_APPLY, 1));
    hide Do, DoAll, LastStored, Staged, Leaves;
    CommandIsLeft(env, claimed, between);
    LeavesMeans(env, claimed, between, MOTOR_MODE);
    StagedMode(m.regs);
    StagedMode(before.regs);
    if forall k: word :: IsStaging(k) ==> LastStored(env, claimed, between, k).None? {
      forall k: word | IsStaging(k)
        ensures Leaves(env, claimed, between, k, claimed.regs[k])
      {
        NothingStored(env, claimed, between, k);
      }
    }
  }

  lemma NothingStored(env: Env, m: M7, ops: seq<Op>, k: word)
    requires IsStaging(k) && LastStored(env, m, ops, k).None?
    ensures Leaves(env, m, ops, k, m.regs[k])
  {
  }

  lemma StagedMode(regs: Registers)
    ensures Staged(regs).remote <==> regs[MOTOR_MODE] == 1
    ensures Staged(regs[MOTOR_MODE := 1]) == Staged(regs).(remote := true)
  {
  }

  /** The staged command survives a run exactly when each of its registers does. */
  lemma CommandIsLeft(env: Env, m: M7, ops: seq<Op>)
    requires m.regs[MOTOR_MODE] == 1
    ensures Staged(DoAll(env, m, ops).regs) == Staged(m.regs) <==>
              && Leaves(env, m, ops, MOTOR_MODE, 1)
              && Leaves(env, m, ops, MOTOR_CONTROL, m.regs[MOTOR_CONTROL])
              && Leaves(env, m, ops, MOTOR_DUTY, m.regs[MOTOR_DUTY])
              && Leaves(env, m, ops, MOTOR_ACCEL, m.regs[MOTOR_ACCEL])
              && Leaves(env, m, ops, MOTOR_DECEL, m.regs[MOTOR_DECEL])
              && Leaves(env, m, ops, MOTOR_TIMEOUT, m.regs[MOTOR_TIMEOUT])
  {
    hide DoAll, LastStored, Leaves;
    LeavesMeans(env, m, ops, MOTOR_MODE);
    LeavesMeans(env, m, ops, MOTOR_CONTROL);
    LeavesMeans(env, m, ops, MOTOR_DUTY);
    LeavesMeans(env, m, ops, MOTOR_ACCEL);
    LeavesMeans(env, m, ops, MOTOR_DECEL);
    LeavesMeans(env, m, ops, MOTOR_TIMEOUT);
  }

  // ----- The three slots of a default image -----

  /** Under the default tables the first three slots are these register writes. */
  lemma DefaultSlotsAreWrites(env: Env, s: S.Server, reg: word)
    requires |s.scanner.outputs| == SLOTS && s.scanner.attached
    ensures s.m.regs[OUTPUT_MAP] == MOTOR_CONTROL ==>
              S.OutputWrite(env, s, 0, reg).0.m == Do(env, s.m, OpWrite(MOTOR_CONTROL, reg))
    ensures s.m.regs[OUTPUT_MAP + 1] == MOTOR_DUTY ==>
              S.OutputWrite(env, s, 1, reg).0.m == Do(env, s.m, OpWrite(MOTOR_DUTY, reg))
    ensures s.m.regs[OUTPUT_MAP + 2] == MOTOR_APPLY && reg != 0 ==>
              S.OutputWrite(env, s, 2, reg).0.m
              == Do(env, Do(env, s.m, OpWrite(MOTOR_MODE, 1)), OpWrite(MOTOR_APPLY, reg))
  {
    hide Apply;
  }

  /** A PLC's image [control, duty, 1] with others' operations `a` after the control slot, `b` after
      the duty slot and `c` between claiming remote mode and applying. */
  function ImageRun(control: word, duty: word, a: seq<Op>, b: seq<Op>, c: seq<Op>): seq<Op> {
    [OpWrite(MOTOR_CONTROL, control)] + a + [OpWrite(MOTOR_DUTY, duty)] + b + [OpWrite(MOTOR_MODE, 1)] + c
  }

  /** The run up to and including the write of a staging register, and what follows it. */
  lemma ValueAfterWrite(env: Env, m: M7, pre: seq<Op>, k: word, v: word, post: seq<Op>)
    requires IsStaging(k) && (k == MOTOR_MODE ==> v <= 1)
    ensures var written := DoAll(env, m, pre + [OpWrite(k, v)]);
            DoAll(env, m, pre + [OpWrite(k, v)] + post).regs[k] == v <==> Leaves(env, written, post, k, v)
  {
    hide Do, LastStored, Leaves;
    var written := DoAll(env, m, pre + [OpWrite(k, v)]);
    assert (pre + [OpWrite(k, v)])[..|pre|] == pre;
    OpStores(env, DoAll(env, m, pre), OpWrite(k, v), k);
    assert written.regs[k] == v;
    hide DoAll, Stores;
    DoAllCompose(env, m, pre + [OpWrite(k, v)], post);
    LeavesMeans(env, written, post, k);
  }

  /** The image is committed whole, in remote mode and with the ramps and timeout staged before it,
      exactly when the others left alone, or last stored the same in, the control word after slot 0,
      the duty after slot 1, the mode after its claim, and the rest throughout. */
  lemma ImageInterleaved(env: Env, m: M7, control: word, duty: word, a: seq<Op>, b: seq<Op>, c: seq<Op>)
    ensures var slot0 := [OpWrite(MOTOR_CONTROL, control)];
            var slot1 := slot0 + a + [OpWrite(MOTOR_DUTY, duty)];
            var claim := slot1 + b + [OpWrite(MOTOR_MODE, 1)];
            var all := ImageRun(control, duty, a, b, c);
            var before := DoAll(env, m, all);
            var after := Do(env, before, OpWrite(MOTOR_APPLY, 1));
            && |after.attempts| == |before.attempts| + 1
            && (Last(after.attempts).submission
                == G.Submission(control, duty, m.regs[MOTOR_ACCEL], m.regs[MOTOR_DECEL],
                                m.regs[MOTOR_TIMEOUT], C.SOURCE_MODBUS, true) <==>
                  && Leaves(env, DoAll(env, m, slot0), all[1..], MOTOR_CONTROL, control)
                  && Leaves(env, DoAll(env, m, slot1), all[|slot1|..], MOTOR_DUTY, duty)
                  && Leaves(env, DoAll(env, m, claim), c, MOTOR_MODE, 1)
                  && Leaves(env, m, all, MOTOR_ACCEL, m.regs[MOTOR_ACCEL])
                  && Leaves(env, m, all, MOTOR_DECEL, m.regs[MOTOR_DECEL])
                  && Leaves(env, m, all, MOTOR_TIMEOUT, m.regs[MOTOR_TIMEOUT]))
  {
    var slot0 := [OpWrite(MOTOR_CONTROL, control)];
    var slot1 := slot0 + a + [OpWrite(MOTOR_DUTY, duty)];
    var claim := slot1 + b + [OpWrite(MOTOR_MODE, 1)];
    var all := ImageRun(control, duty, a, b, c);
    OnlyApplySubmits(env, DoAll(env, m, all), OpWrite(MOTOR_APPLY, 1));
    hide Do, DoAll, Leaves, LastStored;
    assert all == [] + [OpWrite(MOTOR_CONTROL, control)] + all[1..] && [] + slot0 == slot0;
    ValueAfterWrite(env, m, [], MOTOR_CONTROL, control, all[1..]);
    assert all == slot0 + a + [OpWrite(MOTOR_DUTY, duty)] + all[|slot1|..];
    ValueAfterWrite(env, m, slot0 + a, MOTOR_DUTY, duty, all[|slot1|..]);
    assert all == slot1 + b + [OpWrite(MOTOR_MODE, 1)] + c;
    ValueAfterWrite(env, m, slot1 + b, MOTOR_MODE, 1, c);
    LeavesMeans(env, m, all, MOTOR_ACCEL);
    LeavesMeans(env, m, all, MOTOR_DECEL);
    LeavesMeans(env, m, all, MOTOR_TIMEOUT);
  }

  /** So a client that writes local mode in between turns a PLC's remote command into a local one. */
  lemma ScannerApplyCanBeLocal(env: Env, m: M7)
    ensures var claimed := Do(env, m, OpWrite(MOTOR_MODE, 1));
            var before := DoAll(env, claimed, [OpWrite(MOTOR_MODE, 0)]);
            !Last(Do(env, before, OpWrite(MOTOR_APPLY, 1)).attempts).submission.remote
  {
    var one := [OpWrite(MOTOR_MODE, 0)];
    var claimed := Do(env, m, OpWrite(MOTOR_MODE, 1));
    assert LastStored(env, claimed, one, MOTOR_MODE) == Some(0);
    hide Do, DoAll, LastStored;
    ScannerApplyInterleaved(env, m, one);
  }
}
