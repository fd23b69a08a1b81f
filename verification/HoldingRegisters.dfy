/** The Modbus register module as an object: sixty registers in an array, changed in place. Proved
    against RegisterModel. */
module HoldingRegisters {
  import opened Words
  import opened Errno
  import opened Options
  import opened R = RegisterModel
  import C = Contract
  import G = GatewayModel
  import GatewayIpc

  class Bank {
    const env: Env
    const regs: array<word>
    const ipc: GatewayIpc.IpcModule
    /** The history of APPLY. */
    ghost var attempts: seq<Attempt>
    /** How often the configuration was saved. */
    var saves: nat

    ghost predicate Valid()
      reads this, regs, ipc
    {
      && regs.Length == COUNT && ipc.Valid() && ipc.link == env.link
    }

    ghost function Value(): M7
      requires Valid()
      reads this, regs, ipc
    {
      M7(regs[..], ipc.Value(), if ipc.cacheValid then Some(ipc.cacheWords) else None, attempts, saves)
    }

    /** Start-up: power-up values, the saved configuration, the default mapping tables. */
    constructor (env: Env, ipc: GatewayIpc.IpcModule, saved: TenWords)
      requires ipc.Valid() && ipc.link == env.link
      ensures this.env == env && this.ipc == ipc && fresh(regs)
      ensures Valid()
      ensures regs[..] == Defaults(saved) && attempts == [] && saves == 0
    {
      this.env, this.ipc, saves, attempts := env, ipc, 0, [];
      var bank := new word[COUNT](_ => 0);
      regs := bank;
      new;
      LoadSaved(saved);
      MapDefaults();
    }

    /** The power-up values of the motor registers and the saved configuration. */
    method LoadSaved(saved: TenWords)
      requires regs.Length == COUNT && forall k :: 0 <= k < COUNT ==> regs[k] == 0
      modifies regs
      ensures regs[..] == PowerUp(saved)
    {
      regs[MOTOR_DUTY], regs[MOTOR_ACCEL] := 800, 1000;
      regs[MOTOR_DECEL], regs[MOTOR_TIMEOUT] := 4000, 1000;
      ghost var power := regs[..];
      for i := 0 to 10
        invariant forall k :: 0 <= k < i ==> regs[k] == saved[k]
        invariant forall k :: 10 <= k < COUNT ==> regs[k] == power[k]
      {
        regs[i] := saved[i];
      }
    }

    method MapDefaults()
      requires regs.Length == COUNT
      modifies regs
      ensures regs[..] == WithDefaultTables(old(regs[..]))
    {
      ghost var target := WithDefaultTables(regs[..]);
      forall k | 0 <= k < COUNT {
        DefaultTableAt(regs[..], k);
      }
      hide WithDefaultTables;
      regs[INPUT_MAP] := STATE_BASE + 4;
      regs[INPUT_MAP + 1] := STATE_BASE + 1;
      regs[OUTPUT_MAP] := MOTOR_CONTROL;
      regs[OUTPUT_MAP + 1] := MOTOR_DUTY;
      regs[OUTPUT_MAP + 2] := MOTOR_APPLY;
      for i := 2 to SLOTS
        invariant forall k ::
                    0 <= k < COUNT && !(INPUT_MAP + i <= k < OUTPUT_MAP)
                    && !(OUTPUT_MAP + 3 <= k < OUTPUT_MAP + SLOTS) ==>
                      regs[k] == target[k]
      {
        regs[INPUT_MAP + i] := FREE;
      }
      for i := 3 to SLOTS
        invariant forall k ::
                    0 <= k < COUNT && !(OUTPUT_MAP + i <= k < OUTPUT_MAP + SLOTS) ==> regs[k] == target[k]
      {
        regs[OUTPUT_MAP + i] := FREE;
      }
      assert regs[..] == target;
    }

    method HoldingRead(addr: word, now: nat) returns (r: Reading)
      requires Valid()
      ensures r == R.Read(Value(), addr)
    {
      if addr >= COUNT {
        return Error(-ENOTSUP);
      }
      if IsMotorState(addr) {
        var state := ipc.GetMotorState(now);
        if !state.valid {
          return Error(-EAGAIN);
        }
        return R.Value(state.words[addr - STATE_BASE]);
      }
      r := R.Value(regs[addr]);
    }

    /** Submits the staged registers and records the outcome. */
    method MotorCommandApply() returns (ret: int)
      requires Valid()
      modifies this, regs, ipc
      ensures Valid() && ret <= 0
      ensures var (g, e) := G.Submit(env.link, old(ipc.Value()), Staged(old(regs[..])));
              && ipc.Value() == g && ret == (if e >= 0 then 0 else e)
              && regs[..] == (
                   if e >= 0 then
                     old(regs[..])[COMMAND_STATUS := 0]
                       [COMMAND_SEQUENCE := U16((old(regs[COMMAND_SEQUENCE]) as int) + 1)]
                   else old(regs[..])[COMMAND_STATUS := U16(e)])
              && attempts == old(attempts) + [Attempt(Staged(old(regs[..])), e)]
      ensures ipc.cacheValid == old(ipc.cacheValid) && ipc.cacheWords == old(ipc.cacheWords)
      ensures saves == old(saves)
    {
      hide G.Submit;
      var command := G.Submission(
        regs[MOTOR_CONTROL], regs[MOTOR_DUTY], regs[MOTOR_ACCEL], regs[MOTOR_DECEL],
        regs[MOTOR_TIMEOUT], C.SOURCE_MODBUS, regs[MOTOR_MODE] == 1);
      assert command == Staged(regs[..]);
      ret := ipc.MotorSubmit(command);
      attempts := attempts + [Attempt(command, ret)];
      if ret >= 0 {
        regs[COMMAND_STATUS] := 0;
        regs[COMMAND_SEQUENCE] := U16((regs[COMMAND_SEQUENCE] as int) + 1);
        return 0;
      }
      regs[COMMAND_STATUS] := U16(ret);
    }

    /** The work item that saves the configuration: an arbitrary result, and arbitrary values in the
        configuration registers. */
    method SaveConfiguration() returns (ret: int)
      requires Valid()
      modifies this, regs
      ensures Valid() && saves == old(saves) + 1 && attempts == old(attempts)
      ensures regs[..] == env.save(old(saves)).words + old(regs[10..])
      ensures ret == env.save(old(saves)).ret
    {
      var saved := env.save(saves);
      for i := 0 to 10
        modifies regs
        invariant regs[..i] == saved.words[..i]
        invariant regs[10..] == old(regs[10..])
      {
        regs[i] := saved.words[i];
      }
      saves := saves + 1;
      ret := saved.ret;
    }

    method HoldingWrite(addr: word, reg: word) returns (ret: int)
      requires Valid()
      modifies this, regs, ipc
      ensures Valid() && (Value(), ret) == R.Write(env, old(Value()), addr, reg)
    {
      hide G.Submit;
      if addr >= COUNT {
        return -ENOTSUP;
      }
      if IsMotorState(addr) || addr == COMMAND_STATUS || addr == COMMAND_SEQUENCE || addr == RESERVED {
        return -EACCES;
      }
      if (IsInputMapping(addr) || IsOutputMapping(addr)) && !IsValidMapping(reg) {
        return -EINVAL;
      }
      if IsOutputMapping(addr) && !IsWritableMapping(reg) {
        return -EACCES;
      }
      if IsMotorCommand(addr) {
        if addr == MOTOR_MODE && reg > 1 {
          return -EINVAL;
        }
        if addr == MOTOR_APPLY {
          if reg != 1 {
            regs[COMMAND_STATUS] := U16(-EINVAL);
            return -EINVAL;
          }
          regs[COMMAND_STATUS] := PENDING;
          assert Staged(regs[..]) == Staged(old(regs[..]));
          ret := MotorCommandApply();
          regs[MOTOR_APPLY] := 0;
          assert regs[..] == Apply(env, old(Value())).0.regs;
          return;
        }
        regs[addr] := reg;
        return 0;
      }
      regs[addr] := reg;
      if addr == COMMAND {
        if reg != SAVE_COMMAND {
          regs[STATUS] := U16(-EINVAL);
          regs[COMMAND] := 0;
          assert regs[..] == old(regs[..])[COMMAND := 0][STATUS := U16(-EINVAL)];
          return -EINVAL;
        }
        ret := SaveConfiguration();
        return;
      }
      ret := 0;
    }

    method SetMode(asRemote: bool) returns (ret: int)
      requires Valid()
      modifies this, regs, ipc
      ensures Valid() && ret == 0
      ensures Value() == old(Value()).(regs := old(Value()).regs[MOTOR_MODE := if asRemote then 1 else 0])
    {
      ret := HoldingWrite(MOTOR_MODE, if asRemote then 1 else 0);
    }

    // ----- The two link operations that also write the mode register -----

    /** The periodic refresh. */
    method RemoteRefresh()
      requires Valid()
      modifies this, regs, ipc
      ensures Valid() && Value() == R.Do(env, old(Value()), OpRefresh)
    {
      hide G.Send, R.Write;
      ipc.armed := false;
      if !ipc.remoteCommand.enabled {
        return;
      }
      var ret := ipc.SendRemoteCommandLocked(true);
      if ret >= 0 {
        ret := SetMode(true);
        ipc.armed := true;
      }
    }

    method RemoteCommandDisable() returns (ret: int)
      requires Valid()
      modifies this, regs, ipc
      ensures Valid() && Value() == R.Do(env, old(Value()), OpDisable)
      ensures var sent := G.Disable(env.link, old(Value()).gateway).1;
              ret == if sent >= 0 then 0 else sent
    {
      hide G.Send, R.Write;
      ipc.remoteCommand := ipc.remoteCommand.(timeout := G.SHELL_TIMEOUT, source := C.SOURCE_SHELL);
      ret := ipc.SendRemoteCommandLocked(false);
      if ret >= 0 {
        ret := SetMode(false);
        ipc.remoteCommand := ipc.remoteCommand.(enabled := false, control := 0);
        ipc.armed := false;
      }
    }
  }
}
