/** The motor controller as the object it is: fields updated in place and drivers that may fail.
    Each method is proved to make the transition of MotorModel. */
module MotorControl {
  import opened Words
  import opened Errno
  import M = MotorModel

  class Controller {
    const board: M.Board
    var state: M.State
    var direction: M.Direction
    var duty: word
    var target: word
    var boost: dword
    var lastError: int
    var accel: word
    var decel: word
    /** The driver outputs after each write. */
    var wire: M.Wire

    function Value(): M.Motor
      reads this
    {
      M.Motor(state, direction, duty, target, boost, lastError, accel, decel, wire)
    }

    /** Power-up values; the outputs are whatever they happen to be. */
    constructor (board: M.Board, outputs: M.Pins)
      ensures this.board == board
      ensures Value() == M.Motor(M.Disabled, M.Forward, 0, M.DUTY_MIN, 0, 0, M.RUN_RAMP, M.STOP_RAMP,
                                 [outputs])
    {
      this.board := board;
      state, direction := M.Disabled, M.Forward;
      duty, target, boost, lastError := 0, M.DUTY_MIN, 0, 0;
      accel, decel := M.RUN_RAMP, M.STOP_RAMP;
      wire := [outputs];
    }

    // ----- Drivers -----

    method Write(p: M.Pins) returns (ret: int)
      modifies this`wire
      ensures (Value(), ret) == M.Write(board, old(Value()), p)
    {
      ret := board.rc(|wire|);
      if ret < 0 {
        wire := wire + [Last(wire)];
      } else {
        wire := wire + [p];
      }
    }

    method WritePulse(pulse: nat) returns (ret: int)
      modifies this`wire
      ensures (Value(), ret) == M.WritePulse(board, old(Value()), pulse)
    {
      ret := Write(Last(wire).(pulse := pulse));
    }

    method WriteIn1(level: bool) returns (ret: int)
      modifies this`wire
      ensures (Value(), ret) == M.WriteIn1(board, old(Value()), level)
    {
      ret := Write(Last(wire).(in1 := level));
    }

    method WriteIn2(level: bool) returns (ret: int)
      modifies this`wire
      ensures (Value(), ret) == M.WriteIn2(board, old(Value()), level)
    {
      ret := Write(Last(wire).(in2 := level));
    }

    // ----- Internal operations -----

    method MakeSafe() returns (firstError: int)
      modifies this
      ensures (Value(), firstError) == M.MakeSafe(board, old(Value()))
    {
      firstError := 0;
      var ret := WritePulse(0);
      if ret < 0 {
        firstError := ret;
      }
      ret := WriteIn1(false);
      if ret < 0 && firstError == 0 {
        firstError := ret;
      }
      ret := WriteIn2(false);
      if ret < 0 && firstError == 0 {
        firstError := ret;
      }
      duty := 0;
      boost := 0;
    }

    method RecordFault(error: int)
      modifies this
      ensures Value() == M.RecordFault(board, old(Value()), error)
    {
      var _ := MakeSafe();
      lastError := if error < 0 then error else -EIO;
      state := M.Fault;
    }

    method SetPwm(permille: word) returns (ret: int)
      modifies this
      ensures (Value(), ret) == M.SetPwm(board, old(Value()), permille)
    {
      if permille > M.DUTY_MAX {
        return -EINVAL;
      }
      var pulse: nat := board.period * permille / 1000;
      ret := WritePulse(pulse);
      if ret < 0 {
        RecordFault(ret);
        return;
      }
      duty := permille;
      ret := 0;
    }

    method ApplyDirection() returns (ret: int)
      modifies this
      ensures (Value(), ret) == M.ApplyDirection(board, old(Value()))
    {
      var forward := direction == M.Forward;
      ret := WriteIn1(forward);
      if ret < 0 {
        RecordFault(ret);
        return;
      }
      ret := WriteIn2(!forward);
      if ret < 0 {
        RecordFault(ret);
        return;
      }
      ret := 0;
    }

    method RampTowards(goal: word, step: word) returns (ret: int)
      modifies this
      ensures (Value(), ret) == M.RampTowards(board, old(Value()), goal, step)
    {
      var next := duty;
      if next < goal {
        next := if goal - next <= step then goal else next + step;
      } else if next > goal {
        next := if next - goal <= step then goal else next - step;
      }
      ret := SetPwm(next);
    }

    // ----- Interface -----

    method Init(ready: bool, c1: int, c2: int) returns (ret: int)
      modifies this
      ensures (Value(), ret) == M.Init(board, old(Value()), ready, c1, c2)
    {
      if !ready {
        RecordFault(-ENODEV);
        return -ENODEV;
      }
      if c1 < 0 {
        RecordFault(c1);
        return c1;
      }
      wire := wire + [Last(wire).(in1 := false)];
      if c2 < 0 {
        RecordFault(c2);
        return c2;
      }
      wire := wire + [Last(wire).(in2 := false)];
      ret := MakeSafe();
      if ret < 0 {
        RecordFault(ret);
        return;
      }
      direction := M.Forward;
      lastError := 0;
      state := M.Ready;
      ret := 0;
    }

    method Start() returns (ret: int)
      modifies this
      ensures (Value(), ret) == M.Start(board, old(Value()))
    {
      if state == M.Fault {
        return -EIO;
      }
      if state == M.Running {
        return 0;
      }
      if state != M.Ready {
        return -EBUSY;
      }
      ret := ApplyDirection();
      if ret < 0 {
        return;
      }
      ret := SetPwm(M.BOOST_DUTY);
      if ret < 0 {
        return;
      }
      boost := M.BOOST_MS;
      state := M.Running;
      ret := 0;
    }

    method Stop() returns (ret: int)
      modifies this
      ensures (Value(), ret) == M.Stop(old(Value()))
    {
      if state == M.Fault {
        return -EIO;
      }
      if state == M.Ready || state == M.Disabled {
        return 0;
      }
      boost := 0;
      state := M.Stopping;
      ret := 0;
    }

    method ToggleDirection() returns (ret: int)
      modifies this
      ensures (Value(), ret) == M.ToggleDirection(old(Value()))
    {
      if state == M.Fault {
        return -EIO;
      }
      if state != M.Ready {
        return -EBUSY;
      }
      direction := if direction == M.Forward then M.Reverse else M.Forward;
      ret := 0;
    }

    method SetDirection(d: M.Direction) returns (ret: int)
      modifies this
      ensures (Value(), ret) == M.SetDirection(old(Value()), d)
    {
      if state == M.Fault {
        return -EIO;
      }
      if state != M.Ready {
        return -EBUSY;
      }
      direction := d;
      ret := 0;
    }

    method Reset() returns (ret: int)
      modifies this
      ensures (Value(), ret) == M.Reset(board, old(Value()))
    {
      ret := MakeSafe();
      if ret < 0 {
        RecordFault(ret);
        return;
      }
      direction := M.Forward;
      lastError := 0;
      state := M.Ready;
      ret := 0;
    }

    method QuickStop() returns (ret: int)
      modifies this
      ensures (Value(), ret) == M.QuickStop(board, old(Value()))
    {
      if state == M.Fault {
        return -EIO;
      }
      ret := MakeSafe();
      if ret < 0 {
        RecordFault(ret);
        return;
      }
      state := M.Ready;
      ret := 0;
    }

    method SetTargetDuty(permille: word) returns (ret: int)
      modifies this
      ensures (Value(), ret) == M.SetTargetDuty(old(Value()), permille)
    {
      if permille < M.DUTY_MIN || permille > M.DUTY_MAX {
        return -ERANGE;
      }
      target := permille;
      ret := 0;
    }

    method SetRamps(accel: word, decel: word) returns (ret: int)
      modifies this
      ensures (Value(), ret) == M.SetRamps(old(Value()), accel, decel)
    {
      if accel == 0 || decel == 0 {
        return -EINVAL;
      }
      this.accel := accel;
      this.decel := decel;
      ret := 0;
    }

    method RestoreDefaultRamps()
      modifies this
      ensures Value() == M.RestoreDefaultRamps(old(Value()))
    {
      accel := M.RUN_RAMP;
      decel := M.STOP_RAMP;
    }

    method Process(elapsed: dword) returns (ret: int)
      modifies this
      ensures (Value(), ret) == M.Process(board, old(Value()), elapsed)
    {
      if state == M.Running {
        if boost != 0 {
          if elapsed >= boost {
            boost := 0;
          } else {
            boost := boost - elapsed;
          }
          return 0;
        }
        ret := RampTowards(target, M.RampStep(accel, elapsed));
        return;
      }
      if state == M.Stopping {
        ret := RampTowards(0, M.RampStep(decel, elapsed));
        if ret < 0 {
          return;
        }
        if duty == 0 {
          ret := MakeSafe();
          if ret < 0 {
            RecordFault(ret);
            return;
          }
          state := M.Ready;
        }
      }
      ret := 0;
    }

    method Fail(error: int)
      modifies this
      ensures Value() == M.RecordFault(board, old(Value()), error)
    {
      RecordFault(error);
    }
  }
}
