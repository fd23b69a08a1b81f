/** The M4 application as the objects it is made of: the button array, the potentiometer, the
    remote-command interpreter and the main loop, proved against M4Node. */
module M4Loop {
  import opened Words
  import opened Errno
  import opened Options
  import opened Contract
  import M = MotorModel
  import opened MotorControl
  import C = M4Core
  import N = M4Node
  import M4Snapshot
  import Debounce
  import PotFilter

  // ----- Buttons -----

  class ButtonBank {
    const buttons: array<Debounce.Button>

    constructor ()
      ensures fresh(buttons) && buttons.Length == N.BUTTONS
      ensures buttons[..] == seq(N.BUTTONS, _ => Debounce.RELEASED)
    {
      buttons := new Debounce.Button[N.BUTTONS](_ => Debounce.RELEASED);
    }

    /** Samples every button in place and returns the press events. */
    method Poll(readings: seq<int>) returns (events: word)
      requires |readings| == buttons.Length == N.BUTTONS
      modifies buttons
      ensures buttons[..] == N.Sampled4(old(buttons[..]), readings)
      ensures events == N.Mask(N.Presses(old(buttons[..]), readings))
    {
      events := 0;
      ghost var was := buttons[..];
      ghost var pressed := N.Presses(was, readings);
      for i := 0 to buttons.Length
        invariant forall k :: i <= k < N.BUTTONS ==> buttons[k] == was[k]
        invariant forall k :: 0 <= k < i ==> buttons[k] == Debounce.Sample(was[k], readings[k])
        invariant events == N.Mask(pressed[..i])
      {
        assert pressed[..i + 1][..i] == pressed[..i];
        var value := readings[i];
        if value < 0 {
          continue;
        }
        var isPressed := value != 0;
        if isPressed != buttons[i].candidate {
          buttons[i] := buttons[i].(candidate := isPressed, samples := 1);
          continue;
        }
        if buttons[i].samples < Debounce.DEBOUNCE_SAMPLES {
          buttons[i] := buttons[i].(samples := buttons[i].samples + 1);
        }
        if buttons[i].samples == Debounce.DEBOUNCE_SAMPLES
           && buttons[i].stable != buttons[i].candidate {
          buttons[i] := buttons[i].(stable := buttons[i].candidate);
          if buttons[i].stable {
            events := events + N.Weight(i);
          }
        }
      }
      assert pressed[..N.BUTTONS] == pressed;
    }

    method GetState() returns (state: word)
      requires buttons.Length == N.BUTTONS
      ensures state == N.StableMask(buttons[..])
    {
      state := 0;
      ghost var stables := N.Stables(buttons[..]);
      for i := 0 to buttons.Length
        invariant state == N.Mask(stables[..i])
      {
        assert stables[..i + 1][..i] == stables[..i];
        if buttons[i].stable {
          state := state + N.Weight(i);
        }
      }
      assert stables[..N.BUTTONS] == stables;
    }
  }

  // ----- Potentiometer -----

  class Potentiometer {
    var filtered: int
    var raw: word
    var duty: word
    var filterReady: bool

    function Value(): PotFilter.Pot
      reads this
    {
      PotFilter.Pot(filtered, raw, duty, filterReady)
    }

    constructor ()
      ensures Value() == PotFilter.INITIAL
    {
      filtered, raw, duty, filterReady := 0, 0, 800, false;
    }

    /** `setup` and `read` are the converter's return codes. */
    method Poll(setup: int, read: int, sample: word) returns (ret: int, permille: word)
      modifies this
      ensures setup < 0 ==> ret == setup && Value() == old(Value())
      ensures setup >= 0 && read < 0 ==> ret == read && Value() == old(Value())
      ensures setup >= 0 && read >= 0 ==>
                ret == 0 && permille == duty && Value() == PotFilter.Acquire(old(Value()), sample)
    {
      permille := 0;
      if setup < 0 {
        return setup, permille;
      }
      if read < 0 {
        return read, permille;
      }
      var s := sample;
      if s > PotFilter.ADC_MAX {
        s := PotFilter.ADC_MAX;
      }
      raw := s;
      if !filterReady {
        filtered := s;
        filterReady := true;
      } else {
        filtered := filtered + TruncDiv(s - filtered, PotFilter.DIVISOR);
      }
      var converted := PotFilter.RawToDuty(U16(filtered));
      var difference := if converted > duty then converted - duty else duty - converted;
      if difference >= PotFilter.DEADBAND {
        duty := converted;
      }
      permille := duty;
      ret := 0;
    }
  }

  // ----- Remote commands -----

  class RemoteControl {
    const motor: Controller
    /** The return code of the n-th frame sent. */
    const link: nat -> int
    var mailbox: Option<Command>
    var pingPending: bool
    var pingSequence: dword
    var online: bool
    var remote: bool
    var timedOut: bool
    var latched: bool
    var timeout: word
    var lastAccepted: word
    var stamp: dword
    var stateSequence: dword
    var heartbeat: word
    var sends: nat
    var sent: seq<N.Report>
    /** True times and the true number of publications, beside the wrapping fields. */
    ghost var since: nat
    ghost var checked: nat
    var published: nat

    ghost predicate Valid()
      reads this
    {
      stateSequence == U32(published) && heartbeat == U16(published)
    }

    ghost function Core(): C.Core
      reads this, motor
    {
      C.Core(motor.Value(), remote, timedOut, latched, timeout, lastAccepted, stamp, since, checked)
    }

    ghost function Value(): N.Node
      reads this, motor
    {
      N.Node(Core(), mailbox, pingPending, pingSequence, online, published, sends, sent)
    }

    constructor (motor: Controller, link: nat -> int)
      ensures this.motor == motor && this.link == link && Valid()
      ensures Value() == N.Node(C.Boot(motor.Value()), None, false, 0, false, 0, 0, [])
    {
      this.motor, this.link := motor, link;
      mailbox, pingPending, pingSequence, online := None, false, 0, false;
      remote, timedOut, latched, timeout, lastAccepted, stamp := false, false, false, 0, 0, 0;
      stateSequence, heartbeat, sends, sent := 0, 0, 0, [];
      since, checked, published := 0, 0, 0;
    }

    /** The endpoint's receive callback. */
    method Received(bytes: seq<byte>)
      requires Valid()
      modifies this
      ensures Valid() && Value() == N.Receive(old(Value()), bytes)
    {
      if !HasFrame(bytes) {
        return;
      }
      if Kind(bytes) == PING {
        if |bytes| != FRAME_BYTES || Length(bytes) != 0 {
          return;
        }
        pingSequence := Sequence(bytes);
        pingPending := true;
        return;
      }
      if CommandIsValid(bytes) {
        mailbox := Some(DecodeCommand(bytes));
      }
    }

    method ApplyLocalCommand(cmd: Command) returns (ret: int)
      modifies this`remote, this`timedOut, this`latched, this`lastAccepted, motor
      ensures (Core(), ret) == C.ApplyLocal(motor.board, old(Core()), cmd)
    {
      hide M.Reset, M.Stop, M.RestoreDefaultRamps;
      ret := 0;
      if cmd.ResetFault() {
        ret := motor.Reset();
        if ret < 0 {
          return;
        }
      }
      ret := motor.Stop();
      if ret < 0 {
        return;
      }
      remote := false;
      timedOut := false;
      latched := false;
      motor.RestoreDefaultRamps();
      lastAccepted := cmd.sequence;
      ret := 0;
    }

    method Configure(cmd: Command) returns (ret: int)
      modifies motor
      ensures (motor.Value(), ret) == C.Configure(old(motor.Value()), cmd)
    {
      ret := motor.SetRamps(cmd.accel, cmd.decel);
      if ret < 0 {
        return;
      }
      ret := motor.SetTargetDuty(cmd.duty);
    }

    /** What a remote command asks of the motor short of starting it. */
    method Execute(cmd: Command) returns (ret: int)
      modifies this`latched, motor
      ensures (motor.Value(), ret) ==
              C.Execute(motor.board, old(motor.Value()), cmd, old(latched))
      ensures latched == (old(latched) && !cmd.ResetFault())
    {
      if cmd.ResetFault() {
        latched := false;
        ret := motor.Reset();
      } else if cmd.QuickStop() {
        ret := motor.QuickStop();
      } else if latched && cmd.Run() {
        ret := -ECANCELED;
      } else if !cmd.Run() {
        ret := motor.Stop();
        if ret == 0 && motor.state == M.Ready {
          var direction := if cmd.Reverse() then M.Direction.Reverse else M.Forward;
          if direction != motor.direction {
            ret := motor.SetDirection(direction);
          }
        }
      } else {
        ret := 0;
        var direction := if cmd.Reverse() then M.Direction.Reverse else M.Forward;
        if direction != motor.direction {
          ret := motor.SetDirection(direction);
        }
      }
    }

    method ExecuteAndStart(cmd: Command) returns (ret: int)
      modifies this`latched, motor
      ensures (motor.Value(), ret) ==
              C.ExecuteAndStart(motor.board, old(motor.Value()), cmd, old(latched))
      ensures latched == (old(latched) && !cmd.ResetFault())
    {
      hide M.Start, C.Execute;
      ret := Execute(cmd);
      if ret == 0 && cmd.Run() && cmd.Enable() {
        ret := motor.Start();
      }
    }

    method ApplyRemoteSession(cmd: Command, now: nat) returns (ret: int)
      modifies this`remote, this`timedOut, this`timeout, this`stamp, this`since
      modifies this`latched, this`lastAccepted, motor
      ensures (Core(), ret) == C.ApplyRemote(motor.board, old(Core()), cmd, now)
    {
      hide C.ExecuteAndStart, C.Configure, U32;
      remote := true;
      timedOut := false;
      timeout := cmd.timeout;
      stamp := U32(now);
      since := now;
      ret := Configure(cmd);
      if ret < 0 {
        return;
      }
      ret := ExecuteAndStart(cmd);
      if ret == 0 {
        lastAccepted := cmd.sequence;
      }
    }

    method ApplyRemoteCommand(cmd: Command, now: nat) returns (ret: int)
      modifies this`remote, this`timedOut, this`timeout, this`stamp, this`since
      modifies this`latched, this`lastAccepted, motor
      ensures (Core(), ret) == C.Apply(motor.board, old(Core()), cmd, now)
    {
      hide C.ApplyLocal, C.ApplyRemote;
      if cmd.mode == MODE_LOCAL {
        ret := ApplyLocalCommand(cmd);
      } else {
        ret := ApplyRemoteSession(cmd, now);
      }
    }

    method ProcessPendingCommand(now: nat)
      requires Valid()
      modifies this, motor
      ensures Valid()
      ensures Value() == old(Value()).(
                mailbox := None,
                core := if old(mailbox).None? then old(Core())
                        else C.Apply(motor.board, old(Core()), old(mailbox).value, now).0)
    {
      hide C.Apply;
      if mailbox.None? {
        return;
      }
      var command := mailbox.value;
      mailbox := None;
      var _ := ApplyRemoteCommand(command, now);
    }

    method ProcessRemoteTimeout(now: nat)
      requires Valid()
      modifies this, motor
      ensures Valid() && Value() == old(Value()).(core := C.Watchdog(old(Core()), now))
    {
      checked := now;
      if !remote || timedOut || U32(U32(now) - stamp) <= timeout {
        return;
      }
      timedOut := true;
      var _ := motor.Stop();
    }

    /** One frame handed to the transport; a failing send delivers nothing. */
    method Send(frame: N.Report) returns (ret: int)
      modifies this`sends, this`sent
      ensures (Value(), ret) == N.Transmit(link, old(Value()), frame)
    {
      ret := link(sends);
      sends := sends + 1;
      if ret >= 0 {
        sent := sent + [frame];
      }
    }

    method AnswerPing()
      requires Valid()
      modifies this
      ensures Valid() && Value() == N.AnswerPing(link, old(Value()))
    {
      if !online || !pingPending {
        return;
      }
      pingPending := false;
      var ret := Send(N.PongFrame(Header(PONG, pingSequence, 0), pingSequence));
      if ret < 0 {
        pingPending := true;
      }
    }

    /** Command, watchdog and PING, in this order. */
    method Process(tCommand: nat, tWatchdog: nat)
      requires Valid()
      modifies this, motor
      ensures Valid()
      ensures var c1 := if old(mailbox).None? then old(Core())
                        else C.Apply(motor.board, old(Core()), old(mailbox).value, tCommand).0;
              Value() == N.AnswerPing(link, old(Value())).(
                mailbox := None, core := C.Watchdog(c1, tWatchdog))
    {
      hide C.Apply, C.Watchdog;
      ProcessPendingCommand(tCommand);
      ProcessRemoteTimeout(tWatchdog);
      AnswerPing();
    }

    method LatchRemoteStop()
      modifies this`latched
      ensures latched == (old(latched) || remote)
    {
      if remote {
        latched := true;
      }
    }

    method ClearRemoteStop()
      modifies this`latched
      ensures !latched
    {
      latched := false;
    }

    method MotorStateFlags() returns (flags: word)
      ensures flags == M4Snapshot.Flags(Core())
    {
      flags := 128;
      flags := flags + if remote then 64 else 32;
      if timedOut {
        flags := flags + 256;
      }
      if latched {
        flags := flags + 512;
      }
      match motor.state {
        case Disabled => flags := flags + 1;
        case Ready => flags := flags + 2;
        case Running => flags := flags + 4;
        case Stopping => flags := flags + 8;
        case Fault => flags := flags + 16;
      }
    }

    method StateWords(buttons: word, raw: word, loopTime: word, now: nat) returns (words: seq<word>)
      ensures words == M4Snapshot.StateWords(Core(), buttons, raw, loopTime, now, heartbeat)
    {
      hide M4Snapshot.Flags;
      var flags := MotorStateFlags();
      var direction: word := if motor.direction == M.Forward then 0 else 1;
      var age: word := if remote then U16(U32(U32(now) - stamp)) else 0;
      words := [flags, motor.duty, motor.target, direction, U16(motor.lastError), buttons, raw, age,
                loopTime, heartbeat, lastAccepted, 0];
    }

    method PublishMotorState(buttons: word, raw: word, loopTime: word, now: nat)
      requires Valid() && loopTime == M.LOOP_MS
      modifies this
      ensures Valid() && Value() == N.Publish(link, old(Value()), buttons, raw, now)
    {
      hide M4Snapshot.StateWords, Frame, N.Transmit;
      if !online {
        return;
      }
      WrappingIncrement(published);
      hide U16, U32;
      published := published + 1;
      stateSequence := U32(stateSequence + 1);
      heartbeat := U16(heartbeat + 1);
      var words := StateWords(buttons, raw, loopTime, now);
      var _ := Send(N.StateFrame(Frame(MOTOR_STATE, stateSequence, words), published));
    }
  }

  // ----- The main loop -----

  class Application {
    const bank: ButtonBank
    const potentiometer: Potentiometer
    const ipc: RemoteControl
    const motor: Controller

    ghost predicate Valid()
      reads this, ipc
    {
      ipc.motor == motor && bank.buttons.Length == N.BUTTONS && ipc.Valid()
    }

    ghost function Value(): N.M4
      reads this, bank, bank.buttons, potentiometer, ipc, motor, ipc.motor
    {
      N.M4(ipc.Value(), bank.buttons[..], potentiometer.Value())
    }

    constructor (board: M.Board, outputs: M.Pins, link: nat -> int)
      ensures Valid() && motor.board == board && ipc.link == link
      ensures fresh(bank.buttons) && fresh(potentiometer) && fresh(ipc) && fresh(motor)
      ensures Value() == N.PowerUp(motor.Value(), false)
      ensures motor.Value().wire == [outputs] && motor.Value().state == M.Disabled
    {
      var m := new Controller(board, outputs);
      motor := m;
      ipc := new RemoteControl(m, link);
      bank := new ButtonBank();
      potentiometer := new Potentiometer();
    }

    /** STOP has priority over RESET, and both over the local commands. */
    method Arbitrate(events: word, ghost e: C.Event)
      requires Valid()
      requires e.stop == (events / 2 % 2 == 1) && e.reset == (events / 8 % 2 == 1)
      requires e.toggle == (events / 4 % 2 == 1) && e.start == (events % 2 == 1)
      modifies ipc, motor
      ensures Valid()
      ensures ipc.Value() ==
              old(ipc.Value()).(core := C.Arbitrate(motor.board, old(ipc.Core()), e))
    {
      hide M.Start, M.Reset;
      if events / 2 % 2 == 1 {
        ipc.LatchRemoteStop();
        var _ := motor.Stop();
      } else if events / 8 % 2 == 1 {
        ipc.ClearRemoteStop();
        var _ := motor.Reset();
      } else if !ipc.remote {
        if events / 4 % 2 == 1 {
          var _ := motor.ToggleDirection();
        }
        if events % 2 == 1 {
          var _ := motor.Start();
        }
      }
    }

    method ApplyReading(ret: int, requested: word)
      requires Valid()
      modifies ipc, motor
      ensures Valid()
      ensures ipc.Value() == old(ipc.Value()).(
                core := C.Potentiometer(motor.board, old(ipc.Core()),
                                        if ret < 0 then C.Failed(ret) else C.Sampled(requested)))
    {
      hide M.RecordFault;
      if ret < 0 {
        motor.Fail(ret);
      } else if !ipc.remote {
        var _ := motor.SetTargetDuty(requested);
      }
    }

    /** One iteration of the endless loop. */
    method Iterate(i: N.Input)
      requires Valid() && N.ValidInput(i)
      modifies bank.buttons, potentiometer, ipc, motor
      ensures Valid() && Value() == N.Iterate(motor.board, ipc.link, old(Value()), i)
    {
      hide C.Apply, C.Watchdog, C.Potentiometer, C.Arbitrate, M.Process, N.AnswerPing, N.Publish;
      hide N.Mask, PotFilter.Acquire;
      ghost var e := N.EventOf(Value(), i);
      N.MaskBits(N.Presses(bank.buttons[..], i.readings));
      var events := bank.Poll(i.readings);
      var ret, requested := potentiometer.Poll(i.adcSetup, i.adcRead, i.sample);
      ipc.Process(i.tCommand, i.tWatchdog);
      ApplyReading(ret, requested);
      Arbitrate(events, e);
      var _ := motor.Process(M.LOOP_MS);
      var pressed := bank.GetState();
      ipc.PublishMotorState(pressed, potentiometer.raw, M.LOOP_MS, i.tPublish);
    }

    /** A frame or a change of the link between two passes, or a pass. */
    method Handle(h: N.Happening)
      requires Valid() && N.ValidHappening(h)
      modifies bank.buttons, potentiometer, ipc, motor
      ensures Valid() && Value() == N.Happen(motor.board, ipc.link, old(Value()), h)
    {
      hide N.Iterate, N.Receive;
      match h
      case Arrival(bytes) => ipc.Received(bytes);
      case Iteration(input) => Iterate(input);
      case Binding(online) => ipc.online := online;
    }

    /** Any run of passes, with frames arriving and the link changing between them. */
    method Loop(hs: seq<N.Happening>)
      requires Valid() && N.AllValid(hs)
      modifies bank.buttons, potentiometer, ipc, motor
      ensures Valid()
      ensures Value() == N.HappenAll(motor.board, ipc.link, old(Value()), hs)
    {
      hide N.Happen;
      N.ValidPrefix(hs, 0);
      for k := 0 to |hs|
        invariant Valid() && N.AllValid(hs[..k])
        invariant Value() == N.HappenAll(motor.board, ipc.link, old(Value()), hs[..k])
      {
        N.ValidPrefix(hs, k);
        N.ValidPrefix(hs, k + 1);
        assert hs[..k + 1][..k] == hs[..k];
        Handle(hs[k]);
      }
      assert hs[..|hs|] == hs;
    }
  }
}
