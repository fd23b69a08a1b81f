/** Properties that cross every layer: from a scanner image to the motor and back, and from the raw
    STOP contact to a stopped motor. */
module EndToEnd {
  import opened Words
  import opened Options
  import opened Contract
  import M = MotorModel
  import K = M4Core
  import T = M4Safety
  import Commands = M4Commands
  import N = M4Node
  import D = Debounce
  import Snapshot = M4Snapshot
  import G = GatewayModel
  import R = RegisterModel
  import S = ScannerModel

  // ----- From the image to the frame -----

  /** The command an Output image stands for under the default mappings. */
  function ImageCommand(image: seq<word>, regs: R.Registers, number: nat): Command
    requires |image| == R.SLOTS
  {
    Command(image[0], image[1], regs[R.MOTOR_ACCEL], regs[R.MOTOR_DECEL],
            ModeWord(true, SOURCE_MODBUS), regs[R.MOTOR_TIMEOUT], U16(U32(number)))
  }

  /** The tables of a freshly started M7. */
  ghost predicate DefaultTables(m: R.M7) {
    && m.regs[R.INPUT_MAP..R.OUTPUT_MAP] == [24, 21, R.FREE, R.FREE, R.FREE]
    && m.regs[R.OUTPUT_MAP..R.OUTPUT_MAP + R.SLOTS] == [11, 13, 12, R.FREE, R.FREE]
  }

  lemma SubmitSends(env: R.Env, g: G.Gateway, s: G.Submission)
    requires G.Submittable(s) && s.remote && s.source == SOURCE_MODBUS
    requires g.online && env.link(g.tries) >= 0
    ensures var n := g.counter + 1;
            var c := Command(s.control, s.duty, s.accel, s.decel, ModeWord(true, SOURCE_MODBUS),
                             s.timeout, U16(U32(n)));
            var (r, ret) := G.Submit(env.link, g, s);
            && ret >= 0 && r.counter == n && r.armed && r.stored.enabled
            && r.sent == g.sent + [G.SentCommand(EncodeCommand(c, U32(n)), n)]
  {
  }

  lemma FreeSlot(env: R.Env, s: S.Server, addr: word, reg: word)
    requires S.Shaped(s) && s.scanner.attached && addr < R.SLOTS
    requires s.m.regs[R.OUTPUT_MAP + addr] == R.FREE
    ensures var (r, ret) := S.OutputWrite(env, s, addr, reg);
            && ret == 0 && r.m == s.m && S.Shaped(r)
            && r.scanner.attached && r.scanner.inputs == s.scanner.inputs
  {
  }

  /** The first three slots under the default mappings. */
  lemma ThreeSlots(env: R.Env, s: S.Server, image: seq<word>)
    requires S.Shaped(s) && s.scanner.attached && |image| == R.SLOTS && image[2] == 1
    requires DefaultTables(s.m) && s.m.gateway.online && env.link(s.m.gateway.tries) >= 0
    requires InRange(image[1], s.m.regs[R.MOTOR_ACCEL], s.m.regs[R.MOTOR_DECEL], s.m.regs[R.MOTOR_TIMEOUT])
    ensures var (r, k, ok) := S.Receive(env, s, image, 3);
            var n := s.m.gateway.counter + 1;
            && ok && S.Shaped(r) && r.scanner.attached && r.scanner.inputs == s.scanner.inputs
            && DefaultTables(r.m)
            && r.m.gateway.sent == s.m.gateway.sent
                 + [G.SentCommand(EncodeCommand(ImageCommand(image, s.m.regs, n), U32(n)), n)]
            && r.m.regs[R.COMMAND_STATUS] == 0
  {
    hide EncodeCommand, ModeWord, G.Submit;
    var t := s.m.regs;
    assert t[R.OUTPUT_MAP] == 11 && t[R.OUTPUT_MAP + 1] == 13 && t[R.OUTPUT_MAP + 2] == 12;
    var s1 := s.(m := s.m.(regs := t[R.MOTOR_CONTROL := image[0]]));
    assert S.OutputWrite(env, s, 0, image[0]) == (s1, 0);
    assert S.Receive(env, s, image, 0) == (s, 0, true);
    assert S.Receive(env, s, image, 1) == (s1, 1, true);
    var s2 := s1.(m := s1.m.(regs := s1.m.regs[R.MOTOR_DUTY := image[1]]));
    assert S.OutputWrite(env, s1, 1, image[1]) == (s2, 0);
    assert S.Receive(env, s, image, 2) == (s2, 2, true);
    hide S.Receive, ImageCommand;
    SameRamps(image, s2.m.regs, t, s.m.gateway.counter + 1);
    ApplySlot(env, s2, image);
    ReceiveNext(env, s, image, 2);
  }

  lemma SameRamps(image: seq<word>, regs: R.Registers, regs': R.Registers, number: nat)
    requires |image| == R.SLOTS && regs[R.MOTOR_ACCEL] == regs'[R.MOTOR_ACCEL]
    requires regs[R.MOTOR_DECEL] == regs'[R.MOTOR_DECEL] && regs[R.MOTOR_TIMEOUT] == regs'[R.MOTOR_TIMEOUT]
    ensures ImageCommand(image, regs, number) == ImageCommand(image, regs', number)
  {
  }

  /** The APPLY slot, once control and duty are staged. */
  lemma ApplySlot(env: R.Env, s: S.Server, image: seq<word>)
    requires S.Shaped(s) && s.scanner.attached && |image| == R.SLOTS && image[2] == 1
    requires DefaultTables(s.m) && s.m.gateway.online && env.link(s.m.gateway.tries) >= 0
    requires s.m.regs[R.MOTOR_CONTROL] == image[0] && s.m.regs[R.MOTOR_DUTY] == image[1]
    requires InRange(image[1], s.m.regs[R.MOTOR_ACCEL], s.m.regs[R.MOTOR_DECEL], s.m.regs[R.MOTOR_TIMEOUT])
    ensures var (r, ret) := S.OutputWrite(env, s, 2, image[2]);
            var n := s.m.gateway.counter + 1;
            && ret == 0 && S.Shaped(r) && r.scanner == s.scanner && DefaultTables(r.m)
            && r.m.gateway.sent == s.m.gateway.sent
                 + [G.SentCommand(EncodeCommand(ImageCommand(image, s.m.regs, n), U32(n)), n)]
            && r.m.regs[R.COMMAND_STATUS] == 0
  {
    hide EncodeCommand, ModeWord, G.Submit;
    var t := s.m.regs;
    assert t[R.OUTPUT_MAP + 2] == s.m.regs[R.OUTPUT_MAP..R.OUTPUT_MAP + R.SLOTS][2];
    var m3 := s.m.(regs := t[R.MOTOR_MODE := 1]);
    assert R.Write(env, s.m, R.MOTOR_MODE, 1) == (m3, 0);
    SubmitSends(env, m3.gateway, R.Staged(m3.regs));
    R.ApplyFrame(env, m3);
    var (m4, ret) := R.Apply(env, m3);
    assert ret == 0 && R.Write(env, m3, R.MOTOR_APPLY, 1) == (m4, 0);
    assert S.OutputWrite(env, s, 2, 1) == (s.(m := m4), 0);
  }

  lemma ReceiveNext(env: R.Env, s: S.Server, image: seq<word>, n: nat)
    requires |s.scanner.outputs| == R.SLOTS && n < |image| <= R.SLOTS
    requires S.Receive(env, s, image, n).2
    ensures var (r, ret) := S.OutputWrite(env, S.Receive(env, s, image, n).0, n, image[n]);
            S.Receive(env, s, image, n + 1) == (r, n + 1, ret >= 0)
  {
  }

  /** A PLC that raises APPLY under the default mappings sends exactly one command frame, made of its
      control and duty words and the staged ramps and timeout. */
  lemma ImageToFrame(env: R.Env, s: S.Server, image: seq<word>)
    requires S.Shaped(s) && s.scanner.attached && |image| == R.SLOTS && image[2] == 1
    requires DefaultTables(s.m) && s.m.gateway.online && env.link(s.m.gateway.tries) >= 0
    requires InRange(image[1], s.m.regs[R.MOTOR_ACCEL], s.m.regs[R.MOTOR_DECEL], s.m.regs[R.MOTOR_TIMEOUT])
    ensures var (r, k, ok) := S.Receive(env, s, image, R.SLOTS);
            var n := s.m.gateway.counter + 1;
            && ok && S.Shaped(r) && r.scanner.attached && r.scanner.inputs == s.scanner.inputs
            && DefaultTables(r.m) && r.m.regs[R.COMMAND_STATUS] == 0
            && r.m.gateway.sent == s.m.gateway.sent
                 + [G.SentCommand(EncodeCommand(ImageCommand(image, s.m.regs, n), U32(n)), n)]
  {
    hide EncodeCommand, ImageCommand;
    ThreeSlots(env, s, image);
    var s3 := S.Receive(env, s, image, 3).0;
    hide S.Receive;
    ReceiveNext(env, s, image, 3);
    assert s3.m.regs[R.OUTPUT_MAP + 3] == R.FREE && s3.m.regs[R.OUTPUT_MAP + 4] == R.FREE;
    FreeSlot(env, s3, 3, image[3]);
    hide S.OutputWrite;
    ReceiveNext(env, s, image, 4);
    FreeSlot(env, S.Receive(env, s, image, 4).0, 4, image[4]);
  }

  // ----- The whole way, and back -----

  /** The frame the image sends. */
  function ImageFrame(image: seq<word>, regs: R.Registers, number: nat): seq<byte>
    requires |image| == R.SLOTS
  {
    EncodeCommand(ImageCommand(image, regs, number), U32(number))
  }

  /** The M4's reading of that frame: the command itself, or nothing if the PLC set an undefined
      control bit, which the M7 passes on and reports as a success. */
  lemma ImageFrameReceived(image: seq<word>, regs: R.Registers, number: nat)
    requires |image| == R.SLOTS
    requires InRange(image[1], regs[R.MOTOR_ACCEL], regs[R.MOTOR_DECEL], regs[R.MOTOR_TIMEOUT])
    ensures ReceiveOnM4(ImageFrame(image, regs, number)) ==
            if image[0] < CONTROL_LIMIT then CommandRequest(ImageCommand(image, regs, number)) else Ignored
  {
    hide ReceiveOnM4, EncodeCommand;
    ReceiveEncoded(ImageCommand(image, regs, number), U32(number));
  }

  /** What must hold on the M4's side for a command to be carried out, in time and undisturbed, in the
      next iteration. */
  ghost predicate WillObey(b: M.Board, m4: N.M4, i: N.Input, timeout: word, base: nat) {
    && |m4.bank| == N.BUTTONS && N.ValidInput(i)
    && K.Sound(b, m4.node.core, base) && (forall k: nat :: b.rc(k) >= 0)
    && !D.Press(m4.bank[N.STOP], i.readings[N.STOP]) && !D.Press(m4.bank[N.RESET], i.readings[N.RESET])
    && i.adcSetup >= 0 && i.adcRead >= 0
    && i.tCommand <= i.tWatchdog <= i.tCommand + timeout
  }

  /** ... and for one to start the motor and be answered. */
  ghost predicate WillStart(b: M.Board, link: nat -> int, m4: N.M4, i: N.Input, timeout: word, base: nat) {
    && WillObey(b, m4, i, timeout, base)
    && m4.node.core.motor.state == M.Ready && !m4.node.core.latched
    && (forall k: nat :: link(k) >= 0) && m4.node.online
  }

  /** The last frame reports this core. */
  ghost predicate ReportsCore(n: N.Node) {
    && |n.sent| > 0
    && var report := ReceiveOnM7(Last(n.sent).bytes);
    && report.StateReport? && |report.words| == STATE_WORDS
    && report.words[1] == n.core.motor.duty && report.words[4] == U16(n.core.motor.lastError)
    && report.words[10] == n.core.lastAccepted
  }

  lemma PublishReports(link: nat -> int, n: N.Node, buttons: word, raw: word, now: nat)
    requires n.online && forall k: nat :: link(k) >= 0
    ensures ReportsCore(N.Publish(link, n, buttons, raw, now))
  {
    hide Frame, ReceiveOnM7, K.Age, Snapshot.Flags;
    var number := n.published + 1;
    var words := Snapshot.StateWords(n.core, buttons, raw, 10, now, U16(number));
    assert Last(N.Publish(link, n, buttons, raw, now).sent)
           == N.StateFrame(Frame(MOTOR_STATE, U32(number), words), number);
    ReplyRoundTrip(U32(number), words);
  }

  /** What the M4 publishes at the end of an iteration. */
  lemma IteratePublishes(b: M.Board, link: nat -> int, m: N.M4, i: N.Input)
    requires |m.bank| == N.BUTTONS && N.ValidInput(i) && m.node.online && forall k: nat :: link(k) >= 0
    ensures ReportsCore(N.Iterate(b, link, m, i).node)
  {
    hide K.Step, Header, N.EventOf, N.Mask, N.PollPot, N.Publish, ReportsCore;
    var n1 := N.AnswerPing(link, m.node);
    var n2 := n1.(core := K.Step(b, m.node.core, N.EventOf(m, i)), mailbox := None);
    assert n2.online;
    PublishReports(link, n2, N.StableMask(N.Sampled4(m.bank, i.readings)), N.PollPot(m.pot, i).0.raw, i.tPublish);
  }

  /** The motor runs as the command asks. */
  ghost predicate Obeys(motor: M.Motor, cmd: Command) {
    && motor.state == M.Running && motor.target == cmd.duty && motor.direction == K.Wanted(cmd)
    && M.Drives(M.Outputs(motor), motor.direction)
    && motor.accel == cmd.accel && motor.decel == cmd.decel
  }

  /** The last frame is a state report that acknowledges `sequence`, with no fault and full duty. */
  ghost predicate Confirms(sent: seq<N.Report>, sequence: word) {
    && |sent| > 0
    && var report := ReceiveOnM7(Last(sent).bytes);
    && report.StateReport? && |report.words| == STATE_WORDS
    && report.words[1] == 1000 && report.words[4] == 0 && report.words[10] == sequence
  }

  /** From the PLC's output words to the motor. With the default tables, an image
      [control, duty, 1, *, *] that asks to run starts a ready motor in the next iteration, in the
      direction and toward the duty the PLC asked for, with the staged ramps, and the M4 then
      acknowledges the number the M7 gave the command. With an undefined control bit the M7 still
      reports success, and the M4 does nothing. */
  lemma PlcStartsMotor(env: R.Env, s: S.Server, image: seq<word>, b: M.Board, link: nat -> int,
                       m4: N.M4, i: N.Input, base: nat)
    returns (r: S.Server, node: N.Node, after: N.M4)
    requires S.Shaped(s) && s.scanner.attached && |image| == R.SLOTS && image[2] == 1
    requires DefaultTables(s.m) && s.m.gateway.online && env.link(s.m.gateway.tries) >= 0
    requires InRange(image[1], s.m.regs[R.MOTOR_ACCEL], s.m.regs[R.MOTOR_DECEL], s.m.regs[R.MOTOR_TIMEOUT])
    requires WillStart(b, link, m4, i, s.m.regs[R.MOTOR_TIMEOUT], base)
    requires Commands.PlainRun(ImageCommand(image, s.m.regs, s.m.gateway.counter + 1))
    ensures S.Receive(env, s, image, R.SLOTS) == (r, R.SLOTS, true)
    ensures r.m.regs[R.COMMAND_STATUS] == 0 && S.Shaped(r) && r.scanner.attached && DefaultTables(r.m)
    ensures r.scanner.inputs == s.scanner.inputs
    ensures |r.m.gateway.sent| == |s.m.gateway.sent| + 1
    ensures node == N.Receive(m4.node, Last(r.m.gateway.sent).bytes)
    ensures |m4.bank| == N.BUTTONS && N.ValidInput(i) && after == N.Iterate(b, link, m4.(node := node), i)
    ensures image[0] >= CONTROL_LIMIT ==> node == m4.node
    ensures image[0] < CONTROL_LIMIT ==>
              var cmd := ImageCommand(image, s.m.regs, s.m.gateway.counter + 1);
              Obeys(after.node.core.motor, cmd) && Confirms(after.node.sent, cmd.sequence)
  {
    var number := s.m.gateway.counter + 1;
    hide S.Receive, EncodeCommand, ReceiveOnM4, K.Sound, N.Iterate, Obeys, Confirms, Commands.PlainRun, InRange;
    ImageToFrame(env, s, image);
    r := S.Receive(env, s, image, R.SLOTS).0;
    ImageFrameReceived(image, s.m.regs, number);
    node := N.Receive(m4.node, Last(r.m.gateway.sent).bytes);
    after := N.Iterate(b, link, m4.(node := node), i);
    if image[0] < CONTROL_LIMIT {
      var command := ImageCommand(image, s.m.regs, number);
      ImageCommandAcceptable(image, s.m.regs, number);
      CommandRuns(b, link, m4.(node := node), i, command, base);
    }
  }

  lemma ImageCommandAcceptable(image: seq<word>, regs: R.Registers, number: nat)
    requires |image| == R.SLOTS && image[0] < CONTROL_LIMIT
    requires InRange(image[1], regs[R.MOTOR_ACCEL], regs[R.MOTOR_DECEL], regs[R.MOTOR_TIMEOUT])
    ensures Acceptable(ImageCommand(image, regs, number))
    ensures ImageCommand(image, regs, number).mode != MODE_LOCAL
  {
  }

  /** ... and back: once the M7 has received that report, the PLC's input words show no fault and
      full duty. */
  lemma PlcReadsBack(s: S.Server, sent: seq<N.Report>, sequence: word)
    requires S.Shaped(s) && s.scanner.attached && DefaultTables(s.m)
    requires s.scanner.inputs == [0, 0, 0, 0, 0] && Confirms(sent, sequence)
    ensures S.InputImage(s.(m := s.m.(report := Some(ReceiveOnM7(Last(sent).bytes).words))))
            == [0, 1000, 0, 0, 0]
  {
  }

  /** The M4's part of it. */
  lemma CommandRuns(b: M.Board, link: nat -> int, m4: N.M4, i: N.Input, cmd: Command, base: nat)
    requires WillStart(b, link, m4, i, cmd.timeout, base)
    requires m4.node.mailbox == Some(cmd) && Acceptable(cmd) && Commands.PlainRun(cmd) && cmd.mode != MODE_LOCAL
    ensures var after := N.Iterate(b, link, m4, i);
            Obeys(after.node.core.motor, cmd) && Confirms(after.node.sent, cmd.sequence)
  {
    hide K.Sound, K.Step, ReceiveOnM7, N.Iterate, Acceptable, N.EventOf, D.Press, K.Wanted;
    hide Commands.PlainRun, M.Drives;
    N.IterateCore(b, link, m4, i);
    EventIsQuiet(m4, i);
    IteratePublishes(b, link, m4, i);
    Commands.StartCommand(b, m4.node.core, N.EventOf(m4, i), base);
  }

  /** What the documented control words make of a motor, by the state it was in. */
  ghost predicate Follows(control: word, duty: word, decel: word, before: K.Core, after: K.Core) {
    var ready := before.motor.state == M.Ready;
    && (control in {3, 7} && ready && !before.latched ==>
          && after.motor.state == M.Running && after.motor.target == duty
          && M.Drives(M.Outputs(after.motor), if control == 3 then M.Forward else M.Direction.Reverse))
    && (control in {1, 5} && before.motor.state in {M.Running, M.Stopping} ==>
          && after.motor.direction == before.motor.direction
          && after.motor.duty == T.Less(before.motor.duty, M.RampStep(decel, M.LOOP_MS)))
    && (control in {1, 5} && ready ==>
          && after.motor.state == M.Ready
          && after.motor.direction == if control == 1 then M.Forward else M.Direction.Reverse)
    && (control == 17 && before.motor.state != M.Fault ==>
          after.motor.state == M.Ready && M.Released(M.Outputs(after.motor)))
    && (control == 9 ==>
          && after.motor.state == M.Ready && after.motor.lastError == 0
          && after.motor.direction == M.Forward && !after.latched)
  }

  /** The PLC's own words: [3, duty, 1, *, *] runs a ready motor forward toward that duty and 7 in
      reverse; 1 and 5 ramp a turning motor down, and turn a ready one; 17 leaves no motor turning;
      9 clears a fault and the latch. */
  lemma PlcWords(env: R.Env, s: S.Server, image: seq<word>, b: M.Board, link: nat -> int,
                 m4: N.M4, i: N.Input, base: nat)
    requires S.Shaped(s) && s.scanner.attached && |image| == R.SLOTS && image[2] == 1
    requires DefaultTables(s.m) && s.m.gateway.online && env.link(s.m.gateway.tries) >= 0
    requires InRange(image[1], s.m.regs[R.MOTOR_ACCEL], s.m.regs[R.MOTOR_DECEL], s.m.regs[R.MOTOR_TIMEOUT])
    requires WillObey(b, m4, i, s.m.regs[R.MOTOR_TIMEOUT], base) && image[0] < CONTROL_LIMIT
    ensures |S.Receive(env, s, image, R.SLOTS).0.m.gateway.sent| == |s.m.gateway.sent| + 1
    ensures var frame := Last(S.Receive(env, s, image, R.SLOTS).0.m.gateway.sent).bytes;
            |m4.bank| == N.BUTTONS && N.ValidInput(i)
            && Follows(image[0], image[1], s.m.regs[R.MOTOR_DECEL], m4.node.core,
                       N.Iterate(b, link, m4.(node := N.Receive(m4.node, frame)), i).node.core)
  {
    var number := s.m.gateway.counter + 1;
    hide S.Receive, EncodeCommand, ReceiveOnM4, K.Sound, N.Iterate, InRange, Follows, D.Press;
    ImageToFrame(env, s, image);
    ImageFrameReceived(image, s.m.regs, number);
    ImageCommandAcceptable(image, s.m.regs, number);
    var node := N.Receive(m4.node, ImageFrame(image, s.m.regs, number));
    CommandFollows(b, link, m4.(node := node), i, ImageCommand(image, s.m.regs, number), base);
  }

  /** The M4's part of it. */
  lemma CommandFollows(b: M.Board, link: nat -> int, m4: N.M4, i: N.Input, cmd: Command, base: nat)
    requires WillObey(b, m4, i, cmd.timeout, base)
    requires m4.node.mailbox == Some(cmd) && Acceptable(cmd) && cmd.mode != MODE_LOCAL
    ensures Follows(cmd.control, cmd.duty, cmd.decel, m4.node.core, N.Iterate(b, link, m4, i).node.core)
  {
    hide K.Sound, K.Step, N.Iterate, N.EventOf, D.Press, Acceptable, M.RampStep, M.Drives;
    N.IterateCore(b, link, m4, i);
    EventIsQuiet(m4, i);
    Commands.DocumentedCommands(b, m4.node.core, N.EventOf(m4, i), base);
  }

  lemma EventIsQuiet(m4: N.M4, i: N.Input)
    requires |m4.bank| == N.BUTTONS && N.ValidInput(i) && i.adcSetup >= 0 && i.adcRead >= 0
    requires !D.Press(m4.bank[N.STOP], i.readings[N.STOP]) && !D.Press(m4.bank[N.RESET], i.readings[N.RESET])
    ensures var e := N.EventOf(m4, i);
            && e.command == m4.node.mailbox && e.reading.Sampled? && !e.stop && !e.reset
            && e.tCommand == i.tCommand && e.tWatchdog == i.tWatchdog
  {
  }

  // ----- From the STOP contact -----

  /** A debounced press of RESET without one of STOP, or a command that is local, resets a fault or
      quick-stops, at iteration `i`. */
  ghost predicate ReleasedAt(hs: seq<N.Happening>, es: seq<K.Event>, i: nat)
    requires N.AllValid(hs) && i < |es|
    requires forall k :: 0 <= k < N.BUTTONS ==> |N.Column(hs, k)| == |es|
  {
    || (D.PressAt(N.Column(hs, N.RESET), i) && !D.PressAt(N.Column(hs, N.STOP), i))
    || (es[i].command.Some? &&
          (es[i].command.value.mode == MODE_LOCAL || es[i].command.value.ResetFault()
           || es[i].command.value.QuickStop()))
  }

  /** Over any run of the whole M4: once the raw readings of the STOP contact show a press while a
      remote command is in control, the motor is not RUNNING, and stays latched, at the end of that
      iteration and of every later one, until the raw readings of RESET show a press or a releasing
      command is processed. */
  lemma PhysicalStop(b: M.Board, link: nat -> int, motor: M.Motor, online: bool, hs: seq<N.Happening>,
                     n: nat, base: nat)
    requires N.AllValid(hs) && K.Sound(b, K.Boot(motor), base)
    requires var es := N.Events(b, link, N.PowerUp(motor, online), hs);
             && (forall k :: 0 <= k < N.BUTTONS ==> |N.Column(hs, k)| == |es|)
             && n < |es|
             && K.Ipc(b, K.Steps(b, K.Boot(motor), es[..n]), es[n]).remote
             && D.PressAt(N.Column(hs, N.STOP), n)
             && forall i :: n < i < |es| ==> !ReleasedAt(hs, es, i)
    ensures var core := N.HappenAll(b, link, N.PowerUp(motor, online), hs).node.core;
            core.motor.state != M.Running && core.latched && core.remote
  {
    var es := N.Events(b, link, N.PowerUp(motor, online), hs);
    N.RunRefinesCore(b, link, motor, online, hs);
    N.EventsAreDebounced(b, link, motor, online, hs, n);
    hide K.Ipc, K.Sound, K.Step, K.Steps, D.PressAt, N.HappenAll, N.Column, N.Events;
    forall i | n < i < |es|
      ensures !T.Releases(es[i])
    {
      N.EventsAreDebounced(b, link, motor, online, hs, i);
      assert !ReleasedAt(hs, es, i);
    }
    StopHolds(b, K.Boot(motor), es, n, base);
  }

  lemma StopHolds(b: M.Board, boot: K.Core, es: seq<K.Event>, n: nat, base: nat)
    requires K.Sound(b, boot, base) && K.AllLegal(es) && n < |es|
    requires es[n].stop && K.Ipc(b, K.Steps(b, boot, es[..n]), es[n]).remote
    requires forall i :: n < i < |es| ==> !T.Releases(es[i])
    ensures var core := K.Steps(b, boot, es);
            core.motor.state != M.Running && core.latched && core.remote
  {
    hide K.Ipc, K.Sound, K.Step, K.Steps, T.Releases;
    K.StepsKeep(b, boot, es[..n], base);
    var before := K.Steps(b, boot, es[..n]);
    T.StopLatches(b, before, es[n], base);
    K.StepKeeps(b, before, es[n], base);
    OneMore(b, boot, es, n);
    var rest := es[n + 1..];
    assert forall i :: 0 <= i < |rest| ==> rest[i] == es[n + 1 + i];
    T.LatchHolds(b, K.Step(b, before, es[n]), rest, base);
    T.StepsCompose(b, boot, es[..n + 1], rest);
    assert es == es[..n + 1] + rest;
  }

  lemma OneMore(b: M.Board, c: K.Core, es: seq<K.Event>, n: nat)
    requires n < |es|
    ensures K.Steps(b, c, es[..n + 1]) == K.Step(b, K.Steps(b, c, es[..n]), es[n])
  {
    hide K.Step;
    assert es[..n + 1][..n] == es[..n];
  }

  // ----- The register module is a client of the link -----

  lemma OneLinkOp(env: R.Env, m: R.M7, op: R.Op) returns (gs: seq<G.Op>)
    requires R.ValidOp(op)
    ensures |gs| <= 1 && (|gs| == 1 ==> G.ValidOp(gs[0]))
    ensures R.Do(env, m, op).gateway == if |gs| == 0 then m.gateway else G.Do(env.link, m.gateway, gs[0])
  {
    hide G.Submit, G.Send;
    gs := match op
      case OpWrite(addr, reg) =>
        if addr == R.MOTOR_APPLY && reg == 1 then [G.OpSubmit(R.Staged(m.regs))] else []
      case OpReport(_) => []
      case OpConfigChanged(_) => []
      case _ => [R.LinkOp(op)];
  }

  lemma LinkAppend(env: R.Env, g: G.Gateway, gs: seq<G.Op>, one: seq<G.Op>)
    requires |one| <= 1
    ensures G.DoAll(env.link, g, gs + one) ==
            var r := G.DoAll(env.link, g, gs); if |one| == 0 then r else G.Do(env.link, r, one[0])
  {
    hide G.Do;
    if |one| == 0 {
      assert gs + one == gs;
    } else {
      assert (gs + one)[..|gs|] == gs;
    }
  }

  lemma {:induction false} RunUsesTheLink(env: R.Env, m: R.M7, ops: seq<R.Op>) returns (gs: seq<G.Op>)
    requires forall i :: 0 <= i < |ops| ==> R.ValidOp(ops[i])
    ensures forall i :: 0 <= i < |gs| ==> G.ValidOp(gs[i])
    ensures R.DoAll(env, m, ops).gateway == G.DoAll(env.link, m.gateway, gs)
    decreases |ops|
  {
    hide R.Do, G.Do;
    if |ops| == 0 {
      gs := [];
    } else {
      var init := ops[..|ops| - 1];
      gs := RunUsesTheLink(env, m, init);
      var one := OneLinkOp(env, R.DoAll(env, m, init), Last(ops));
      LinkAppend(env, m.gateway, gs, one);
      assert R.DoAll(env, m, ops) == R.Do(env, R.DoAll(env, m, init), Last(ops));
      hide G.DoAll, R.DoAll;
      gs := gs + one;
    }
  }

  /** Over any run of the registers from start-up, the link has gone through a run of its own
      operations: everything proved of link runs, between the cores too, holds for it. */
  lemma RegistersUseTheLink(env: R.Env, saved: R.TenWords, ops: seq<R.Op>) returns (gs: seq<G.Op>)
    requires forall i :: 0 <= i < |ops| ==> R.ValidOp(ops[i])
    ensures forall i :: 0 <= i < |gs| ==> G.ValidOp(gs[i])
    ensures R.DoAll(env, R.Startup(saved), ops).gateway == G.DoAll(env.link, G.POWER_UP, gs)
  {
    hide R.DoAll, G.DoAll;
    gs := RunUsesTheLink(env, R.Startup(saved), ops);
  }

  // ----- Silence -----

  /** No accepted command arrives. */
  predicate Silent(h: N.Happening) {
    h.Arrival? ==> !ReceiveOnM4(h.bytes).CommandRequest?
  }

  lemma SilentStep(b: M.Board, link: nat -> int, m: N.M4, h: N.Happening)
    requires |m.bank| == N.BUTTONS && N.ValidHappening(h) && Silent(h) && m.node.mailbox.None?
    ensures N.Happen(b, link, m, h).node.mailbox.None?
    ensures h.Iteration? ==> N.EventOf(m, h.input).command.None?
  {
    hide K.Step, ReceiveOnM4;
    if h.Iteration? {
      N.IterateCore(b, link, m, h.input);
      hide N.Iterate;
    }
  }

  /** Once the mailbox is empty and no command arrives, the iterations process none. */
  lemma {:induction false} SilentEvents(b: M.Board, link: nat -> int, m: N.M4, hs: seq<N.Happening>, n: nat)
    requires |m.bank| == N.BUTTONS && N.AllValid(hs) && n <= |hs| && N.AllValid(hs[..n])
    requires N.HappenAll(b, link, m, hs[..n]).node.mailbox.None?
    requires forall i :: n <= i < |hs| ==> Silent(hs[i])
    ensures N.HappenAll(b, link, m, hs).node.mailbox.None?
    ensures var pre, es := N.Events(b, link, m, hs[..n]), N.Events(b, link, m, hs);
            pre <= es && T.NoCommand(es[|pre|..])
    decreases |hs|
  {
    hide N.Happen, N.EventOf, Silent;
    if n == |hs| {
      assert hs[..n] == hs;
    } else {
      var init := hs[..|hs| - 1];
      assert init[..n] == hs[..n];
      SilentEvents(b, link, m, init, n);
      SilentStep(b, link, N.HappenAll(b, link, m, init), Last(hs));
    }
  }

  /** Silence on the wire stops the motor. Over any run of the whole M4 whose first `n` happenings leave
      the mailbox empty and the M4 in remote mode, and in which no accepted command arrives after them:
      once the last command is overdue, the motor is off RUNNING, and stopped when the steps of that
      command's own deceleration cover the duty. */
  lemma SilenceStopsMotor(b: M.Board, link: nat -> int, motor: M.Motor, online: bool,
                          hs: seq<N.Happening>, n: nat, base: nat)
    requires N.AllValid(hs) && n <= |hs| && N.AllValid(hs[..n]) && K.Sound(b, K.Boot(motor), base)
    requires forall i :: n <= i < |hs| ==> Silent(hs[i])
    requires N.HappenAll(b, link, N.PowerUp(motor, online), hs[..n]).node.mailbox.None?
    requires N.HappenAll(b, link, N.PowerUp(motor, online), hs[..n]).node.core.remote
    requires var pre := N.Events(b, link, N.PowerUp(motor, online), hs[..n]);
             var es := N.Events(b, link, N.PowerUp(motor, online), hs);
             && T.Paced(0, pre) && |es| > |pre|
             && T.Timely(if |pre| == 0 then 0 else Last(pre).tWatchdog, es[|pre|])
             && (T.LastRemote(pre) >= 0 ==>
                   var last := pre[T.LastRemote(pre)];
                   es[|pre|].tWatchdog > last.tCommand + last.command.value.timeout)
    ensures var pre := N.Events(b, link, N.PowerUp(motor, online), hs[..n]);
            var count := |N.Events(b, link, N.PowerUp(motor, online), hs)| - |pre|;
            var before := N.HappenAll(b, link, N.PowerUp(motor, online), hs[..n]).node.core.motor;
            var after := N.HappenAll(b, link, N.PowerUp(motor, online), hs).node.core.motor;
            && T.LastRemote(pre) >= 0
            && var decel := pre[T.LastRemote(pre)].command.value.decel;
            && after.state != M.Running
            && (before.duty <= count * (if decel < 100 then 1 else decel / 100) ==>
                  after.duty == 0 && after.state in {M.Ready, M.Fault})
  {
    hide N.HappenAll, N.Events, K.Steps, K.Sound, T.Paced, T.Timely, N.Debounced, N.Column, K.Legal;
    hide N.AllValid, Silent, T.LastRemote, T.NoCommand;
    var m0 := N.PowerUp(motor, online);
    N.RunRefinesCore(b, link, motor, online, hs);
    N.RunRefinesCore(b, link, motor, online, hs[..n]);
    SilentEvents(b, link, m0, hs, n);
    var pre, es := N.Events(b, link, m0, hs[..n]), N.Events(b, link, m0, hs);
    var boot := K.Boot(motor);
    assert es == pre + es[|pre|..];
    assert K.AllLegal(pre);
    T.DeadManOverRuns(b, boot, pre, es[|pre|..], base);
  }
}
