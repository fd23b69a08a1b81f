# Dual-core motor controller: a verified model

The repository drives a DC motor through an L293D bridge from the Cortex-M4 of an STM32H747, while
the Cortex-M7 offers the motor to PLCs over Modbus TCP and EtherNet/IP. This project models the three
parts that decide what the motor does, and proves what they promise.

**The M4 controller.** A motor state machine whose GPIO and PWM writes may fail, a debounced button
bank, a filtered potentiometer, a remote-command interpreter with a watchdog on a wrapping 32-bit
clock and a latch for the physical STOP, and a main loop with a fixed arbitration order
(`MotorModel`, `MotorRamps`, `Debounce`, `PotFilter`, `M4Core`, `M4Safety`, `M4Commands`,
`M4Buttons`, `M4Snapshot`, `M4Node`, `M4Run`).

**The link between the cores.** Numbered commands sent under a lock, a latest-wins mailbox, an
acknowledged sequence, published state snapshots, and PING/PONG (`Contract`, `GatewayModel`,
`GatewayCommands`, `TwoCores`, `SystemRun`, `Ping`).

**Registers, scanner and protocols.** Sixty holding registers, commands staged and committed by
APPLY, mapping tables that redirect scanner slots into the registers, function code 23, and the
EtherNet/IP assemblies (`RegisterModel`, `RegisterTable`, `ScannerModel`, `Interleaving`,
`Fc23Model`, `TwoLocks`).

Each part exists twice. The modules above are functions on values, on which the properties are
proved. `MotorControl`, `M4Loop`, `GatewayIpc`, `HoldingRegisters`, `Scanner` and `ModbusServer` are
classes with the fields, loops and buffers of the program, updated in place; each of their methods is
proved to have exactly the effect of its function. `EndToEnd` composes the layers.

## Reading the model

- Hardware and transport are functions from the number of the call to its return code. A theorem
  holds for every pattern of failures unless its row says "working hardware" or "working link", which
  means that every write, or every send, succeeds. A failed write leaves the driver outputs as they were;
  a failed send delivers nothing. `Motor.wire` is the history of the outputs after every write.
- Time is a true, unbounded clock; the program's clock and counters are that time and true counts
  modulo 2^32 or 2^16.
- A channel is the sender's history and the number of frames delivered: in order and uncorrupted,
  with any delay. `Ping` assumes less: any PONG or PING ever sent may arrive at any time, repeatedly
  or never.
- A spinlock or mutex section is one step, except in `TwoLocks` and `Ping`, whose steps are single
  statements.
- Error numbers are those of Zephyr's C library. Where a theorem speaks of 16-bit status or fault
  words it assumes that drivers and transport return errors of at least -32768.
- Saving the network configuration is a call with an arbitrary result that may leave anything in
  registers 0 to 9.

## Where the code and its documents differ

The model follows the code.

- `Eth_industriel_plan.md:545-546` says no protocol gets past the physical STOP. A command with
  RESET_FAULT clears the latch (as `app_m7/src/protocols/modbus/DES04_Modbus.md:145` says), and one
  with QUICK_STOP, RUN and ENABLE together starts the motor while the latch stays set.
  `M4Safety.LatchBypass` is the exact condition; `M4Safety.LatchHolds` and `EndToEnd.PhysicalStop`
  hold for runs without such a command.
- `Eth_industriel_plan.md:549-550` lists a too old sequence as a cause to stop. The M4 checks that
  the sequence word repeats the header, and compares it with no earlier one.
- `app_m7/src/protocols/modbus/DES04_Modbus.md:148` asks that undefined control bits stay 0. The M7
  does not check this, sends the command and reports success; the M4 drops it silently
  (`GatewayModel.EveryFrameAgrees`, `EndToEnd.PlcStartsMotor`).
- `Eth_industriel_plan.md:572-575` says the scanner's APPLY commits a complete command atomically.
  Each slot is a lock section of its own and the APPLY slot is two, claiming remote mode and then
  applying. `Interleaving.ImageInterleaved` and `Interleaving.ScannerApplyInterleaved` are the exact
  conditions on what other clients store in between; one that writes local mode makes the command a
  local one (`Interleaving.ScannerApplyCanBeLocal`). A slot value of 2 or more claims remote mode and
  then fails.
- A local-mode command sent to a motor in FAULT is refused, so the M4 stays in remote mode, although
  the M7 has already switched its registers to local (`M4Commands.LocalCommand`).
- `Eth_industriel_plan.md:534` calls state word 6 the filtered potentiometer; the code publishes the
  unfiltered sample.
- `app_m4/README.md:4-6` describes an earlier stage without remote commands.
- The register lock and the command lock are taken in both orders, and the two holders can wait for
  each other for ever: an APPLY on one side, the periodic refresh or the shell's return to local mode
  on the other. `TwoLocks.DeadlockIsReachable` reaches both from start-up, and `TwoLocks.OnlyDeadlock`
  says that there is no other.

## Model

| member | source | states |
|---|---|---|
| `Words.TruncDiv` | app_m4/src/motor_potentiometer.c:84-86 | signed C division truncates toward zero: the remainder has the dividend's sign |
| `Words.BeWordsRoundTrip` | app_m7/src/protocols/modbus/app_modbus_tcp.c:575-575 | words put in big-endian order are read back unchanged |
| `Words.LeWordsRoundTrip` | app_m7/src/protocols/eip/app_eip.c:261-261 | words put in little-endian order are read back unchanged |
| `Words.LeBytesRoundTrip` | app_shared/app_ipc_protocol.h:17-24 | bytes read as little-endian words are those words written again |
| `MotorModel.MakeSafeEffect` | app_m4/src/motor_control.c:33-56 | making safe attempts all three writes: every output that accepts its write is off afterwards, and the first error is reported |
| `MotorModel.MakeSafeKeepsLane` | app_m4/src/motor_control.c:33-56 | making safe never crosses polarities, clears duty and boost and changes nothing else of the state |
| `MotorModel.RecordFaultKeeps` | app_m4/src/motor_control.c:58-63 | recording a fault always ends in FAULT with zero duty and zero boost, whatever the writes do, and keeps the error it was given, or -EIO for one that is not negative |
| `MotorModel.Approach` | app_m4/src/motor_control.c:117-125 | a ramp step moves by the step or onto the target, always toward it and never past it |
| `MotorModel.StartEffect` | app_m4/src/motor_control.c:176-192 | from READY, starting succeeds exactly when its three writes do, driving the direction with the pulse at the whole period for the boost time; otherwise it ends in FAULT with the error of the first failing write |
| `MotorModel.StartKeeps` | app_m4/src/motor_control.c:164-193 | starting keeps the motor safe under any failing write, and success means RUNNING |
| `MotorModel.ResetEffect` | app_m4/src/motor_control.c:245-276 | reset succeeds exactly when its three writes do, with the bridge off, facing forward, without error; quick stop also needs no fault, and keeps the direction |
| `MotorModel.DirectionChangesAtRest` | app_m4/src/DES04_MotorControl.md:63-63 | the direction changes only while the motor is stopped with the bridge released, or by a reset, which cuts the bridge first |
| `MotorModel.ResetKeeps` | app_m4/src/motor_control.c:245-258 | reset keeps the motor safe and ends READY or in FAULT |
| `MotorModel.QuickStopKeeps` | app_m4/src/motor_control.c:260-276 | quick stop keeps the motor safe and ends READY or in FAULT |
| `MotorModel.ProcessKeeps` | app_m4/src/motor_control.c:308-347 | processing keeps the motor safe for every elapsed time |
| `MotorModel.DoKeeps` | app_m4/src/motor_control.c:164-352 | every operation keeps: READY, DISABLED and FAULT have no duty and no boost, RUNNING has 800 to 1000, boost only when RUNNING at 1000, an error exactly in FAULT, target in range, pins and pulse as the state says |
| `MotorModel.InitEstablishes` | app_m4/src/motor_control.c:130-162 | a successful initialization establishes that invariant |
| `MotorModel.DoAllKeeps` | app_m4/src/motor_control.c:164-352 | the invariant holds after any sequence of calls |
| `MotorModel.BridgeNeverUnsafe` | app_m4/src/motor_control.c:33-104 | in every run after a successful initialization, with any failing writes, IN1 and IN2 are never both high, and between opposite polarities there is an instant with both low and no pulse |
| `MotorModel.PulseInPeriod` | app_m4/src/motor_control.c:74-75 | outside FAULT the pulse is the largest number of nanoseconds whose thousandfold does not exceed period times duty: the whole period at 1000, none at 0, computed without overflow |
| `MotorModel.PulseGrows` | app_m4/src/motor_control.c:74-75 | with a period of at least 1000 ns a larger duty is a strictly longer pulse, never 0 |
| `MotorModel.StartAndStopElsewhere` | app_m4/src/motor_control.c:164-209 | in every other state, what starting and stopping answer, and that they change nothing but RUNNING to STOPPING |
| `MotorModel.InitEffect` | app_m4/src/motor_control.c:130-162 | initialization succeeds exactly when the devices are ready, both pins are configured and the three writes succeed; otherwise FAULT with the first error |
| `MotorRamps.LoopStep` | app_m4/src/motor_control.c:106-115 | at 10 ms the step is rate/100, at least 1, exact for every 16-bit rate |
| `MotorRamps.StepForElapsed` | app_m4/src/motor_control.c:106-115 | for any elapsed time the ramp step is rate times time over 1000, at least 1, exactly as long as that fits 16 bits |
| `MotorRamps.ProcessElapsed` | app_m4/src/motor_control.c:308-347 | for any elapsed time on working hardware: full duty until the boost time is used up, then a ramp step, and READY with the bridge off once a stop ramp reaches 0 |
| `MotorRamps.RampFails` | app_m4/src/motor_control.c:308-347 | a ramp write that fails ends in FAULT with its own error |
| `MotorRamps.RunningRamp` | app_m4/src/motor_control.c:308-326 | after the boost, n iterations on working hardware move the duty exactly n steps toward the target and then hold it |
| `MotorRamps.BoostPhase` | app_m4/src/motor_control.c:313-321 | on working hardware the boost lasts exactly 25 iterations at full duty |
| `MotorRamps.StartProfile` | app_m4/src/motor_control.c:180-191 | the duty at every iteration after a start on working hardware, in closed form |
| `MotorRamps.StoppingRamp` | app_m4/src/motor_control.c:328-343 | on working hardware stopping is READY with the bridge released after exactly ceil(duty/step) iterations |
| `MotorRamps.DefaultStopTime` | app_m4/README.md:74-75 | with the default ramp and working hardware a stop takes at most 250 ms |
| `MotorControl.Controller.constructor` | app_m4/src/motor_control.c:22-31 | the power-up values |
| `MotorControl.Controller.MakeSafe` | app_m4/src/motor_control.c:33-56 | three writes in order, each attempted whatever the others return: same outputs, state and first error as the function |
| `MotorControl.Controller.SetPwm` | app_m4/src/motor_control.c:65-83 | the pulse of `PulseInPeriod` is written and the duty stored only after a successful write; a failing one ends in FAULT: same state and result as the function |
| `MotorControl.Controller.ApplyDirection` | app_m4/src/motor_control.c:85-104 | IN1 before IN2, stopping at the first failure: same outputs, state and result as the function |
| `MotorControl.Controller.Init` | app_m4/src/motor_control.c:130-162 | each of the five ways to fail ends in FAULT: same state and result as the function |
| `MotorControl.Controller.Start` | app_m4/src/motor_control.c:164-193 | error in FAULT, no effect while RUNNING, busy while STOPPING, else drives the bridge: same state and result as the function |
| `MotorControl.Controller.Stop` | app_m4/src/motor_control.c:195-209 | error in FAULT, no effect at rest, else STOPPING without boost: same state and result as the function |
| `MotorControl.Controller.ToggleDirection` | app_m4/src/motor_control.c:211-224 | only from READY: same state and result as the function |
| `MotorControl.Controller.SetDirection` | app_m4/src/motor_control.c:226-243 | only from READY: same state and result as the function |
| `MotorControl.Controller.Reset` | app_m4/src/motor_control.c:245-258 | from any state, FAULT on a failing write: same state and result as the function |
| `MotorControl.Controller.QuickStop` | app_m4/src/motor_control.c:260-276 | not from FAULT, FAULT on a failing write: same state and result as the function |
| `MotorControl.Controller.Process` | app_m4/src/motor_control.c:308-347 | boost, then ramp, or stop ramp and release: same state and result as the function for every elapsed time |
| `MotorControl.Controller.Fail` | app_m4/src/motor_control.c:349-352 | records the fault whatever the state: same state as the function |
| `Debounce.SettledIsMostRecentWindow` | app_m4/src/motor_buttons.c:75-93 | the settled level is that of the most recent window of three equal readings, false if there was none |
| `Debounce.FeedTracks` | app_m4/src/motor_buttons.c:63-96 | for every sequence of readings, failed ones skipped, the stored fields are functions of the successful history, and `stable` is its settled level |
| `Debounce.PressIsRisingEdge` | app_m4/src/motor_buttons.c:86-92 | an event is reported exactly when the settled level rises |
| `Debounce.PressesAreSpaced` | app_m4/src/motor_buttons.c:75-92 | two events of one button are at least six successful readings apart |
| `PotFilter.AcquireAllInRange` | app_m4/src/motor_potentiometer.c:75-96 | for every sample sequence the filter stays in 0..4095, the published duty in 800..1000 and within 3 of the converted filter value |
| `PotFilter.AcquireExactly` | app_m4/src/motor_potentiometer.c:75-96 | the first sample is taken as it is, a later one moves the filter by an eighth of the difference; the duty is published anew exactly when it has moved by 4 or more |
| `PotFilter.ErrorShrinks` | app_m4/src/motor_potentiometer.c:84-86 | under a constant sample the error keeps its sign and strictly shrinks while at least 8 |
| `PotFilter.HoldConverges` | app_m4/src/motor_potentiometer.c:80-87 | n constant samples bring the filter closer by at least n until it is less than 8 away |
| `PotFilter.PublishedDutySettles` | app_m4/src/motor_potentiometer.c:89-96 | within 4088 polls of a constant sample the published duty is within 4 of the ideal one, for good |
| `PotFilter.SettledDutyBoundIsTight` | app_m4/src/motor_potentiometer.c:89-96 | a difference of exactly 4 persists in a run from power-up |
| `Contract.FrameRoundTrip` | app_m4/src/app_ipc.c:41-49 | every field of a frame is read back as written |
| `Contract.CommandRoundTrip` | app_m7/src/ipc/app_ipc.c:270-287 | encoding then decoding the 36-byte command is the identity |
| `Contract.ReceiveEncoded` | app_m4/src/app_ipc.c:60-108 | the M4 accepts an encoded command exactly when its words are in range, its control and mode words are defined ones and its sequence word repeats the header |
| `Contract.ReplyRoundTrip` | app_m7/src/ipc/app_ipc.c:96-148 | PING, PONG and state frames mean on arrival what was sent |
| `Contract.ControlBits` | app_shared/app_motor_contract.h:26-30 | the control word is ENABLE + 2 RUN + 4 reverse + 8 RESET_FAULT + 16 QUICK_STOP and the undefined bits above |
| `Contract.HeaderBytes` | app_shared/app_ipc_protocol.h:7-24 | the sixteen bytes of a header, in order |
| `Contract.CommandBytes` | app_m7/src/ipc/app_ipc.c:270-287 | where each word of a command is on the wire, and the mode words of the two sources |
| `Contract.M4AcceptsExactly` | app_m4/src/app_ipc.c:122-161 | the M4 takes for a PING nothing but the exact bytes of a PING, and for a command nothing but the exact bytes of an acceptable one |
| `Contract.M7AcceptsExactly` | app_m7/src/ipc/app_ipc.c:98-148 | the M7 takes for a PONG or a motor state nothing but the exact bytes of one |
| `Contract.Limits` | app_m4/src/app_ipc.c:87-107 | the limits of an acceptable command in numbers |
| `M4Core.ApplyKeeps` | app_m4/src/app_ipc.c:163-250 | applying any validated command keeps the core invariant |
| `M4Core.StepKeeps` | app_m4/src/main.c:96-139 | one iteration keeps it: local mode has the default ramps and neither timeout nor latch, remote mode has settings in range, and a tripped watchdog excludes RUNNING |
| `M4Core.StepsKeep` | app_m4/src/main.c:96-147 | any number of iterations keeps it, for all outside events, and the bridge is never unsafe |
| `M4Core.BootIsSound` | app_m4/src/main.c:74-94 | a successful initialization establishes it |
| `M4Safety.AgeIsModular` | app_m4/src/app_ipc.c:271-272 | the wrapping age is the true age modulo 2^32 |
| `M4Safety.AgeTestExactness` | app_m4/src/app_ipc.c:271-272 | the age test is right exactly when the true age is not 2^32 or more with a remainder within the timeout |
| `M4Safety.StepsKeepFed` | app_m4/src/app_ipc.c:269-278 | with iterations less than 2^32 - 10000 ms apart, an untripped watchdog was satisfied at its last test |
| `M4Safety.OverdueTrips` | app_m4/src/app_ipc.c:269-278 | the first test later than the timeout trips, across any wrap-around |
| `M4Safety.DeadMan` | app_m4/src/app_ipc.c:269-278 | from the first overdue iteration without further commands the motor is not RUNNING, loses at least one step of duty an iteration, and is stopped once the steps cover the duty, for every button, ADC and hardware outcome |
| `M4Safety.DeadManOverRuns` | app_m4/src/main.c:96-147 | the same from power-up, with the timeout and deceleration of the last remote command processed |
| `M4Safety.RunningExactlyWhileFed` | app_m4/src/app_ipc.c:269-278 | undisturbed and on working hardware, a running remote motor runs on exactly while the wrapping age is within the timeout |
| `M4Safety.StallHidesSilence` | app_m4/src/app_ipc.c:271-272 | the pacing bound is needed: a stall of exactly 2^32 ms hides the silence |
| `M4Safety.StopLatches` | app_m4/src/main.c:112-117 | a STOP in remote mode latches and the motor is not RUNNING when the iteration ends |
| `M4Safety.LatchHolds` | app_m4/src/app_ipc.c:209-243 | while latched the motor is not RUNNING at the end of any iteration, until a physical RESET or a command that is local, resets a fault or quick-stops |
| `M4Safety.LatchBypass` | app_m4/src/app_ipc.c:209-243 | with working hardware, a latched motor runs after a remote command if and only if it has RUN and ENABLE with RESET_FAULT or, unless in fault, QUICK_STOP |
| `M4Safety.Ownership` | app_m4/src/app_ipc.c:191-207 | in remote mode target, ramps, timeout and watchdog start are those of the most recent remote command processed |
| `M4Safety.EntryIntoRunning` | app_m4/src/main.c:99-134 | every entry into RUNNING is caused by an accepted command with RUN and ENABLE, or by START in local mode without STOP or RESET |
| `M4Safety.FaultPersists` | app_m4/src/DES04_MotorControl.md:64-64 | no automatic restart: a fault persists until a physical RESET or a RESET_FAULT command |
| `M4Commands.StartCommand` | app_m4/src/app_ipc.c:230-247 | on working hardware RUN and ENABLE start a ready, unlatched motor within the iteration, in the direction asked for, acknowledged |
| `M4Commands.StopCommand` | app_m4/src/app_ipc.c:217-229 | on working hardware, without RUN a turning motor ramps down with the command's own ramp in its old direction; a ready one takes the direction asked for |
| `M4Commands.QuickStopCommand` | app_m4/src/app_ipc.c:212-213 | on working hardware and outside FAULT, quick stop is accepted and has the motor standing with the bridge off when the iteration ends if and only if the command does not also carry RUN and ENABLE, which start it again; in FAULT it is refused |
| `M4Commands.ResetCommand` | app_m4/src/app_ipc.c:209-211 | on working hardware fault reset clears FAULT and latch from any state, facing forward; the motor is ready, or running if and only if the command also carries RUN and ENABLE |
| `M4Commands.RunCommandWhileRunning` | app_m4/src/app_ipc.c:230-247 | on working hardware a running, unlatched motor refuses to reverse, unacknowledged and still running, and takes the new duty and ramps; ENABLE only gates a start |
| `M4Commands.LatchedRunCommand` | app_m4/src/app_ipc.c:214-216 | on working hardware RUN under the latch is refused, unacknowledged, and the motor goes on as without the command but for its settings |
| `M4Commands.RunCommandRefused` | app_m4/src/app_ipc.c:230-247 | on working hardware RUN to an unlatched motor that is stopping or in FAULT starts nothing; it is acknowledged only if it asks neither for a start nor for another direction |
| `M4Commands.DocumentedCommands` | app_m7/src/protocols/modbus/DES04_Modbus.md:157-166 | on working hardware, control words 3 and 7 start forward and in reverse, 1 and 5 stop gradually or turn a ready motor, 17 stands with the bridge off, 9 clears fault and latch |
| `M4Commands.LocalCommand` | app_m4/src/app_ipc.c:170-189 | on any hardware, control returns to the buttons exactly when the command resets the motor and the three writes succeed, or does not reset it and it is not in FAULT; otherwise the mode stays |
| `M4Buttons.StopButton` | app_m4/src/main.c:112-117 | in local or remote mode, with any hardware and command, a STOP leaves the motor off RUNNING when the iteration ends, and latches in remote mode only |
| `M4Buttons.StopRamps` | app_m4/src/main.c:112-117 | on working hardware a STOP takes one deceleration step off a turning motor at once, in its old direction, STOPPING or READY; FAULT stays |
| `M4Buttons.ResetButton` | app_m4/src/main.c:118-122 | on working hardware RESET without STOP clears fault and latch from any state, READY with the bridge off, facing forward, in the same mode |
| `M4Buttons.LocalButtons` | app_m4/src/main.c:107-134 | on working hardware in local mode: the target is the potentiometer's; START runs a ready motor at full duty, in the other direction if DIRECTION is pressed too; DIRECTION alone turns it; other motors ignore both |
| `M4Buttons.RemoteIgnoresLocal` | app_m4/src/main.c:107-134 | in remote mode START, DIRECTION and the potentiometer have no effect |
| `M4Buttons.ReadingFails` | app_m4/src/main.c:103-106 | a failing conversion ends in FAULT with its own error unless RESET is pressed without STOP |
| `M4Snapshot.FlagsReadBack` | app_m4/src/app_ipc.c:355-386 | exactly one motor-state flag and one of LOCAL and REMOTE; each flag says what the core says |
| `M4Snapshot.FlagWord` | app_m4/src/app_ipc.c:355-386 | the flags word by bit number |
| `M4Snapshot.EverySnapshotIsSane` | app_m4/src/app_ipc.c:388-428 | in every run: TIMEOUT implies REMOTE and not RUNNING, LATCH implies REMOTE, READY implies duty 0, RUNNING implies 800..1000, FAULT exactly when the fault word is nonzero |
| `M4Node.MaskBits` | app_m4/src/motor_buttons.c:98-109 | the event and state words carry each button in its own bit |
| `M4Node.RunRefinesCore` | app_m4/src/app_ipc.c:148-160 | a run of the whole M4, any bytes received, is a run of the core on validated commands, with buttons debounced from their own readings |
| `M4Node.EventsAreDebounced` | app_m4/src/main.c:99-134 | the events of each iteration are the debounced presses of the raw readings |
| `M4Run.IterationFrames` | app_m4/src/app_ipc.c:315-336 | an iteration sends a PONG for the pending PING and the state it ends in, under the next number; a failed PONG stays pending, a failed state is not repeated |
| `M4Run.FramesHaveIterations` | app_m4/src/app_ipc.c:324-335 | in every run a PONG carries the sequence of the latest PING received by then, and a state the words of the M4 after its iteration |
| `M4Run.PublishedWords` | app_m4/src/app_ipc.c:388-428 | in every run each state frame, as the M7 reads it, says the duty, target, direction, fault, settled level of each button from its own readings, last sample, true age of the last remote command modulo 2^16 ms or 0 in local mode, loop time 10 and acknowledged sequence at the end of one iteration |
| `M4Loop.ButtonBank.Poll` | app_m4/src/motor_buttons.c:63-96 | the in-place loop samples every button once and reports exactly the presses |
| `M4Loop.ButtonBank.GetState` | app_m4/src/motor_buttons.c:98-109 | the loop returns the mask of settled buttons |
| `M4Loop.Potentiometer.Poll` | app_m4/src/motor_potentiometer.c:50-98 | clamp, filter, convert and dead band on the static fields; a failed acquisition changes nothing |
| `M4Loop.RemoteControl.Received` | app_m4/src/app_ipc.c:122-161 | the receive callback: a valid command overwrites the mailbox, a PING the flag, anything else nothing |
| `M4Loop.RemoteControl.ApplyRemoteCommand` | app_m4/src/app_ipc.c:163-250 | every branch of the interpreter, with its early returns, leaves the fields and the motor as the function says, with the same result; what that does is in the `M4Commands` rows |
| `M4Loop.RemoteControl.ProcessRemoteTimeout` | app_m4/src/app_ipc.c:269-278 | trips once, and only in remote mode past the timeout on the wrapping clock |
| `M4Loop.RemoteControl.Process` | app_m4/src/app_ipc.c:315-336 | command, then watchdog, then the PONG, whose flag survives a failed send |
| `M4Loop.RemoteControl.PublishMotorState` | app_m4/src/app_ipc.c:388-428 | a publication consumes a number and sends the twelve words, which are those of `M4Run.PublishedWords` |
| `M4Loop.Application.Arbitrate` | app_m4/src/main.c:112-134 | STOP before RESET before the local commands, with the effects of the `M4Buttons` rows |
| `M4Loop.Application.Iterate` | app_m4/src/main.c:96-139 | one pass of the main loop is one iteration of the model |
| `M4Loop.Application.Loop` | app_m4/src/main.c:96-147 | any run of passes, with frames arriving and the link changing between them, is that run of the model |
| `GatewayModel.SendDecides` | app_m7/src/ipc/app_ipc.c:289-301 | a send makes at most 21 transport calls, returns the deciding one's result, and delivers its frame once on success and never on failure |
| `GatewayModel.DoKeeps` | app_m7/src/ipc/app_ipc.c:259-430 | every operation keeps the stored command in range and the sent frames faithful and in increasing number |
| `GatewayModel.DoAllKeeps` | app_m7/src/ipc/app_ipc.c:259-430 | so does every run |
| `GatewayModel.EveryFrameAgrees` | app_m7/src/ipc/app_ipc.c:329-366 | over every run the M4 accepts a sent command exactly when its control word has no bit outside 0x1f |
| `GatewayModel.RefreshRepeatsSubmission` | app_m7/src/ipc/app_ipc.c:306-366 | an accepted submission goes over the wire word for word; the refresh repeats a remote one under a new number and stays silent after a local one |
| `GatewayCommands.RetriesExactly` | app_m7/src/ipc/app_ipc.c:289-297 | exactly the transport errors -EAGAIN, -EBUSY and -ENOBUFS are retried, up to 20 times |
| `GatewayCommands.SubmitOutcome` | app_m7/src/ipc/app_ipc.c:329-366 | a submission outside the ranges is refused unchanged; any other is remembered, and is on the wire word for word, under the next number, exactly on success, which alone schedules or cancels the refresh |
| `GatewayCommands.UpdateOutcome` | app_m7/src/ipc/app_ipc.c:368-392 | a shell command is refused unless remote mode is held or asked for; the control and duty given are those on the wire, with the stored ramps |
| `GatewayCommands.DisableOutcome` | app_m7/src/ipc/app_ipc.c:394-412 | returning to local sends the stored command as a local one; only success forgets it and cancels the refresh |
| `GatewayCommands.ResetOutcome` | app_m7/src/ipc/app_ipc.c:414-430 | the shell's reset is control word 9 in the mode held |
| `GatewayCommands.ShellResetAsksForReset` | app_m7/src/ipc/app_ipc.c:414-430 | which the M4 reads as ENABLE and RESET_FAULT and nothing else |
| `GatewayCommands.RefreshOutcome` | app_m7/src/ipc/app_ipc.c:306-327 | the refresh sends the stored command as a remote one while remote mode is enabled, and is scheduled again only on success |
| `GatewayIpc.IpcModule.constructor` | app_m7/src/ipc/app_ipc.c:54-60 | the power-up command |
| `GatewayIpc.IpcModule.Transmit` | app_m7/src/ipc/app_ipc.c:289-297 | the bounded retry loop delivers and returns what the deciding transport call says |
| `GatewayIpc.IpcModule.SendRemoteCommandLocked` | app_m7/src/ipc/app_ipc.c:259-304 | a send takes a number whenever the link is up and encodes the stored command |
| `GatewayIpc.IpcModule.SendPing` | app_m7/src/ipc/app_ipc.c:216-236 | the sending half of a ping |
| `GatewayIpc.IpcModule.MotorSubmit` | app_m7/src/ipc/app_ipc.c:329-366 | an out-of-range command changes nothing; any other is stored even if sending fails, and schedules or cancels the refresh only on success |
| `GatewayIpc.IpcModule.RemoteCommandUpdate` | app_m7/src/ipc/app_ipc.c:368-392 | refused unless remote or activating; else stored before it is sent, and re-armed only on success |
| `GatewayIpc.IpcModule.RemoteCommandReset` | app_m7/src/ipc/app_ipc.c:414-430 | asks for ENABLE and RESET_FAULT in the mode already held |
| `GatewayModel.PauseIsSilent` | app_m7/src/ipc/app_ipc.c:703-714 | after a pause no command frame is sent, whatever the refresh, pings and the link do, until someone gives a command |
| `GatewayIpc.IpcModule.PauseRefresh` | app_m7/src/ipc/app_ipc.c:703-714 | pausing disables the stored command and cancels the refresh, sending nothing |
| `GatewayIpc.IpcModule.Received` | app_m7/src/ipc/app_ipc.c:125-145 | only a well-formed state frame changes the cache, and it replaces all of it |
| `GatewayIpc.IpcModule.GetMotorState` | app_m7/src/ipc/app_ipc.c:443-465 | an image is stale exactly when it arrived more than 100 ms ago, for true ages below 2^32 ms |
| `TwoCores.NextKeeps` | app_m7/src/ipc/app_ipc.c:259-304 | every step of either core or channel, in any order, keeps the system coherent |
| `TwoCores.RunKeeps` | app_m4/src/app_ipc.c:122-161 | so does every run |
| `TwoCores.AcknowledgedSequence` | app_m4/src/app_ipc.c:245-247 | over every interleaving the acknowledged number was really issued and delivered, never decreases, never exceeds the M7's counter, and changes only when the mailbox command is applied with result 0 |
| `TwoCores.ServedSnapshots` | app_m7/src/ipc/app_ipc.c:125-145 | every image served is exactly the latest state message received, one that the M4 published, and is sane; its place never goes back |
| `SystemRun.SystemRunsM4` | app_m4/src/main.c:96-147 | in every run of both cores the M4 goes through a run of its own, to which everything proved of M4 runs applies |
| `SystemRun.ServedWords` | app_m7/src/ipc/app_ipc.c:443-465 | in every run of both cores, the image served describes word by word, as in `M4Run.PublishedWords`, the M4 at the end of one of its iterations, and no later state has reached the M7 |
| `SystemRun.PongsAnswerPings` | app_m4/src/app_ipc.c:324-335 | in every run of both cores each PONG carries the sequence of a PING the M7 really sent |
| `Ping.RunKeeps` | app_m7/src/ipc/app_ipc.c:197-257 | the exchange keeps its invariant under every interleaving |
| `Ping.PingIsFresh` | app_m7/src/ipc/app_ipc.c:217-250 | a ping succeeds only if the M4 answered this very PING after it was sent, for fewer than 2^32 pings |
| `Ping.StalePongPasses` | app_m7/src/ipc/app_ipc.c:219-244 | the bound is needed: at the 2^32-th ping a stale PONG can pass |
| `RegisterModel.ApplyFrame` | app_m7/src/protocols/modbus/app_modbus_tcp.c:417-430 | APPLY changes registers 12, 17 and 18 and no other, and submits what is staged |
| `RegisterModel.WriteKeeps` | app_m7/src/protocols/modbus/app_modbus_tcp.c:384-490 | every write keeps the register invariant |
| `RegisterModel.RegistersSettle` | app_m7/src/protocols/modbus/app_modbus_tcp.c:384-435 | for every interleaving at lock granularity, REG12 is 0, REG17 is not pending, REG10 is 0 or 1, REG18 counts the successful submissions modulo 2^16, and every Output mapping is FREE or a writable register |
| `RegisterModel.SubmissionsAreSnapshots` | app_m7/src/protocols/modbus/app_modbus_tcp.c:173-195 | each submitted command is REG10, REG11 and REG13..16 at the one instant its APPLY took effect |
| `RegisterModel.WriteFrame` | app_m7/src/protocols/modbus/app_modbus_tcp.c:384-435 | what a write leaves alone: the reserved register, the motor state, and every register above 19 but its own |
| `RegisterModel.RefusalIsExact` | app_m7/src/protocols/modbus/app_modbus_tcp.c:393-408 | a write without rights changes nothing, and rights are decided by address and value alone |
| `RegisterTable.StartupTable` | app_m7/src/protocols/modbus/app_modbus_tcp.c:39-46 | the start-up value of each of the sixty registers |
| `RegisterTable.ReadTable` | app_m7/src/protocols/modbus/app_modbus_tcp.c:368-382 | what reading any address answers |
| `RegisterTable.WriteTable` | app_m7/src/protocols/modbus/app_modbus_tcp.c:384-490 | what any write but 1 to registers 8 and 12 answers and leaves, in numbers |
| `RegisterTable.SaveOutcome` | app_m7/src/protocols/modbus/app_modbus_tcp.c:447-485 | saving is asked for once, answers what it answered, and touches neither registers from 10 on nor the link |
| `RegisterTable.ApplyResult` | app_m7/src/protocols/modbus/app_modbus_tcp.c:416-430 | a client that applies is told success if and only if the submission succeeded, and else its error, which register 17 shows too |
| `HoldingRegisters.Bank.constructor` | app_m7/src/protocols/modbus/app_modbus_tcp.c:39-46 | the power-up registers with the saved configuration and default tables |
| `HoldingRegisters.Bank.MapDefaults` | app_m7/src/protocols/modbus/app_modbus_tcp.c:128-146 | the loops fill exactly the ten mapping registers |
| `HoldingRegisters.Bank.HoldingRead` | app_m7/src/protocols/modbus/app_modbus_tcp.c:368-382 | motor state comes from the cache, or -EAGAIN before the first report; other registers from the array |
| `HoldingRegisters.Bank.MotorCommandApply` | app_m7/src/protocols/modbus/app_modbus_tcp.c:173-195 | status 0 and a counted sequence on success, the error in the status otherwise |
| `HoldingRegisters.Bank.HoldingWrite` | app_m7/src/protocols/modbus/app_modbus_tcp.c:384-490 | every branch, with PENDING in between and APPLY cleared after, leaves the array, the link and the result the function says, which `RegisterTable.WriteTable` and `RegisterTable.ApplyResult` give in numbers |
| `HoldingRegisters.Bank.RemoteRefresh` | app_m7/src/ipc/app_ipc.c:306-327 | a refresh resends the command and, on success, sets REG10 and re-arms |
| `HoldingRegisters.Bank.RemoteCommandDisable` | app_m7/src/ipc/app_ipc.c:394-412 | returning to local mode clears REG10 and the stored command only when the frame was sent, and returns 0 then and the error of the send otherwise |
| `ScannerModel.OutputWriteKeeps` | app_m7/src/protocols/modbus/app_modbus_scanner.c:135-174 | in every reachable state an Output write is never refused for rights and changes neither REG19, nor REG40..49, nor the motor state, nor an Input slot |
| `ScannerModel.OutputWritesKeep` | app_m7/src/protocols/modbus/app_modbus_scanner.c:135-174 | the same for every sequence of Output writes |
| `ScannerModel.FreeInputsReadZero` | app_m7/src/protocols/modbus/app_modbus_scanner.c:68-100 | a FREE Input slot reads 0 before and after any Output write |
| `ScannerModel.ImageToCommands` | app_m7/src/protocols/eip/app_eip.c:232-249 | a received assembly submits one remote command for each slot mapped to APPLY and holding 1, each reflecting all earlier slots and no later one, up to and including the first failing slot, which is the last one written |
| `ScannerModel.DefaultImage` | app_m7/src/protocols/modbus/app_modbus_tcp.c:128-146 | under the default tables the command is word 0 and word 1, submitted exactly when word 2 is 1 |
| `RegisterTable.OutputReadsBack` | app_m7/src/protocols/modbus/app_modbus_scanner.c:102-174 | a FREE Output slot keeps its own word and reads it back, one mapped to a plain register stores it there and reads it back; no other slot's word changes |
| `RegisterTable.AssemblyMeansSuccess` | app_m7/src/protocols/eip/app_eip.c:238-249 | an accepted assembly means that each submission it made succeeded; otherwise all but the last did |
| `RegisterTable.DetachedSlots` | app_m7/src/protocols/modbus/app_modbus_scanner.c:68-174 | without registers attached no slot can be read or written |
| `Interleaving.HoldsLastStored` | app_m7/src/protocols/modbus/app_modbus_tcp.c:410-435 | after any run a staging register holds what the last permitted write, successful refresh or successful return to local stored in it, else what it held |
| `Interleaving.ScannerApplyInterleaved` | app_m7/src/protocols/modbus/app_modbus_scanner.c:159-167 | with other clients between claim and APPLY, the command is remote exactly when the last of them to store the mode stored remote or none did, and is the one found staged exactly when the same holds of each of its registers |
| `Interleaving.ImageInterleaved` | app_m7/src/protocols/modbus/app_modbus_scanner.c:135-174 | with other clients between all slots of a default image, it is committed whole exactly when they left alone, or last stored the same in, each register after its own slot |
| `Interleaving.DefaultSlotsAreWrites` | app_m7/src/protocols/modbus/app_modbus_scanner.c:145-170 | under the default tables the slots are these register writes |
| `Interleaving.ScannerApplyCanBeLocal` | app_m7/src/protocols/modbus/app_modbus_scanner.c:159-167 | a local-mode write in between makes a PLC's command local |
| `Scanner.Window.InputRead` | app_m7/src/protocols/modbus/app_modbus_scanner.c:68-100 | two register reads, or the local value of a FREE slot |
| `Scanner.Window.OutputRead` | app_m7/src/protocols/modbus/app_modbus_scanner.c:102-133 | two register reads, or the local value of a FREE slot |
| `Scanner.Window.OutputWrite` | app_m7/src/protocols/modbus/app_modbus_scanner.c:135-174 | local for a FREE slot, nothing for APPLY at 0, else the mapped register, with remote mode claimed before APPLY |
| `Scanner.AfterDataReceived` | app_m7/src/protocols/eip/app_eip.c:232-249 | the loop writes the little-endian words in order until one fails |
| `Scanner.BeforeDataSend` | app_m7/src/protocols/eip/app_eip.c:251-264 | the loop fills the assembly with the Input image, 0 for an unreadable slot |
| `Fc23Model.PerformsExactlyRequests` | app_m7/src/protocols/modbus/app_modbus_tcp.c:535-552 | exactly the encodings of 1..125 reads and 1..121 writes are performed; anything else is ILLEGAL DATA VALUE and changes nothing |
| `RegisterTable.RequestBytes` | app_m7/src/protocols/modbus/app_modbus_tcp.c:535-552 | where each field of a request is, most significant byte first, and its limits |
| `RegisterTable.FailureIsIllegalAddress` | app_m7/src/protocols/modbus/app_modbus_tcp.c:554-576 | a request within the limits is answered ILLEGAL DATA ADDRESS exactly when a write fails or then a read, and never with another exception |
| `RegisterTable.ReplyMeansSuccess` | app_m7/src/protocols/modbus/app_modbus_tcp.c:554-578 | a normal reply means that every submission the request made succeeded; whatever the answer, all but the last did |
| `Fc23Model.WritesDoNotWrap` | app_m7/src/protocols/modbus/app_modbus_tcp.c:554-561 | no attempted write address wraps, and full success means the range is inside the map |
| `Fc23Model.ReadsDoNotWrap` | app_m7/src/protocols/modbus/app_modbus_tcp.c:567-576 | the same for reads; each word is the register's after the writes |
| `Fc23Model.FailureStops` | app_m7/src/protocols/modbus/app_modbus_tcp.c:554-561 | on a failing write exactly the writes before it took effect, and its own effects |
| `Fc23Model.FailedWriteFrame` | app_m7/src/protocols/modbus/app_modbus_tcp.c:384-490 | which registers a failing write may have touched |
| `Fc23Model.ReplyReadsWrites` | app_m7/src/protocols/modbus/app_modbus_tcp.c:554-578 | on the registers (Unit-ID 1), a reply is the byte count and big-endian words; a plain register reads what the same request wrote to it, else what it held |
| `Fc23Model.TransactionKeeps` | app_m7/src/protocols/modbus/app_modbus_tcp.c:519-579 | whatever the bytes, the register invariant holds, and Unit-ID 2 changes no mapping table |
| `Fc23Model.ScannerReplyReadsWrites` | app_m7/src/protocols/modbus/app_modbus_tcp.c:554-578 | on Unit-ID 2, an Input slot mapped to a plain register reads what the Output slots of the same request left in it |
| `Fc23Model.ScannerReplyFreeIsZero` | app_m7/src/protocols/modbus/app_modbus_scanner.c:88-94 | a FREE Input slot reads 0 in every reply |
| `Fc23Model.ScannerAgreesWithAssembly` | app_m7/src/protocols/eip/app_eip.c:238-247 | words written by function code 23 to Unit-ID 2 and the same words received as an assembly do the same, if saving never reports a positive result |
| `ModbusServer.Server.RoutedHoldingRead` | app_m7/src/protocols/modbus/app_modbus_tcp.c:492-499 | Unit-ID 2 reads the Input image, any other unit the registers |
| `ModbusServer.Server.RoutedHoldingWrite` | app_m7/src/protocols/modbus/app_modbus_tcp.c:510-517 | Unit-ID 2 writes the Output image, any other unit the registers |
| `ModbusServer.Server.WriteHoldingRegs` | app_m7/src/protocols/modbus/app_modbus_tcp.c:554-561 | the write loop leaves exactly the state of the fold, and stops where it does |
| `ModbusServer.Server.ReadHoldingRegs` | app_m7/src/protocols/modbus/app_modbus_tcp.c:567-576 | the read loop puts exactly the words read into the response buffer |
| `ModbusServer.Server.ReadWriteHoldingRegs` | app_m7/src/protocols/modbus/app_modbus_tcp.c:519-579 | the handler's response bytes and exception codes are the model's |
| `TwoLocks.RunRefines` | app_m7/src/protocols/modbus/app_modbus_tcp.c:416-435 | every statement-level interleaving of stores, APPLY, refresh, return to local mode and the other link commands, with the link coming up and going down at any moment, equals a run of indivisible operations |
| `TwoLocks.FreeLockIsSettled` | app_m7/src/protocols/modbus/app_modbus_tcp.c:416-435 | from any sound state, whenever no thread holds the register lock, the registers are settled: REG12 is 0, REG17 not pending, REG10 is 0 or 1, REG18 counts the successful submissions |
| `TwoLocks.SubmissionIsOneInstant` | app_m7/src/protocols/modbus/app_modbus_tcp.c:178-186 | although read one after the other, the six registers of a command held together at one instant |
| `TwoLocks.OnlyDeadlock` | app_m7/src/ipc/app_ipc.c:306-412 | some thread can always continue, except exactly when an APPLY and either a refresh or a return to local mode hold one lock each and wait for the other |
| `TwoLocks.SuccessIsReachable` | app_m7/src/protocols/modbus/app_modbus_tcp.c:416-430 | from start-up over a working link, remote mode and APPLY lead to a successful submission with everything at rest and the refresh enabled |
| `TwoLocks.DeadlockIsReachable` | app_m7/src/ipc/app_ipc.c:312-320 | both deadlocks are reachable from start-up over a working link |
| `EndToEnd.ImageToFrame` | app_m7/src/protocols/modbus/app_modbus_scanner.c:159-167 | over a working link and under the default tables a raised APPLY sends exactly one frame, made of the image and the staged ramps |
| `EndToEnd.PlcStartsMotor` | app_m7/src/protocols/eip/app_eip.c:232-249 | on working hardware and a working link, from the PLC's output words to the running motor and its acknowledgement; with an undefined control bit, success is reported and nothing happens |
| `EndToEnd.PlcWords` | app_m7/src/protocols/modbus/DES04_Modbus.md:157-166 | on working hardware and a working link, by the number in the PLC's first word: 3 and 7 run a ready motor forward and in reverse toward the second word, 1 and 5 stop or turn it, 17 stands, 9 clears fault and latch |
| `EndToEnd.PlcReadsBack` | app_m7/src/protocols/eip/app_eip.c:251-264 | the published state comes back in the PLC's input words |
| `EndToEnd.PhysicalStop` | app_m4/src/main.c:112-117 | from the raw STOP contact: a press in remote mode keeps the motor from RUNNING until the raw RESET contact shows a press or a releasing command is processed |
| `EndToEnd.SilenceStopsMotor` | app_m4/src/app_ipc.c:252-278 | over any run of the whole M4, when no accepted command arrives any more, the motor is off RUNNING once the last command is overdue and then stopped within its own ramp |
| `EndToEnd.RegistersUseTheLink` | app_m7/src/protocols/modbus/app_modbus_tcp.c:186-186 | over any run of the registers from start-up the link goes through a run of its own operations, so the results on link runs apply |

## Left out

- Zephyr, the icmsg transport and the OpENer stack: calls into them are return codes and deliveries.
- Sockets, TCP framing, HTTP routes, DPWS, the display, shell printing, web assets, Python tools.
- Network configuration and identity: net_cfg.c is not part of this model, and the result of saving is arbitrary.
- The waiter of the save command: its timeout, its semaphore reset, and -EBUSY while one is pending.
- Input registers (FC4 on Unit-ID 1), connection and heartbeat counters, last-error codes for diagnosis.
- The legacy scanner window and the access diagnostics of the scanner.
- LEDs, device-readiness checks of buttons and potentiometer, devicetree wiring.
- Restart of one core alone.
- The -EINVAL of setting an undefined direction: the two directions are all there are in the model's type.
- Reading the stored command outside its lock when a shell command is typed: the shell's values are arbitrary words.
- The 1 ms pauses between transport retries, the round-trip time of a ping, and the cycle time of the loop.
- TwoLocks.Step: saving the configuration is not among its threads; it holds the register lock in several sections that submit nothing.
- TwoLocks.OnlyDeadlock: says when threads block each other, and does not claim that they do not.
- Interleaving.ImageInterleaved: for slots 0 to 2 mapped as by default throughout; a client that rewrites the mapping table in between sends the words elsewhere.
- M4Safety.LatchBypass: for working hardware, because a failing write ends in FAULT and then nothing runs.
- Fc23Model.ScannerAgreesWithAssembly: needs that saving never reports a positive result, because one loop stops at any nonzero result and the other at a negative one.
