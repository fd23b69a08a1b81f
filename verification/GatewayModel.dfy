/** The M7 side of the inter-core link on values: the stored remote command, its numbering, and
    the bounded retry of every send. */
module GatewayModel {
  import opened Words
  import opened Errno
  import opened Contract

  const SEND_RETRIES := 20
  const SHELL_TIMEOUT: word := 1000

  /** A frame the transport accepted, with the true number behind its wrapping sequence. */
  datatype Sent = SentCommand(bytes: seq<byte>, number: nat) | SentPing(bytes: seq<byte>, number: nat)

  datatype Stored = Stored(
    enabled: bool,
    remote: bool,
    control: word,
    duty: word,
    accel: word,
    decel: word,
    timeout: word,
    source: word)

  datatype Submission = Submission(
    control: word,
    duty: word,
    accel: word,
    decel: word,
    timeout: word,
    source: word,
    remote: bool)

  /** `counter` is the true command number, `tries` counts the transport calls and `armed` says
      that the periodic refresh is scheduled. */
  datatype Gateway = Gateway(
    stored: Stored,
    online: bool,
    counter: nat,
    pings: nat,
    tries: nat,
    sent: seq<Sent>,
    armed: bool)

  const POWER_UP: Gateway :=
    Gateway(Stored(false, false, 0, COMMAND_DUTY_MIN, 1000, 4000, SHELL_TIMEOUT, SOURCE_SHELL),
            false, 0, 0, 0, [], false)

  // ----- Sending -----

  predicate Retriable(ret: int) {
    ret == -EAGAIN || ret == -EBUSY || ret == -ENOBUFS
  }

  /** Transport call number `attempt` and its retries; `link` gives the n-th call's return code. */
  function Attempts(link: nat -> int, g: Gateway, frame: Sent, attempt: nat): (Gateway, int)
    decreases SEND_RETRIES - attempt
  {
    var ret := link(g.tries);
    var g1 := g.(tries := g.tries + 1);
    if ret >= 0 then (g1.(sent := g.sent + [frame]), ret)
    else if !Retriable(ret) || attempt >= SEND_RETRIES then (g1, ret)
    else Attempts(link, g1, frame, attempt + 1)
  }

  /** One round of the retry loop. */
  lemma OneAttempt(link: nat -> int, g: Gateway, frame: Sent, attempt: nat)
    ensures var ret := link(g.tries);
            var g1 := g.(tries := g.tries + 1);
            Attempts(link, g, frame, attempt) ==
            if ret >= 0 then (g1.(sent := g.sent + [frame]), ret)
            else if !Retriable(ret) || attempt >= SEND_RETRIES then (g1, ret)
            else Attempts(link, g1, frame, attempt + 1)
  {
  }

  function Compose(s: Stored, remote: bool, number: nat): Command {
    Command(s.control, s.duty, s.accel, s.decel, ModeWord(remote, s.source), s.timeout,
            U16(U32(number)))
  }

  /** Send the stored command under its lock. A number is consumed even when sending fails. */
  function Send(link: nat -> int, g: Gateway, remote: bool): (Gateway, int) {
    if !g.online then (g, -ENOTCONN)
    else
      var number := g.counter + 1;
      var bytes := EncodeCommand(Compose(g.stored, remote, number), U32(number));
      Attempts(link, g.(counter := number), SentCommand(bytes, number), 0)
  }

  /** The sending half of a ping. */
  function SendPing(link: nat -> int, g: Gateway): (Gateway, int) {
    if !g.online then (g, -ENOTCONN)
    else
      var number := g.pings + 1;
      Attempts(link, g.(pings := number), SentPing(Header(PING, U32(number), 0), number), 0)
  }

  // ----- Operations -----

  predicate Submittable(s: Submission) {
    s.source in {SOURCE_SHELL, SOURCE_MODBUS} && InRange(s.duty, s.accel, s.decel, s.timeout)
  }

  function Submit(link: nat -> int, g: Gateway, s: Submission): (Gateway, int) {
    if !Submittable(s) then (g, -EINVAL)
    else
      var stored := Stored(s.remote, s.remote, s.control, s.duty, s.accel, s.decel, s.timeout, s.source);
      var (g1, ret) := Send(link, g.(stored := stored), s.remote);
      (if ret >= 0 then g1.(armed := s.remote) else g1, ret)
  }

  /** The shell's remote, start, stop, quickstop, forward, reverse and duty commands. */
  function Update(link: nat -> int, g: Gateway, activate: bool, control: word, duty: word)
    : (Gateway, int)
  {
    if !g.stored.enabled && !activate then (g, -EACCES)
    else
      var stored := g.stored.(enabled := true, remote := true, control := control, duty := duty,
                              timeout := SHELL_TIMEOUT, source := SOURCE_SHELL);
      var (g1, ret) := Send(link, g.(stored := stored), true);
      (if ret >= 0 then g1.(armed := true) else g1, ret)
  }

  /** The shell's local command. Its success also resets the mode register. */
  function Disable(link: nat -> int, g: Gateway): (Gateway, int) {
    var stored := g.stored.(timeout := SHELL_TIMEOUT, source := SOURCE_SHELL);
    var (g1, ret) := Send(link, g.(stored := stored), false);
    (if ret >= 0 then g1.(stored := g1.stored.(enabled := false, control := 0), armed := false)
     else g1, ret)
  }

  /** The shell's reset command: ENABLE and RESET_FAULT. */
  function ResetFault(link: nat -> int, g: Gateway): (Gateway, int) {
    var stored := g.stored.(timeout := SHELL_TIMEOUT, source := SOURCE_SHELL, control := 9);
    var (g1, ret) := Send(link, g.(stored := stored), g.stored.enabled);
    (if ret >= 0 && g.stored.enabled then g1.(armed := true) else g1, ret)
  }

  /** The periodic refresh. Its success also sets the mode register. */
  function Refresh(link: nat -> int, g: Gateway): (Gateway, int) {
    var fired := g.(armed := false);
    if !g.stored.enabled then (fired, -EACCES)
    else
      var (g1, ret) := Send(link, fired, true);
      (if ret >= 0 then g1.(armed := true) else g1, ret)
  }

  function Pause(g: Gateway): Gateway {
    g.(stored := g.stored.(enabled := false), armed := false)
  }

  /** Any operation on the link, in the order the command lock serializes them. */
  datatype Op =
    | OpSubmit(s: Submission)
    | OpUpdate(activate: bool, control: word, duty: word)
    | OpDisable
    | OpResetFault
    | OpRefresh
    | OpPause
    | OpPing
    | OpBinding(online: bool)

  /** The shell checks the duty it passes on. */
  predicate ValidOp(op: Op) {
    op.OpUpdate? ==> COMMAND_DUTY_MIN <= op.duty <= COMMAND_DUTY_MAX
  }

  function Do(link: nat -> int, g: Gateway, op: Op): Gateway {
    match op
    case OpSubmit(s) => Submit(link, g, s).0
    case OpUpdate(activate, control, duty) => Update(link, g, activate, control, duty).0
    case OpDisable => Disable(link, g).0
    case OpResetFault => ResetFault(link, g).0
    case OpRefresh => Refresh(link, g).0
    case OpPause => Pause(g)
    case OpPing => SendPing(link, g).0
    case OpBinding(online) => g.(online := online)
  }

  // ----- The retry loop -----

  /** The transport call that decides: the first at or after `from` that succeeds or fails for
      good, or the last one allowed. */
  ghost predicate Decides(link: nat -> int, from: nat, attempt: nat, k: nat) {
    && from <= k <= from + (SEND_RETRIES - attempt)
    && (forall i :: from <= i < k ==> Retriable(link(i)))
    && (Retriable(link(k)) ==> k == from + (SEND_RETRIES - attempt))
  }

  /** A send makes at most 21 transport calls, returns the result of the deciding one, and delivers
      its frame exactly once if that result is not an error and not at all otherwise. */
  lemma {:induction false} SendDecides(link: nat -> int, g: Gateway, frame: Sent, attempt: nat)
    requires attempt <= SEND_RETRIES
    ensures var (g1, ret) := Attempts(link, g, frame, attempt);
            && g1.tries > g.tries
            && Decides(link, g.tries, attempt, g1.tries - 1) && ret == link(g1.tries - 1)
            && g1 == g.(tries := g1.tries, sent := if ret >= 0 then g.sent + [frame] else g.sent)
    decreases SEND_RETRIES - attempt
  {
    var ret := link(g.tries);
    if Retriable(ret) && attempt < SEND_RETRIES {
      SendDecides(link, g.(tries := g.tries + 1), frame, attempt + 1);
    }
  }

  // ----- Invariant of every run -----

  /** A command frame is the encoding of its own words, in the ranges the M4 checks, and numbered
      by a number that was really issued. */
  ghost predicate Faithful(f: Sent, counter: nat, pings: nat) {
    match f
    case SentCommand(bytes, number) =>
      && |bytes| == 36
      && 0 < number <= counter
      && var c := DecodeCommand(bytes);
      && bytes == EncodeCommand(c, U32(number))
      && c.sequence == U16(number)
      && InRange(c.duty, c.accel, c.decel, c.timeout)
      && c.mode in {MODE_LOCAL, ModeWord(true, SOURCE_SHELL), ModeWord(true, SOURCE_MODBUS)}
    case SentPing(bytes, number) =>
      0 < number <= pings && bytes == Header(PING, U32(number), 0)
  }

  ghost predicate FaithfulHistory(sent: seq<Sent>, counter: nat, pings: nat) {
    && (forall i :: 0 <= i < |sent| ==> Faithful(sent[i], counter, pings))
    && (forall i, j :: 0 <= i < j < |sent| && sent[i].SentCommand? && sent[j].SentCommand? ==>
          sent[i].number < sent[j].number)
  }

  ghost predicate Healthy(g: Gateway) {
    && InRange(g.stored.duty, g.stored.accel, g.stored.decel, g.stored.timeout)
    && g.stored.source in {SOURCE_SHELL, SOURCE_MODBUS}
    && FaithfulHistory(g.sent, g.counter, g.pings)
  }

  lemma WrapNumber(number: nat)
    ensures U16(U32(number)) == U16(number)
  {
  }

  lemma AppendKeeps(g: Gateway, frame: Sent, counter: nat, pings: nat)
    requires Healthy(g) && counter >= g.counter && pings >= g.pings
    requires Faithful(frame, counter, pings)
    requires frame.SentCommand? ==> frame.number > g.counter
    ensures Healthy(g.(sent := g.sent + [frame], counter := counter, pings := pings))
  {
    var sent := g.sent + [frame];
    hide DecodeCommand, EncodeCommand, Header;
    forall i | 0 <= i < |sent|
      ensures Faithful(sent[i], counter, pings)
    {
      if i < |g.sent| {
        assert Faithful(g.sent[i], g.counter, g.pings);
      }
    }
    forall i, j | 0 <= i < j < |sent| && sent[i].SentCommand? && sent[j].SentCommand?
      ensures sent[i].number < sent[j].number
    {
      if j == |g.sent| {
        assert Faithful(g.sent[i], g.counter, g.pings);
      }
    }
  }

  lemma CountersKeep(g: Gateway, counter: nat, pings: nat)
    requires Healthy(g) && counter >= g.counter && pings >= g.pings
    ensures Healthy(g.(counter := counter, pings := pings))
  {
  }

  lemma SendKeeps(link: nat -> int, g: Gateway, remote: bool)
    requires Healthy(g)
    ensures var (g1, ret) := Send(link, g, remote);
            && Healthy(g1)
            && g1.stored == g.stored && g1.online == g.online && g1.armed == g.armed
            && g1.pings == g.pings && g1.counter >= g.counter
            && (ret < 0 ==> g1.sent == g.sent)
            && (ret >= 0 ==>
                  g1.sent == g.sent + [SentCommand(
                    EncodeCommand(Compose(g.stored, remote, g1.counter), U32(g1.counter)),
                    g1.counter)])
  {
    hide Attempts, Decides;
    if g.online {
      var number := g.counter + 1;
      var c := Compose(g.stored, remote, number);
      var frame := SentCommand(EncodeCommand(c, U32(number)), number);
      CommandRoundTrip(c, U32(number));
      WrapNumber(number);
      SendDecides(link, g.(counter := number), frame, 0);
      hide DecodeCommand, EncodeCommand, FaithfulHistory;
      assert Faithful(frame, number, g.pings);
      AppendKeeps(g, frame, number, g.pings);
      CountersKeep(g, number, g.pings);
    }
  }

  lemma SendPingKeeps(link: nat -> int, g: Gateway)
    requires Healthy(g)
    ensures Healthy(SendPing(link, g).0)
  {
    hide Header, Attempts, Decides;
    if g.online {
      var number := g.pings + 1;
      var frame := SentPing(Header(PING, U32(number), 0), number);
      SendDecides(link, g.(pings := number), frame, 0);
      AppendKeeps(g, frame, g.counter, number);
      CountersKeep(g, g.counter, number);
    }
  }

  lemma SubmitKeeps(link: nat -> int, g: Gateway, s: Submission)
    requires Healthy(g)
    ensures Healthy(Submit(link, g, s).0)
    ensures g.counter <= Submit(link, g, s).0.counter && g.sent <= Submit(link, g, s).0.sent
  {
    hide Send, FaithfulHistory;
    if Submittable(s) {
      var stored := Stored(s.remote, s.remote, s.control, s.duty, s.accel, s.decel, s.timeout, s.source);
      SendKeeps(link, g.(stored := stored), s.remote);
    }
  }

  /** Every operation keeps the stored command in range and every frame faithful and in order. */
  lemma DoKeeps(link: nat -> int, g: Gateway, op: Op)
    requires Healthy(g) && ValidOp(op)
    ensures Healthy(Do(link, g, op))
    ensures g.counter <= Do(link, g, op).counter
    ensures g.sent <= Do(link, g, op).sent
  {
    hide Send, SendPing, Submit, FaithfulHistory, EncodeCommand, Compose, U32;
    match op
    case OpSubmit(s) => SubmitKeeps(link, g, s);
    case OpUpdate(activate, control, duty) =>
      var stored := g.stored.(enabled := true, remote := true, control := control, duty := duty,
                              timeout := SHELL_TIMEOUT, source := SOURCE_SHELL);
      SendKeeps(link, g.(stored := stored), true);
    case OpDisable =>
      SendKeeps(link, g.(stored := g.stored.(timeout := SHELL_TIMEOUT, source := SOURCE_SHELL)), false);
    case OpResetFault =>
      SendKeeps(link, g.(stored := g.stored.(timeout := SHELL_TIMEOUT, source := SOURCE_SHELL,
                                             control := 9)), g.stored.enabled);
    case OpRefresh => SendKeeps(link, g.(armed := false), true);
    case OpPing =>
      SendPingKeeps(link, g);
      SendPingExtends(link, g);
    case _ =>
  }

  lemma SendPingExtends(link: nat -> int, g: Gateway)
    ensures g.sent <= SendPing(link, g).0.sent && SendPing(link, g).0.counter == g.counter
  {
    hide Header, Attempts, Decides;
    var number := g.pings + 1;
    SendDecides(link, g.(pings := number), SentPing(Header(PING, U32(number), 0), number), 0);
  }

  function DoAll(link: nat -> int, g: Gateway, ops: seq<Op>): Gateway
    decreases |ops|
  {
    if |ops| == 0 then g else Do(link, DoAll(link, g, ops[..|ops| - 1]), Last(ops))
  }

  lemma {:induction false} DoAllKeeps(link: nat -> int, g: Gateway, ops: seq<Op>)
    requires Healthy(g) && forall i :: 0 <= i < |ops| ==> ValidOp(ops[i])
    ensures Healthy(DoAll(link, g, ops))
    decreases |ops|
  {
    hide Do;
    if |ops| > 0 {
      DoAllKeeps(link, g, ops[..|ops| - 1]);
      DoKeeps(link, DoAll(link, g, ops[..|ops| - 1]), Last(ops));
    }
  }

  /** Validator agreement: over every run, the M4 accepts a command frame exactly when its control
      word has no undefined bit. The M7 checks every other range but not this one, so such a
      submission is reported as sent and then dropped by the M4. */
  lemma EveryFrameAgrees(link: nat -> int, ops: seq<Op>, i: nat)
    requires forall k :: 0 <= k < |ops| ==> ValidOp(ops[k])
    requires i < |DoAll(link, POWER_UP, ops).sent| && DoAll(link, POWER_UP, ops).sent[i].SentCommand?
    ensures var bytes := DoAll(link, POWER_UP, ops).sent[i].bytes;
            && |bytes| == 36
            && (CommandIsValid(bytes) <==> DecodeCommand(bytes).control < CONTROL_LIMIT)
  {
    DoAllKeeps(link, POWER_UP, ops);
    FaithfulAgrees(DoAll(link, POWER_UP, ops), i);
  }

  lemma FaithfulAgrees(g: Gateway, i: nat)
    requires Healthy(g) && i < |g.sent| && g.sent[i].SentCommand?
    ensures var bytes := g.sent[i].bytes;
            && |bytes| == 36
            && (CommandIsValid(bytes) <==> DecodeCommand(bytes).control < CONTROL_LIMIT)
            && ReceiveOnM4(bytes) == if DecodeCommand(bytes).control < CONTROL_LIMIT
                                     then CommandRequest(DecodeCommand(bytes)) else Ignored
  {
    var f := g.sent[i];
    assert Faithful(f, g.counter, g.pings);
    var c := DecodeCommand(f.bytes);
    ReceiveEncoded(c, U32(f.number));
    CommandRoundTrip(c, U32(f.number));
    WrapNumber(f.number);
  }

  // ----- What goes over the wire -----

  lemma SendReaches(link: nat -> int, g: Gateway, remote: bool)
    requires Healthy(g) && Send(link, g, remote).1 >= 0
    ensures var r := Send(link, g, remote).0;
            && |r.sent| > 0 && |Last(r.sent).bytes| == 36
            && DecodeCommand(Last(r.sent).bytes) == Compose(g.stored, remote, r.counter)
  {
    SendKeeps(link, g, remote);
    hide DecodeCommand, EncodeCommand, Healthy;
    var r := Send(link, g, remote).0;
    CommandRoundTrip(Compose(g.stored, remote, r.counter), U32(r.counter));
  }

  lemma HealthyWith(g: Gateway, s: Submission)
    requires Healthy(g) && Submittable(s)
    ensures Healthy(g.(stored := Stored(s.remote, s.remote, s.control, s.duty, s.accel, s.decel,
                                        s.timeout, s.source)))
  {
  }

  lemma Unarmed(g: Gateway)
    requires Healthy(g)
    ensures Healthy(g.(armed := false))
  {
  }

  /** An accepted submission goes over the wire word for word. The periodic refresh then repeats a
      remote one under a new number for as long as it keeps succeeding, and stays silent after a
      local one. */
  lemma RefreshRepeatsSubmission(link: nat -> int, g: Gateway, s: Submission)
    requires Healthy(g) && Submit(link, g, s).1 >= 0
    ensures var g1 := Submit(link, g, s).0;
            var (g2, ret) := Refresh(link, g1);
            && |g1.sent| > 0 && |Last(g1.sent).bytes| == 36
            && var cmd := DecodeCommand(Last(g1.sent).bytes);
            && cmd == Command(s.control, s.duty, s.accel, s.decel, ModeWord(s.remote, s.source), s.timeout,
                              U16(U32(g1.counter)))
            && g1.armed == s.remote && g2.stored == g1.stored
            && (if s.remote && ret >= 0 then
                  && g2.armed && |g2.sent| > 0 && |Last(g2.sent).bytes| == 36
                  && DecodeCommand(Last(g2.sent).bytes) == cmd.(sequence := U16(U32(g2.counter)))
                else g2.sent == g1.sent && !g2.armed)
  {
    var stored := Stored(s.remote, s.remote, s.control, s.duty, s.accel, s.decel, s.timeout, s.source);
    var g0 := g.(stored := stored);
    hide Send, DecodeCommand, EncodeCommand, FaithfulHistory, InRange, ModeWord, U16, U32;
    assert Healthy(g0) by { HealthyWith(g, s); }
    hide Healthy;
    SendReaches(link, g0, s.remote);
    SendKeeps(link, g0, s.remote);
    var fired := Submit(link, g, s).0.(armed := false);
    SubmitKeeps(link, g, s);
    Unarmed(Submit(link, g, s).0);
    SendKeeps(link, fired, true);
    if s.remote && Send(link, fired, true).1 >= 0 {
      SendReaches(link, fired, true);
    }
  }

  /** Nothing but the refresh, pings and changes of the link. */
  predicate Unattended(ops: seq<Op>) {
    forall i :: 0 <= i < |ops| ==> ops[i].OpRefresh? || ops[i].OpPing? || ops[i].OpBinding? || ops[i].OpPause?
  }

  lemma UnattendedStep(link: nat -> int, g: Gateway, op: Op)
    requires op.OpRefresh? || op.OpPing? || op.OpBinding? || op.OpPause?
    requires !g.stored.enabled
    ensures var r := Do(link, g, op);
            && !r.stored.enabled && r.counter == g.counter
            && (r.sent == g.sent || (|r.sent| == |g.sent| + 1 && r.sent[..|g.sent|] == g.sent
                                     && Last(r.sent).SentPing?))
  {
    hide SendPing, Send;
    PingSendsPing(link, g);
  }

  lemma PingSendsPing(link: nat -> int, g: Gateway)
    ensures var r := SendPing(link, g).0;
            && r.stored == g.stored && r.counter == g.counter
            && (r.sent == g.sent || (|r.sent| == |g.sent| + 1 && r.sent[..|g.sent|] == g.sent
                                     && Last(r.sent).SentPing?))
  {
    hide Attempts, Header, Decides;
    if g.online {
      var number := g.pings + 1;
      SendDecides(link, g.(pings := number), SentPing(Header(PING, U32(number), 0), number), 0);
    }
  }

  /** A pause silences the refresh for good: until someone gives a command, no command frame is sent. */
  lemma {:induction false} PauseIsSilent(link: nat -> int, g: Gateway, ops: seq<Op>)
    requires Unattended(ops)
    ensures var r := DoAll(link, Pause(g), ops);
            && !r.stored.enabled && r.counter == g.counter && g.sent <= r.sent
            && forall i :: |g.sent| <= i < |r.sent| ==> r.sent[i].SentPing?
    decreases |ops|
  {
    hide Do;
    if |ops| > 0 {
      PauseIsSilent(link, g, ops[..|ops| - 1]);
      var before := DoAll(link, Pause(g), ops[..|ops| - 1]);
      UnattendedStep(link, before, Last(ops));
      assert DoAll(link, Pause(g), ops) == Do(link, before, Last(ops));
      hide DoAll, Pause;
    }
  }
}
