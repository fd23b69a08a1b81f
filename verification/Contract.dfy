/** The frames exchanged by the two cores: layouts, encoders, and the receivers' checks. */
module Contract {
  import opened Words

  const MAGIC: dword := 0x4950_4331
  const VERSION: word := 1
  const PING: word := 1
  const PONG: word := 2
  const MOTOR_COMMAND: word := 3
  const MOTOR_STATE: word := 4
  const FRAME_BYTES := 16
  const COMMAND_WORDS := 10
  const STATE_WORDS := 12

  const COMMAND_DUTY_MIN := 800
  const COMMAND_DUTY_MAX := 1000
  const RAMP_MIN := 1
  const RAMP_MAX := 10000
  const TIMEOUT_MIN := 100
  const TIMEOUT_MAX := 10000
  const SOURCE_SHELL: word := 1
  const SOURCE_MODBUS: word := 2
  const MODE_LOCAL: word := 0
  const MODE_REMOTE: word := 1
  const CONTROL_LIMIT := 0x20

  /** The meaningful words of a motor command; three more are reserved and zero. */
  datatype Command = Command(
    control: word,
    duty: word,
    accel: word,
    decel: word,
    mode: word,
    timeout: word,
    sequence: word)
  {
    // Bits of the control word.
    predicate Enable() { control % 2 == 1 }
    predicate Run() { control / 2 % 2 == 1 }
    predicate Reverse() { control / 4 % 2 == 1 }
    predicate ResetFault() { control / 8 % 2 == 1 }
    predicate QuickStop() { control / 16 % 2 == 1 }
  }

  /** The mode word of a remote command carries its source in the high byte. */
  function ModeWord(remote: bool, source: word): word {
    if remote then U16(MODE_REMOTE + 256 * source) else MODE_LOCAL
  }

  /** The ranges that both the M7 submission and the M4 validator check. */
  predicate InRange(duty: word, accel: word, decel: word, timeout: word) {
    && COMMAND_DUTY_MIN <= duty <= COMMAND_DUTY_MAX
    && RAMP_MIN <= accel <= RAMP_MAX
    && RAMP_MIN <= decel <= RAMP_MAX
    && TIMEOUT_MIN <= timeout <= TIMEOUT_MAX
  }

  /** What the M4 accepts of the meaningful words. A control word without a bit outside the five
      defined ones is one below 0x20. */
  predicate Acceptable(c: Command) {
    && c.control < CONTROL_LIMIT
    && InRange(c.duty, c.accel, c.decel, c.timeout)
    && c.mode in {MODE_LOCAL, ModeWord(true, SOURCE_SHELL), ModeWord(true, SOURCE_MODBUS)}
  }

  // ----- Encoding -----

  function Header(kind: word, sequence: dword, length: dword): (s: seq<byte>)
    ensures |s| == FRAME_BYTES
  {
    PutLe32(MAGIC) + PutLe16(VERSION) + PutLe16(kind) + PutLe32(sequence) + PutLe32(length)
  }

  function Frame(kind: word, sequence: dword, words: seq<word>): (s: seq<byte>)
    requires |words| < 100
    ensures |s| == FRAME_BYTES + 2 * |words|
  {
    Header(kind, sequence, 2 * |words|) + PutLeWords(words)
  }

  function EncodeCommand(c: Command, sequence: dword): (s: seq<byte>)
    ensures |s| == 36
  {
    Frame(MOTOR_COMMAND, sequence,
          [c.control, c.duty, c.accel, c.decel, c.mode, c.timeout, 0, 0, 0, c.sequence])
  }

  // ----- Receiving -----

  predicate HasFrame(s: seq<byte>) {
    |s| >= FRAME_BYTES && GetLe32(s, 0) == MAGIC && GetLe16(s, 4) == VERSION
  }

  function Kind(s: seq<byte>): word
    requires |s| >= FRAME_BYTES
  {
    GetLe16(s, 6)
  }

  function Sequence(s: seq<byte>): dword
    requires |s| >= FRAME_BYTES
  {
    GetLe32(s, 8)
  }

  function Length(s: seq<byte>): dword
    requires |s| >= FRAME_BYTES
  {
    GetLe32(s, 12)
  }

  function Payload(s: seq<byte>): (ws: seq<word>)
    requires |s| >= FRAME_BYTES
    ensures |ws| == (|s| - FRAME_BYTES) / 2
  {
    LeWords(s[FRAME_BYTES..])
  }

  function DecodeCommand(s: seq<byte>): Command
    requires |s| == 36
  {
    var w := Payload(s);
    Command(w[0], w[1], w[2], w[3], w[4], w[5], w[9])
  }

  predicate CommandIsValid(s: seq<byte>) {
    && HasFrame(s)
    && Kind(s) == MOTOR_COMMAND
    && |s| == 36
    && Length(s) == 2 * COMMAND_WORDS
    && Payload(s)[6] == Payload(s)[7] == Payload(s)[8] == 0
    && DecodeCommand(s).sequence == U16(Sequence(s))
    && Acceptable(DecodeCommand(s))
  }

  /** What a frame means to the M4. */
  datatype Inbound = Ignored | PingRequest(sequence: dword) | CommandRequest(command: Command)

  function ReceiveOnM4(s: seq<byte>): Inbound {
    if !HasFrame(s) then Ignored
    else if Kind(s) == PING then
      if |s| != FRAME_BYTES || Length(s) != 0 then Ignored else PingRequest(Sequence(s))
    else if CommandIsValid(s) then CommandRequest(DecodeCommand(s))
    else Ignored
  }

  /** What a frame means to the M7. */
  datatype Outbound = Bad | PongReply(sequence: dword) | StateReport(sequence: dword, words: seq<word>)

  function ReceiveOnM7(s: seq<byte>): Outbound {
    if !HasFrame(s) then Bad
    else if Kind(s) == PONG then
      if |s| != FRAME_BYTES || Length(s) != 0 then Bad else PongReply(Sequence(s))
    else if Kind(s) == MOTOR_STATE then
      if |s| != FRAME_BYTES + 2 * STATE_WORDS || Length(s) != 2 * STATE_WORDS then Bad
      else StateReport(Sequence(s), Payload(s))
    else Bad
  }

  // ----- Round trips -----

  lemma FrameRoundTrip(kind: word, sequence: dword, words: seq<word>)
    requires |words| < 100
    ensures var s := Frame(kind, sequence, words);
            && HasFrame(s) && Kind(s) == kind && Sequence(s) == sequence
            && Length(s) == 2 * |words| && Payload(s) == words
  {
    var s := Frame(kind, sequence, words);
    var h := Header(kind, sequence, 2 * |words|);
    assert forall i | 0 <= i < FRAME_BYTES :: s[i] == h[i];
    assert s[FRAME_BYTES..] == PutLeWords(words);
    LeWordsRoundTrip(words);
  }

  /** Encoding then decoding the 36-byte command is the identity, whatever its words. */
  lemma CommandRoundTrip(c: Command, sequence: dword)
    ensures var s := EncodeCommand(c, sequence);
            && |s| == 36
            && DecodeCommand(s) == c
            && Sequence(s) == sequence
            && Kind(s) == MOTOR_COMMAND
  {
    FrameRoundTrip(MOTOR_COMMAND, sequence,
      [c.control, c.duty, c.accel, c.decel, c.mode, c.timeout, 0, 0, 0, c.sequence]);
  }

  /** The M4 accepts an encoded command exactly when its words are acceptable and the sequence
      word repeats the header's low half; anything else is dropped silently. */
  lemma ReceiveEncoded(c: Command, sequence: dword)
    ensures ReceiveOnM4(EncodeCommand(c, sequence)) ==
            if Acceptable(c) && c.sequence == U16(sequence) then CommandRequest(c) else Ignored
  {
    CommandRoundTrip(c, sequence);
    FrameRoundTrip(MOTOR_COMMAND, sequence,
      [c.control, c.duty, c.accel, c.decel, c.mode, c.timeout, 0, 0, 0, c.sequence]);
  }

  /** PING, PONG and state frames survive the wire unchanged. */
  lemma ReplyRoundTrip(sequence: dword, words: seq<word>)
    requires |words| == STATE_WORDS
    ensures ReceiveOnM4(Header(PING, sequence, 0)) == PingRequest(sequence)
    ensures ReceiveOnM7(Header(PONG, sequence, 0)) == PongReply(sequence)
    ensures ReceiveOnM7(Frame(MOTOR_STATE, sequence, words)) == StateReport(sequence, words)
  {
    FrameRoundTrip(MOTOR_STATE, sequence, words);
    FrameRoundTrip(PING, sequence, []);
    FrameRoundTrip(PONG, sequence, []);
    assert Frame(PING, sequence, []) == Header(PING, sequence, 0);
    assert Frame(PONG, sequence, []) == Header(PONG, sequence, 0);
  }

  // ----- On the wire -----

  function Bit(b: bool): word {
    if b then 1 else 0
  }

  /** The control word, bit by bit: ENABLE is bit 0, RUN bit 1, reverse bit 2, RESET_FAULT bit 3 and
      QUICK_STOP bit 4; what remains are the undefined bits. */
  lemma ControlBits(c: Command)
    ensures c.control == Bit(c.Enable()) + 2 * Bit(c.Run()) + 4 * Bit(c.Reverse())
                         + 8 * Bit(c.ResetFault()) + 16 * Bit(c.QuickStop()) + 32 * (c.control / 32)
  {
    var n := c.control;
    Halved(n, 1);
    Halved(n, 2);
    Halved(n, 4);
    Halved(n, 8);
    Halved(n, 16);
  }

  lemma Halved(n: nat, d: nat)
    requires d in {1, 2, 4, 8, 16}
    ensures n / d == 2 * (n / (2 * d)) + n / d % 2
  {
    assert n / 4 == n / 2 / 2;
    assert n / 8 == n / 4 / 2;
    assert n / 16 == n / 8 / 2;
    assert n / 32 == n / 16 / 2;
  }

  /** The sixteen header bytes: the magic number as it appears in memory, version 1, the kind, the
      sequence and the length, least significant byte first. */
  lemma HeaderBytes(kind: word, sequence: dword, length: dword)
    ensures var low, high := length % 0x1_0000, length / 0x1_0000;
            var s0, s1 := sequence % 0x1_0000, sequence / 0x1_0000;
            Header(kind, sequence, length) ==
            [0x31, 0x43, 0x50, 0x49, 1, 0, kind % 256, kind / 256,
             s0 % 256, s0 / 256, s1 % 256, s1 / 256, low % 256, low / 256, high % 256, high / 256]
  {
  }

  lemma {:induction false} PutLeWordsAt(ws: seq<word>, i: nat)
    requires i < |ws|
    ensures PutLeWords(ws)[2 * i] == ws[i] % 256 && PutLeWords(ws)[2 * i + 1] == ws[i] / 256
  {
    if i < |ws| - 1 {
      PutLeWordsAt(ws[..|ws| - 1], i);
    }
  }

  /** The payload follows the header, least significant byte first. */
  lemma PayloadBytes(kind: word, sequence: dword, words: seq<word>, i: nat)
    requires |words| < 100 && i < |words|
    ensures var s := Frame(kind, sequence, words);
            s[FRAME_BYTES + 2 * i] == words[i] % 256 && s[FRAME_BYTES + 2 * i + 1] == words[i] / 256
  {
    PutLeWordsAt(words, i);
  }

  /** A command is 36 bytes of kind 3: control, duty, acceleration, deceleration, mode, timeout, three
      zeros and the sequence. */
  lemma CommandBytes(c: Command, sequence: dword, i: nat)
    requires i < 10
    ensures var s := EncodeCommand(c, sequence);
            var w := [c.control, c.duty, c.accel, c.decel, c.mode, c.timeout, 0, 0, 0, c.sequence];
            && s[..FRAME_BYTES] == Header(3, sequence, 20)
            && s[FRAME_BYTES + 2 * i] == w[i] % 256 && s[FRAME_BYTES + 2 * i + 1] == w[i] / 256
    ensures ModeWord(true, SOURCE_SHELL) == 0x0101 && ModeWord(true, SOURCE_MODBUS) == 0x0201
  {
    PayloadBytes(MOTOR_COMMAND, sequence,
      [c.control, c.duty, c.accel, c.decel, c.mode, c.timeout, 0, 0, 0, c.sequence], i);
  }

  /** A frame whose length is as announced is the encoding of what it is read as. */
  lemma ExactFrame(s: seq<byte>)
    requires HasFrame(s) && Length(s) == |s| - FRAME_BYTES && |s| % 2 == 0 && |s| < 200
    ensures s == Frame(Kind(s), Sequence(s), Payload(s))
  {
    Le32BytesRoundTrip(s, 0);
    Le32BytesRoundTrip(s, 4);
    Le32BytesRoundTrip(s, 6);
    Le32BytesRoundTrip(s, 8);
    Le32BytesRoundTrip(s, 12);
    LeBytesRoundTrip(s[FRAME_BYTES..]);
    var h := Header(Kind(s), Sequence(s), Length(s));
    assert h == s[0..4] + s[4..6] + s[6..8] + s[8..12] + s[12..16];
    assert s == s[0..4] + s[4..6] + s[6..8] + s[8..12] + s[12..16] + s[FRAME_BYTES..];
  }

  lemma PingExactly(s: seq<byte>, q: dword)
    ensures ReceiveOnM4(s) == PingRequest(q) <==> s == Header(PING, q, 0)
  {
    hide Header, PutLeWords, CommandIsValid, GetLe16;
    ReplyRoundTrip(q, seq(STATE_WORDS, _ => 0));
    if ReceiveOnM4(s) == PingRequest(q) {
      ExactFrame(s);
      EmptyFrame(PING, q, s);
    }
  }

  lemma CommandExactly(s: seq<byte>, c: Command)
    ensures ReceiveOnM4(s) == CommandRequest(c) <==>
              Acceptable(c) && exists n: dword :: c.sequence == U16(n) && s == EncodeCommand(c, n)
  {
    hide Header, PutLeWords, Acceptable, GetLe16, EncodeCommand;
    if Acceptable(c) && exists n: dword :: c.sequence == U16(n) && s == EncodeCommand(c, n) {
      var n: dword :| c.sequence == U16(n) && s == EncodeCommand(c, n);
      ReceiveEncoded(c, n);
    }
    if ReceiveOnM4(s) == CommandRequest(c) {
      ExactFrame(s);
      CommandFrame(s);
      assert c.sequence == U16(Sequence(s)) && s == EncodeCommand(c, Sequence(s));
    }
  }

  /** Nothing but the exact bytes of a PING is a PING to the M4, and nothing but the exact bytes of an
      acceptable command is a command. */
  lemma M4AcceptsExactly(s: seq<byte>)
    ensures forall q :: ReceiveOnM4(s) == PingRequest(q) <==> s == Header(PING, q, 0)
    ensures forall c :: ReceiveOnM4(s) == CommandRequest(c) <==>
              Acceptable(c) && exists n: dword :: c.sequence == U16(n) && s == EncodeCommand(c, n)
  {
    hide ReceiveOnM4, Header, EncodeCommand, Acceptable;
    forall q
      ensures ReceiveOnM4(s) == PingRequest(q) <==> s == Header(PING, q, 0)
    {
      PingExactly(s, q);
    }
    forall c
      ensures ReceiveOnM4(s) == CommandRequest(c) <==>
                Acceptable(c) && exists n: dword :: c.sequence == U16(n) && s == EncodeCommand(c, n)
    {
      CommandExactly(s, c);
    }
  }

  lemma EmptyFrame(kind: word, sequence: dword, s: seq<byte>)
    requires |s| == FRAME_BYTES && s == Frame(kind, sequence, Payload(s))
    ensures s == Header(kind, sequence, 0)
  {
    assert Payload(s) == [];
  }

  lemma CommandFrame(s: seq<byte>)
    requires CommandIsValid(s) && s == Frame(Kind(s), Sequence(s), Payload(s))
    ensures s == EncodeCommand(DecodeCommand(s), Sequence(s))
  {
    hide Frame, GetLe16, Acceptable;
    var c, w := DecodeCommand(s), Payload(s);
    assert w == [c.control, c.duty, c.accel, c.decel, c.mode, c.timeout, 0, 0, 0, c.sequence];
  }

  lemma PongExactly(s: seq<byte>, q: dword)
    ensures ReceiveOnM7(s) == PongReply(q) <==> s == Header(PONG, q, 0)
  {
    hide Header, PutLeWords, Frame, GetLe16;
    ReplyRoundTrip(q, seq(STATE_WORDS, _ => 0));
    if ReceiveOnM7(s) == PongReply(q) {
      ExactFrame(s);
      EmptyFrame(PONG, q, s);
    }
  }

  lemma StateExactly(s: seq<byte>, q: dword, words: seq<word>)
    ensures ReceiveOnM7(s) == StateReport(q, words) <==>
              |words| == STATE_WORDS && s == Frame(MOTOR_STATE, q, words)
  {
    hide Header, PutLeWords, Frame, GetLe16;
    if |words| == STATE_WORDS && s == Frame(MOTOR_STATE, q, words) {
      ReplyRoundTrip(q, words);
    } else if ReceiveOnM7(s) == StateReport(q, words) {
      ExactFrame(s);
    }
  }

  /** The same on the M7, of PONGs and motor states. */
  lemma M7AcceptsExactly(s: seq<byte>)
    ensures forall q :: ReceiveOnM7(s) == PongReply(q) <==> s == Header(PONG, q, 0)
    ensures forall q, words :: ReceiveOnM7(s) == StateReport(q, words) <==>
              |words| == STATE_WORDS && s == Frame(MOTOR_STATE, q, words)
  {
    hide ReceiveOnM7, Header, Frame;
    forall q
      ensures ReceiveOnM7(s) == PongReply(q) <==> s == Header(PONG, q, 0)
    {
      PongExactly(s, q);
    }
    forall q, words
      ensures ReceiveOnM7(s) == StateReport(q, words) <==>
                |words| == STATE_WORDS && s == Frame(MOTOR_STATE, q, words)
    {
      StateExactly(s, q, words);
    }
  }

  /** The limits of an acceptable command, in numbers. */
  lemma Limits(c: Command)
    ensures Acceptable(c) <==>
              && c.control < 32 && 800 <= c.duty <= 1000 && 1 <= c.accel <= 10000 && 1 <= c.decel <= 10000
              && 100 <= c.timeout <= 10000 && c.mode in {0, 0x0101, 0x0201}
  {
  }
}
