/** What the frames of a whole M4 run say about that run. */
module M4Run {
  import opened Words
  import opened Options
  import opened Contract
  import M = MotorModel
  import opened M4Core
  import opened M4Node
  import M4Snapshot
  import Debounce
  import PotFilter

  /** The beginning of a run. */
  function Prefix(hs: seq<Happening>, n: nat): (p: seq<Happening>)
    requires AllValid(hs) && n <= |hs|
    ensures AllValid(p) && p == hs[..n]
  {
    ValidPrefix(hs, n);
    hs[..n]
  }

  // ----- One iteration -----

  /** The words this M4 would publish. */
  function SnapshotOf(m: M4, now: nat, number: nat): seq<word>
    requires |m.bank| == BUTTONS
  {
    M4Snapshot.StateWords(m.node.core, StableMask(m.bank), m.pot.raw, M.LOOP_MS, now, U16(number))
  }

  /** An iteration sends at most two frames: a PONG for the PING that is pending, and the state it ends
      in, under the next number. A send that fails delivers nothing; a PING whose PONG was not sent
      stays pending, and a state consumes its number either way. */
  lemma IterationFrames(b: M.Board, link: nat -> int, m: M4, i: Input)
    requires |m.bank| == BUTTONS && ValidInput(i)
    ensures var r := Iterate(b, link, m, i);
            var answers := m.node.online && m.node.pingPending;
            var next := if answers then m.node.sends + 1 else m.node.sends;
            var answered := answers && link(m.node.sends) >= 0;
            var published := m.node.online && link(next) >= 0;
            var number := m.node.published + 1;
            && r.node.sent == m.node.sent
                 + (if answered then
                      [PongFrame(Header(PONG, m.node.pingSequence, 0), m.node.pingSequence)] else [])
                 + (if published then
                      [StateFrame(Frame(MOTOR_STATE, U32(number), SnapshotOf(r, i.tPublish, number)), number)]
                    else [])
            && r.node.pingPending == (m.node.pingPending && !answered)
            && r.node.pingSequence == m.node.pingSequence
            && r.node.published == (if m.node.online then number else m.node.published)
            && r.node.mailbox.None?
  {
    hide Step, Header, Frame, EventOf, Mask, PotFilter.Acquire, M4Snapshot.StateWords;
  }

  // ----- What a run remembers -----

  /** The last sample the converter delivered, limited to twelve bits; 0 before the first. */
  function LastSample(hs: seq<Happening>): word
    decreases |hs|
  {
    if |hs| == 0 then 0
    else
      var h := Last(hs);
      if h.Iteration? && h.input.adcSetup >= 0 && h.input.adcRead >= 0 then
        if h.input.sample > 4095 then 4095 else h.input.sample
      else LastSample(hs[..|hs| - 1])
  }

  lemma {:induction false} RawIsLastSample(b: M.Board, link: nat -> int, motor: M.Motor, online: bool,
                                           hs: seq<Happening>)
    requires AllValid(hs)
    ensures HappenAll(b, link, PowerUp(motor, online), hs).pot.raw == LastSample(hs)
    decreases |hs|
  {
    hide Step, Receive, AnswerPing, Publish, EventOf;
    if |hs| > 0 {
      RawIsLastSample(b, link, motor, online, hs[..|hs| - 1]);
    }
  }

  /** The sequence of the last PING that arrived. */
  function LatestPing(hs: seq<Happening>): Option<dword>
    decreases |hs|
  {
    if |hs| == 0 then None
    else if Last(hs).Arrival? && ReceiveOnM4(Last(hs).bytes).PingRequest? then
      Some(ReceiveOnM4(Last(hs).bytes).sequence)
    else LatestPing(hs[..|hs| - 1])
  }

  lemma {:induction false} PendingIsLatest(b: M.Board, link: nat -> int, motor: M.Motor, online: bool,
                                           hs: seq<Happening>)
    requires AllValid(hs)
    ensures var n := HappenAll(b, link, PowerUp(motor, online), hs).node;
            n.pingPending ==> LatestPing(hs) == Some(n.pingSequence)
    decreases |hs|
  {
    hide ReceiveOnM4, Iterate;
    if |hs| > 0 {
      var init := hs[..|hs| - 1];
      PendingIsLatest(b, link, motor, online, init);
      if Last(hs).Iteration? {
        IterationFrames(b, link, HappenAll(b, link, PowerUp(motor, online), init), Last(hs).input);
      }
    }
  }

  // ----- Every frame has its iteration -----

  /** Frame `f` was sent by happening `n`: a PONG for the latest PING by then, or the state after it. */
  ghost predicate SentAt(b: M.Board, link: nat -> int, m0: M4, hs: seq<Happening>, f: Report, n: nat)
    requires |m0.bank| == BUTTONS && AllValid(hs)
  {
    && n < |hs| && hs[n].Iteration?
    && match f
       case PongFrame(bytes, q) => LatestPing(hs[..n]) == Some(q) && bytes == Header(PONG, q, 0)
       case StateFrame(bytes, number) =>
         bytes == Frame(MOTOR_STATE, U32(number),
                        SnapshotOf(HappenAll(b, link, m0, Prefix(hs, n + 1)), hs[n].input.tPublish, number))
  }

  lemma SentAtLonger(b: M.Board, link: nat -> int, m0: M4, hs: seq<Happening>, f: Report, n: nat)
    requires |m0.bank| == BUTTONS && AllValid(hs) && |hs| > 0
    requires SentAt(b, link, m0, hs[..|hs| - 1], f, n)
    ensures SentAt(b, link, m0, hs, f, n)
  {
    hide HappenAll, SnapshotOf, LatestPing, Frame, Header;
    var init := hs[..|hs| - 1];
    assert init[..n] == hs[..n] && init[..n + 1] == hs[..n + 1];
    assert Prefix(init, n + 1) == Prefix(hs, n + 1);
  }

  lemma {:induction false} FramesHaveIterations(b: M.Board, link: nat -> int, motor: M.Motor, online: bool,
                                                hs: seq<Happening>, i: nat) returns (n: nat)
    requires AllValid(hs)
    requires i < |HappenAll(b, link, PowerUp(motor, online), hs).node.sent|
    ensures SentAt(b, link, PowerUp(motor, online), hs,
                   HappenAll(b, link, PowerUp(motor, online), hs).node.sent[i], n)
    decreases |hs|
  {
    hide Iterate, ReceiveOnM4, Header, Frame, SnapshotOf, LatestPing;
    var m0, init := PowerUp(motor, online), hs[..|hs| - 1];
    assert |hs| > 0;
    var before := HappenAll(b, link, m0, init);
    if i < |before.node.sent| {
      n := FramesHaveIterations(b, link, motor, online, init, i);
      SentAtLonger(b, link, m0, hs, before.node.sent[i], n);
      if Last(hs).Iteration? {
        IterationFrames(b, link, before, Last(hs).input);
      }
    } else {
      n := |hs| - 1;
      assert Last(hs).Iteration?;
      IterationFrames(b, link, before, Last(hs).input);
      PendingIsLatest(b, link, motor, online, init);
      assert hs[..n] == init && hs[..n + 1] == hs;
    }
  }

  // ----- What a snapshot says -----

  /** The words of the state after a run, one by one: duty, target and direction of the motor, the
      settled level of each button from its own readings, the converter's last sample, the true age of
      the last remote command, the loop time and the acknowledged sequence. */
  ghost predicate Describes(words: seq<word>, c: Core, hs: seq<Happening>, now: nat)
    requires AllValid(hs)
  {
    && |words| == STATE_WORDS
    && words[0] == M4Snapshot.Flags(c)
    && words[1] == c.motor.duty && words[2] == c.motor.target
    && (words[3] == 0 <==> c.motor.direction == M.Forward)
    && (words[3] == 1 <==> c.motor.direction == M.Reverse)
    && words[4] == U16(c.motor.lastError)
    && (forall k :: 0 <= k < BUTTONS ==>
          M4Snapshot.Bit(words[5], k) == Debounce.Settled(Debounce.Levels(Column(hs, k))))
    && words[5] < 16
    && words[6] == LastSample(hs)
    && (c.remote && c.since <= now ==> words[7] == (now - c.since) % 0x1_0000)
    && (!c.remote ==> words[7] == 0)
    && words[8] == 10 && words[10] == c.lastAccepted && words[11] == 0
  }

  lemma AgeWord(c: Core, now: nat)
    requires c.stamp == U32(c.since) && c.since <= now
    ensures U16(Age(c, now)) == (now - c.since) % 0x1_0000
  {
    WrappingDifference(now, c.since);
    WrappingIncrement(now - c.since);
  }

  lemma ButtonWord(bank: seq<Debounce.Button>, hs: seq<Happening>, k: nat)
    requires |bank| == BUTTONS && AllValid(hs) && Debounced(bank, hs) && k < BUTTONS
    ensures M4Snapshot.Bit(StableMask(bank), k) == Debounce.Settled(Debounce.Levels(Column(hs, k)))
  {
    MaskBits(Stables(bank));
    Debounce.FeedTracks(Column(hs, k));
    hide Mask, Debounce.Feed, Debounce.Settled, Debounce.Levels, Column;
    assert Stables(bank)[k] == bank[k].stable;
  }

  lemma WordsDescribe(m: M4, hs: seq<Happening>, now: nat, number: nat)
    requires |m.bank| == BUTTONS && AllValid(hs) && Debounced(m.bank, hs)
    requires m.pot.raw == LastSample(hs) && m.node.core.stamp == U32(m.node.core.since)
    ensures Describes(SnapshotOf(m, now, number), m.node.core, hs, now)
  {
    forall k | 0 <= k < BUTTONS
      ensures M4Snapshot.Bit(StableMask(m.bank), k) == Debounce.Settled(Debounce.Levels(Column(hs, k)))
    {
      ButtonWord(m.bank, hs, k);
    }
    if m.node.core.since <= now {
      AgeWord(m.node.core, now);
    }
    hide Debounced, Column, Mask, M4Snapshot.Flags, M4Snapshot.Bit, Age, LastSample;
    hide Debounce.Settled, Debounce.Levels, U16;
    assert StableMask(m.bank) < 16;
  }

  lemma SnapshotDescribes(b: M.Board, link: nat -> int, motor: M.Motor, online: bool,
                          hs: seq<Happening>, now: nat, number: nat, base: nat)
    requires AllValid(hs) && Sound(b, Boot(motor), base)
    ensures var m := HappenAll(b, link, PowerUp(motor, online), hs);
            Describes(SnapshotOf(m, now, number), m.node.core, hs, now)
  {
    RunRefinesCore(b, link, motor, online, hs);
    StepsKeep(b, Boot(motor), Events(b, link, PowerUp(motor, online), hs), base);
    RawIsLastSample(b, link, motor, online, hs);
    hide HappenAll, Events, Steps, Debounced, Describes, SnapshotOf, M.Safe;
    WordsDescribe(HappenAll(b, link, PowerUp(motor, online), hs), hs, now, number);
  }

  /** Every state frame of every run, as the M7 reads it, describes the M4 at the end of one of its
      iterations. */
  lemma PublishedWords(b: M.Board, link: nat -> int, motor: M.Motor, online: bool, hs: seq<Happening>,
                       i: nat, base: nat) returns (n: nat)
    requires AllValid(hs) && Sound(b, Boot(motor), base)
    requires i < |HappenAll(b, link, PowerUp(motor, online), hs).node.sent|
    requires HappenAll(b, link, PowerUp(motor, online), hs).node.sent[i].StateFrame?
    ensures n < |hs| && hs[n].Iteration?
    ensures var f := HappenAll(b, link, PowerUp(motor, online), hs).node.sent[i];
            var report := ReceiveOnM7(f.bytes);
            && report.StateReport? && report.sequence == U32(f.number)
            && Describes(report.words,
                         HappenAll(b, link, PowerUp(motor, online), Prefix(hs, n + 1)).node.core,
                         Prefix(hs, n + 1), hs[n].input.tPublish)
  {
    n := FramesHaveIterations(b, link, motor, online, hs, i);
    var f := HappenAll(b, link, PowerUp(motor, online), hs).node.sent[i];
    var m := HappenAll(b, link, PowerUp(motor, online), Prefix(hs, n + 1));
    var words := SnapshotOf(m, hs[n].input.tPublish, f.number);
    ReplyRoundTrip(U32(f.number), words);
    SnapshotDescribes(b, link, motor, online, Prefix(hs, n + 1), hs[n].input.tPublish, f.number, base);
    hide HappenAll, ReceiveOnM7, Frame, Describes, SnapshotOf;
  }
}
