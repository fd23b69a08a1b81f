/** The two cores and the two in-order channels between them. A channel is the sender's history
    and the number of frames delivered so far: anything may be in flight, nothing is reordered. */
module TwoCores {
  import opened Words
  import opened Options
  import opened Contract
  import opened MotorModel
  import opened M4Core
  import opened M4Node
  import M4Snapshot
  import G = GatewayModel

  /** The M7's copy of the last state it received; `at` is its place in the M4's history. */
  datatype Cache = Empty | Cached(sequence: dword, words: seq<word>, at: nat)

  /** `mailAt` is the place in the M7's history of the last command put in the mailbox and
      `acceptedAt` of the last one applied without error; -1 before the first. */
  datatype System = System(
    gateway: G.Gateway,
    taken: nat,
    m4: M4,
    mailAt: int,
    acceptedAt: int,
    seen: nat,
    cache: Cache)

  datatype World = World(board: Board, toM4: nat -> int, toM7: nat -> int)

  datatype Action =
    | OnM7(op: G.Op)
    | DeliverToM4
    | OnM4(input: Input)
    | BindM4(online: bool)
    | DeliverToM7

  ghost predicate ValidAction(a: Action) {
    && (a.OnM7? ==> G.ValidOp(a.op))
    && (a.OnM4? ==> ValidInput(a.input)
                    && -0x8000 <= a.input.adcSetup && -0x8000 <= a.input.adcRead)
  }

  function Deliver(s: System): System {
    if s.taken >= |s.gateway.sent| then s
    else
      var bytes := s.gateway.sent[s.taken].bytes;
      s.(taken := s.taken + 1,
         m4 := s.m4.(node := Receive(s.m4.node, bytes)),
         mailAt := if ReceiveOnM4(bytes).CommandRequest? then s.taken else s.mailAt)
  }

  /** Whether the command in the mailbox is applied without error in this iteration. */
  predicate Accepts(w: World, s: System, i: Input) {
    s.m4.node.mailbox.Some?
    && Apply(w.board, s.m4.node.core, s.m4.node.mailbox.value, i.tCommand).1 == 0
  }

  function Collect(s: System): System {
    if s.seen >= |s.m4.node.sent| then s
    else
      var r := ReceiveOnM7(s.m4.node.sent[s.seen].bytes);
      s.(seen := s.seen + 1,
         cache := if r.StateReport? then Cached(r.sequence, r.words, s.seen) else s.cache)
  }

  function Next(w: World, s: System, a: Action): System
    requires |s.m4.bank| == BUTTONS && (a.OnM4? ==> ValidInput(a.input))
  {
    match a
    case OnM7(op) => s.(gateway := G.Do(w.toM4, s.gateway, op))
    case DeliverToM4 => Deliver(s)
    case OnM4(i) =>
      s.(m4 := Iterate(w.board, w.toM7, s.m4, i),
         acceptedAt := if Accepts(w, s, i) then s.mailAt else s.acceptedAt)
    case BindM4(online) => s.(m4 := s.m4.(node := s.m4.node.(online := online)))
    case DeliverToM7 => Collect(s)
  }

  /** The true number of the command at a place of the M7's history. */
  function NumberAt(s: System, at: int): nat
    requires at < |s.gateway.sent|
  {
    if at < 0 then 0 else s.gateway.sent[at].number
  }

  // ----- Invariants -----

  /** The mailbox and the acknowledged sequence refer to commands really issued and delivered. */
  ghost predicate Acknowledged(s: System) {
    && s.taken <= |s.gateway.sent|
    && -1 <= s.acceptedAt <= s.mailAt < s.taken
    && (s.mailAt >= 0 ==> s.gateway.sent[s.mailAt].SentCommand?)
    && (s.acceptedAt >= 0 ==> s.gateway.sent[s.acceptedAt].SentCommand?)
    && (s.m4.node.mailbox.Some? ==>
          && s.mailAt > s.acceptedAt
          && |s.gateway.sent[s.mailAt].bytes| == 36
          && s.m4.node.mailbox.value == DecodeCommand(s.gateway.sent[s.mailAt].bytes)
          && s.m4.node.mailbox.value.sequence == U16(NumberAt(s, s.mailAt))
          && Acceptable(s.m4.node.mailbox.value))
    && s.m4.node.core.lastAccepted == U16(NumberAt(s, s.acceptedAt))
  }

  /** A report is a PONG, or a sane state under a number already published. */
  ghost predicate GoodReport(r: Report, published: nat) {
    match r
    case PongFrame(bytes, number) => ReceiveOnM7(bytes).PongReply?
    case StateFrame(bytes, number) =>
      && 0 < number <= published
      && ReceiveOnM7(bytes).StateReport?
      && ReceiveOnM7(bytes).sequence == U32(number)
      && M4Snapshot.Sane(ReceiveOnM7(bytes).words)
      && ReceiveOnM7(bytes).words[9] == U16(number)
  }

  ghost predicate GoodReports(n: Node) {
    && (forall i :: 0 <= i < |n.sent| ==> GoodReport(n.sent[i], n.published))
    && (forall i, j :: 0 <= i < j < |n.sent| && n.sent[i].StateFrame? && n.sent[j].StateFrame? ==>
          n.sent[i].number < n.sent[j].number)
  }

  /** The cache holds exactly one published report: the latest the M7 has received. */
  ghost predicate CacheHonest(s: System) {
    && s.seen <= |s.m4.node.sent|
    && (s.cache.Cached? ==>
          && s.cache.at < s.seen
          && s.m4.node.sent[s.cache.at].StateFrame?
          && ReceiveOnM7(s.m4.node.sent[s.cache.at].bytes)
             == StateReport(s.cache.sequence, s.cache.words))
    && (forall i :: 0 <= i < s.seen && s.m4.node.sent[i].StateFrame? ==>
          s.cache.Cached? && i <= s.cache.at)
  }

  ghost predicate Coherent(w: World, s: System, base: nat) {
    && |s.m4.bank| == BUTTONS
    && G.Healthy(s.gateway)
    && Sound(w.board, s.m4.node.core, base)
    && M4Snapshot.ErrorFits(s.m4.node.core.motor)
    && Acknowledged(s)
    && GoodReports(s.m4.node)
    && CacheHonest(s)
  }

  // ----- The M7 and the channel to the M4 -----

  /** More frames in flight change nothing about the ones that were. */
  lemma MoreFramesAcknowledge(s: System, r: System)
    requires Acknowledged(s) && r == s.(gateway := r.gateway) && s.gateway.sent <= r.gateway.sent
    ensures Acknowledged(r) && NumberAt(r, r.acceptedAt) == NumberAt(s, s.acceptedAt)
  {
    hide DecodeCommand, Acceptable;
    assert forall i :: 0 <= i < |s.gateway.sent| ==> r.gateway.sent[i] == s.gateway.sent[i];
  }

  lemma OnM7Keeps(w: World, s: System, op: G.Op, base: nat)
    requires Coherent(w, s, base) && G.ValidOp(op)
    ensures var r := Next(w, s, OnM7(op));
            Coherent(w, r, base) && NumberAt(r, r.acceptedAt) == NumberAt(s, s.acceptedAt)
  {
    G.DoKeeps(w.toM4, s.gateway, op);
    hide G.Do, G.Healthy, Sound, GoodReports, CacheHonest, Acknowledged;
    MoreFramesAcknowledge(s, Next(w, s, OnM7(op)));
    CacheFrame(s, Next(w, s, OnM7(op)));
  }

  lemma CacheFrame(s: System, r: System)
    requires CacheHonest(s) && r == s.(gateway := r.gateway)
    ensures CacheHonest(r)
  {
  }

  /** What the next frame in the channel does when the M4 receives it. */
  lemma NextFrame(s: System)
    requires G.Healthy(s.gateway) && s.taken < |s.gateway.sent|
    ensures var f := s.gateway.sent[s.taken];
            var inbound := ReceiveOnM4(f.bytes);
            && (inbound.CommandRequest? ==>
                  && f.SentCommand? && |f.bytes| == 36
                  && inbound.command == DecodeCommand(f.bytes) && Acceptable(inbound.command)
                  && inbound.command.sequence == U16(f.number))
  {
    var f := s.gateway.sent[s.taken];
    assert G.Faithful(f, s.gateway.counter, s.gateway.pings);
    if f.SentCommand? {
      G.FaithfulAgrees(s.gateway, s.taken);
    } else {
      ReplyRoundTrip(U32(f.number), seq(STATE_WORDS, _ => 0));
    }
  }

  lemma DeliverKeeps(w: World, s: System, base: nat)
    requires Coherent(w, s, base)
    ensures Coherent(w, Deliver(s), base)
  {
    hide Sound, G.Healthy, GoodReport, DecodeCommand, ReceiveOnM4, ReceiveOnM7, Acceptable, U16;
    if s.taken < |s.gateway.sent| {
      NextFrame(s);
      assert Acknowledged(Deliver(s));
    }
  }

  // ----- The M4 -----

  lemma AcceptedSequence(b: Board, c: Core, e: Event)
    ensures Step(b, c, e).lastAccepted ==
            if e.command.Some? && Apply(b, c, e.command.value, e.tCommand).1 == 0
            then e.command.value.sequence else c.lastAccepted
  {
    hide ExecuteAndStart, Process, Reset, Stop;
    var i := Ipc(b, c, e);
    assert Step(b, c, e).lastAccepted == i.lastAccepted;
  }

  lemma TransmitKeeps(link: nat -> int, n: Node, r: Report, published: nat)
    requires GoodReports(n) && published >= n.published
    requires GoodReport(r, published) && (r.StateFrame? ==> r.number > n.published)
    ensures GoodReports(Transmit(link, n, r).0.(published := published))
    ensures n.sent <= Transmit(link, n, r).0.sent
  {
    hide ReceiveOnM7, M4Snapshot.Sane;
    var n1 := Transmit(link, n, r).0.(published := published);
    forall i | 0 <= i < |n1.sent|
      ensures GoodReport(n1.sent[i], published)
    {
      assert i < |n.sent| ==> GoodReport(n.sent[i], n.published);
    }
    forall i, j | 0 <= i < j < |n1.sent| && n1.sent[i].StateFrame? && n1.sent[j].StateFrame?
      ensures n1.sent[i].number < n1.sent[j].number
    {
      assert GoodReport(n.sent[i], n.published);
    }
  }

  lemma AnswerPingKeeps(link: nat -> int, n: Node)
    requires GoodReports(n)
    ensures GoodReports(AnswerPing(link, n))
    ensures n.sent <= AnswerPing(link, n).sent && AnswerPing(link, n).published == n.published
  {
    if n.online && n.pingPending {
      ReplyRoundTrip(n.pingSequence, seq(STATE_WORDS, _ => 0));
      hide ReceiveOnM7, GoodReports;
      TransmitKeeps(link, n, PongFrame(Header(PONG, n.pingSequence, 0), n.pingSequence), n.published);
      GoodReportsFrame(Transmit(link, n, PongFrame(Header(PONG, n.pingSequence, 0), n.pingSequence)).0,
                       AnswerPing(link, n));
    }
  }

  /** Only the sent frames and the publication count matter to the reports. */
  lemma GoodReportsFrame(n: Node, n': Node)
    requires GoodReports(n) && n'.sent == n.sent && n'.published == n.published
    ensures GoodReports(n')
  {
  }

  lemma StateReportIsGood(b: Board, c: Core, base: nat, buttons: word, raw: word, now: nat, number: nat)
    requires Sound(b, c, base) && M4Snapshot.ErrorFits(c.motor) && number > 0
    ensures var words := M4Snapshot.StateWords(c, buttons, raw, LOOP_MS, now, U16(number));
            GoodReport(StateFrame(Frame(MOTOR_STATE, U32(number), words), number), number)
  {
    hide Frame, ReceiveOnM7, Sound, M4Snapshot.Sane, U16, U32, M4Snapshot.Flags, Age;
    var words := M4Snapshot.StateWords(c, buttons, raw, LOOP_MS, now, U16(number));
    M4Snapshot.SnapshotIsSane(b, c, base, buttons, raw, LOOP_MS, now, U16(number));
    ReplyRoundTrip(U32(number), words);
  }

  lemma PublishKeeps(b: Board, link: nat -> int, n: Node, buttons: word, raw: word, now: nat, base: nat)
    requires GoodReports(n) && Sound(b, n.core, base) && M4Snapshot.ErrorFits(n.core.motor)
    ensures var r := Publish(link, n, buttons, raw, now);
            GoodReports(r) && n.sent <= r.sent && r.core == n.core && r.mailbox == n.mailbox
  {
    hide GoodReport, GoodReports, M4Snapshot.StateWords, Sound, Frame, U16, U32;
    if n.online {
      var number := n.published + 1;
      var words := M4Snapshot.StateWords(n.core, buttons, raw, LOOP_MS, now, U16(number));
      StateReportIsGood(b, n.core, base, buttons, raw, now, number);
      var r := StateFrame(Frame(MOTOR_STATE, U32(number), words), number);
      TransmitKeeps(link, n, r, number);
      GoodReportsFrame(Transmit(link, n, r).0.(published := number), Publish(link, n, buttons, raw, now));
    }
  }

  lemma ReadingFits(m: M4, i: Input)
    requires |m.bank| == BUTTONS && ValidInput(i)
    requires -0x8000 <= i.adcSetup && -0x8000 <= i.adcRead
    ensures M4Snapshot.SmallReading(EventOf(m, i))
  {
  }

  lemma IterateKeepsReports(w: World, m: M4, i: Input, base: nat)
    requires |m.bank| == BUTTONS && ValidAction(OnM4(i)) && M4Snapshot.SmallErrors(w.board)
    requires Sound(w.board, m.node.core, base) && M4Snapshot.ErrorFits(m.node.core.motor)
    requires GoodReports(m.node) && MailboxLegal(m.node)
    ensures var r := Iterate(w.board, w.toM7, m, i);
            && r.node.core == Step(w.board, m.node.core, EventOf(m, i)) && r.node.mailbox.None?
            && Sound(w.board, r.node.core, base) && M4Snapshot.ErrorFits(r.node.core.motor)
            && GoodReports(r.node) && m.node.sent <= r.node.sent
  {
    var e := EventOf(m, i);
    ReadingFits(m, i);
    assert Legal(e);
    hide Sound, GoodReports, Step, Publish, AnswerPing, M4Snapshot.ErrorFits, M4Snapshot.SmallErrors;
    StepKeeps(w.board, m.node.core, e, base);
    M4Snapshot.StepErrorFits(w.board, m.node.core, e);
    AnswerPingKeeps(w.toM7, m.node);
    var n1 := AnswerPing(w.toM7, m.node);
    var n2 := n1.(core := Step(w.board, m.node.core, e), mailbox := None);
    GoodReportsFrame(n1, n2);
    PublishKeeps(w.board, w.toM7, n2, StableMask(Sampled4(m.bank, i.readings)),
                 PollPot(m.pot, i).0.raw, i.tPublish, base);
  }

  /** An iteration that empties the mailbox keeps the acknowledgement when the core's sequence word
      moves to the mailbox command's exactly if that was accepted. */
  lemma IterationAcknowledges(s: System, r: System, accepts: bool)
    requires Acknowledged(s)
    requires r == s.(m4 := r.m4, acceptedAt := if accepts then s.mailAt else s.acceptedAt)
    requires r.m4.node.mailbox.None? && (accepts ==> s.m4.node.mailbox.Some?)
    requires r.m4.node.core.lastAccepted ==
             if accepts then s.m4.node.mailbox.value.sequence else s.m4.node.core.lastAccepted
    ensures Acknowledged(r)
  {
  }

  lemma MoreReportsKeepCache(s: System, r: System)
    requires CacheHonest(s) && r.cache == s.cache && r.seen == s.seen
    requires s.m4.node.sent <= r.m4.node.sent
    ensures CacheHonest(r)
  {
  }

  lemma OnM4Keeps(w: World, s: System, i: Input, base: nat)
    requires Coherent(w, s, base) && ValidAction(OnM4(i)) && M4Snapshot.SmallErrors(w.board)
    ensures Coherent(w, Next(w, s, OnM4(i)), base)
  {
    IterateKeepsReports(w, s.m4, i, base);
    AcceptedSequence(w.board, s.m4.node.core, EventOf(s.m4, i));
    hide Sound, GoodReports, Step, Iterate, Apply, G.Healthy, M4Snapshot.ErrorFits;
    hide Acknowledged, CacheHonest, Presses, PollPot;
    var r := Next(w, s, OnM4(i));
    IterationAcknowledges(s, r, Accepts(w, s, i));
    MoreReportsKeepCache(s, r);
  }

  lemma CollectKeeps(w: World, s: System, base: nat)
    requires Coherent(w, s, base)
    ensures Coherent(w, Collect(s), base)
    ensures s.cache.Cached? ==> Collect(s).cache.Cached? && s.cache.at <= Collect(s).cache.at
  {
    if s.seen < |s.m4.node.sent| {
      assert GoodReport(s.m4.node.sent[s.seen], s.m4.node.published);
    }
    hide Sound, G.Healthy, GoodReports, ReceiveOnM7, DecodeCommand, Acceptable;
  }

  /** Every step of the two cores, in any order, keeps the system coherent. */
  lemma NextKeeps(w: World, s: System, a: Action, base: nat)
    requires Coherent(w, s, base) && ValidAction(a) && M4Snapshot.SmallErrors(w.board)
    ensures Coherent(w, Next(w, s, a), base)
  {
    match a
    case OnM7(op) => OnM7Keeps(w, s, op, base);
    case DeliverToM4 => DeliverKeeps(w, s, base);
    case OnM4(i) => OnM4Keeps(w, s, i, base);
    case BindM4(online) =>
      hide Sound, G.Healthy, GoodReport, DecodeCommand, ReceiveOnM7, Acceptable;
    case DeliverToM7 => CollectKeeps(w, s, base);
  }

  // ----- Whole runs -----

  ghost predicate ValidActions(acts: seq<Action>)
    decreases |acts|
  {
    |acts| == 0 || (ValidActions(acts[..|acts| - 1]) && ValidAction(Last(acts)))
  }

  ghost function Run(w: World, s: System, acts: seq<Action>): (r: System)
    requires |s.m4.bank| == BUTTONS && ValidActions(acts)
    ensures |r.m4.bank| == BUTTONS
    decreases |acts|
  {
    if |acts| == 0 then s else Next(w, Run(w, s, acts[..|acts| - 1]), Last(acts))
  }

  /** Both cores freshly started, the motor successfully initialized. */
  function Startup(motor: Motor, online: bool): System {
    System(G.POWER_UP, 0, PowerUp(motor, online), -1, -1, 0, Empty)
  }

  lemma {:induction false} RunKeeps(w: World, s: System, acts: seq<Action>, base: nat)
    requires Coherent(w, s, base) && ValidActions(acts) && M4Snapshot.SmallErrors(w.board)
    ensures Coherent(w, Run(w, s, acts), base)
    decreases |acts|
  {
    assert |s.m4.bank| == BUTTONS;
    hide Coherent, Next;
    if |acts| > 0 {
      RunKeeps(w, s, acts[..|acts| - 1], base);
      NextKeeps(w, Run(w, s, acts[..|acts| - 1]), Last(acts), base);
    }
  }

  lemma StartupIsCoherent(w: World, motor: Motor, online: bool, base: nat)
    requires Safe(w.board, motor, base) && motor.accel == RUN_RAMP && motor.decel == STOP_RAMP
    requires motor.lastError == 0
    ensures Coherent(w, Startup(motor, online), base)
  {
  }

  /** The acknowledged word stands for a command really issued and delivered. */
  ghost predicate Issued(s: System) {
    && -1 <= s.acceptedAt < s.taken <= |s.gateway.sent|
    && (s.acceptedAt >= 0 ==> s.gateway.sent[s.acceptedAt].SentCommand?)
    && NumberAt(s, s.acceptedAt) <= s.gateway.counter
    && s.m4.node.core.lastAccepted == U16(NumberAt(s, s.acceptedAt))
  }

  lemma CoherentIsIssued(w: World, s: System, base: nat)
    requires Coherent(w, s, base)
    ensures s.taken > 0 || s.acceptedAt == -1
    ensures s.acceptedAt >= 0 ==> Issued(s)
    ensures s.acceptedAt < 0 ==> s.m4.node.core.lastAccepted == 0
  {
  }

  /** The command in the mailbox was issued after the last accepted one. */
  lemma LaterIsLarger(w: World, s: System, base: nat)
    requires Coherent(w, s, base) && s.m4.node.mailbox.Some?
    ensures s.acceptedAt < s.mailAt < |s.gateway.sent|
    ensures NumberAt(s, s.acceptedAt) <= NumberAt(s, s.mailAt)
  {
  }

  lemma AcceptanceAdvances(w: World, s: System, a: Action, base: nat)
    requires Coherent(w, s, base) && ValidAction(a)
    requires s.acceptedAt < |s.gateway.sent| && s.mailAt < |s.gateway.sent|
    ensures var r := Next(w, s, a);
            && s.acceptedAt <= r.acceptedAt < |r.gateway.sent|
            && NumberAt(s, s.acceptedAt) <= NumberAt(r, r.acceptedAt)
            && (r.acceptedAt != s.acceptedAt ==>
                  a.OnM4? && Accepts(w, s, a.input) && r.acceptedAt == s.mailAt)
  {
    if a.OnM7? {
      OnM7Keeps(w, s, a.op, base);
      G.DoKeeps(w.toM4, s.gateway, a.op);
      hide Coherent, G.Do, G.Healthy, NumberAt;
    } else {
      if a.OnM4? && Accepts(w, s, a.input) {
        LaterIsLarger(w, s, base);
      }
      hide Coherent, Iterate, Accepts, ReceiveOnM4, ReceiveOnM7;
    }
  }

  /** The acknowledged sequence, over every interleaving of sends, deliveries, mailbox overwrites
      and iterations: it stands for a command that was really issued and delivered, its true number
      never decreases and never exceeds the M7's counter, the 16-bit word is that number's low half,
      and it changes only in an iteration that applies the mailbox command without error. */
  lemma AcknowledgedSequence(w: World, motor: Motor, online: bool, acts: seq<Action>, a: Action, base: nat)
    requires Safe(w.board, motor, base) && motor.accel == RUN_RAMP && motor.decel == STOP_RAMP
    requires motor.lastError == 0 && M4Snapshot.SmallErrors(w.board)
    requires ValidActions(acts) && ValidAction(a)
    ensures var s := Run(w, Startup(motor, online), acts);
            var r := Next(w, s, a);
            && (s.acceptedAt >= 0 ==> Issued(s))
            && (s.acceptedAt < 0 ==> s.m4.node.core.lastAccepted == 0)
            && -1 <= s.acceptedAt <= r.acceptedAt < |r.gateway.sent|
            && s.acceptedAt < |s.gateway.sent|
            && NumberAt(s, s.acceptedAt) <= NumberAt(r, r.acceptedAt)
            && (r.acceptedAt != s.acceptedAt ==>
                  a.OnM4? && Accepts(w, s, a.input) && r.acceptedAt == s.mailAt)
  {
    StartupIsCoherent(w, motor, online, base);
    RunKeeps(w, Startup(motor, online), acts, base);
    var s := Run(w, Startup(motor, online), acts);
    CoherentIsIssued(w, s, base);
    hide Run, Sound, GoodReports, CacheHonest, G.Healthy, DecodeCommand, Acceptable, Next;
    AcceptanceAdvances(w, s, a, base);
  }

  /** Any image the M7 serves is exactly one state the M4 published, in publication order, and
      tells a consistent story about mode, motor, latch, timeout and fault. */
  lemma ServedSnapshots(w: World, motor: Motor, online: bool, acts: seq<Action>, a: Action, base: nat)
    requires Safe(w.board, motor, base) && motor.accel == RUN_RAMP && motor.decel == STOP_RAMP
    requires motor.lastError == 0 && M4Snapshot.SmallErrors(w.board)
    requires ValidActions(acts) && ValidAction(a)
    ensures var s := Run(w, Startup(motor, online), acts);
            var r := Next(w, s, a);
            && (s.cache.Cached? ==>
                  && s.cache.at < |s.m4.node.sent|
                  && var report := s.m4.node.sent[s.cache.at];
                     && report.StateFrame? && 0 < report.number <= s.m4.node.published
                     && ReceiveOnM7(report.bytes) == StateReport(U32(report.number), s.cache.words)
                     && M4Snapshot.Sane(s.cache.words)
                     && s.cache.words[9] == U16(report.number))
            && (forall i :: 0 <= i < s.seen <= |s.m4.node.sent| && s.m4.node.sent[i].StateFrame? ==>
                  s.cache.Cached? && i <= s.cache.at)
            && (s.cache.Cached? ==> r.cache.Cached? && s.cache.at <= r.cache.at)
  {
    StartupIsCoherent(w, motor, online, base);
    RunKeeps(w, Startup(motor, online), acts, base);
    var s := Run(w, Startup(motor, online), acts);
    hide Sound, G.Healthy, Acknowledged, ReceiveOnM7, Run;
    if s.cache.Cached? {
      assert GoodReport(s.m4.node.sent[s.cache.at], s.m4.node.published);
    }
    CollectKeeps(w, s, base);
  }
}
