/** The M4's part of a run of both cores is a run of the M4: what is proved of M4 runs holds of the
    whole system, and the snapshots the M7 serves describe the M4. */
module SystemRun {
  import opened Words
  import opened Options
  import opened Contract
  import M = MotorModel
  import opened M4Core
  import opened M4Node
  import opened T = TwoCores
  import M4Snapshot
  import M4Run
  import G = GatewayModel

  /** What happens to the M4 at this action. */
  function Seen(s: System, a: Action): seq<Happening> {
    match a
    case DeliverToM4 =>
      if s.taken < |s.gateway.sent| then [Arrival(s.gateway.sent[s.taken].bytes)] else []
    case OnM4(input) => [Iteration(input)]
    case BindM4(online) => [Binding(online)]
    case _ => []
  }

  /** What happens to the M4 over a run of the system. */
  ghost function M4Side(w: World, s: System, acts: seq<Action>): seq<Happening>
    requires |s.m4.bank| == BUTTONS && ValidActions(acts)
    decreases |acts|
  {
    if |acts| == 0 then []
    else M4Side(w, s, acts[..|acts| - 1]) + Seen(Run(w, s, acts[..|acts| - 1]), Last(acts))
  }

  lemma SeenStep(w: World, s: System, a: Action)
    requires |s.m4.bank| == BUTTONS && ValidAction(a)
    ensures |Seen(s, a)| <= 1 && forall h :: h in Seen(s, a) ==> ValidHappening(h)
    ensures Next(w, s, a).m4 ==
            if |Seen(s, a)| == 0 then s.m4 else Happen(w.board, w.toM7, s.m4, Seen(s, a)[0])
  {
    hide Iterate, Receive, G.Do, ReceiveOnM4, ReceiveOnM7;
  }

  lemma HappenMore(b: M.Board, link: nat -> int, m: M4, hs: seq<Happening>, more: seq<Happening>)
    requires |m.bank| == BUTTONS && AllValid(hs) && |more| <= 1
    requires forall h :: h in more ==> ValidHappening(h)
    ensures AllValid(hs + more)
    ensures HappenAll(b, link, m, hs + more) ==
            if |more| == 0 then HappenAll(b, link, m, hs)
            else Happen(b, link, HappenAll(b, link, m, hs), more[0])
  {
    hide Happen;
    if |more| == 0 {
      assert hs + more == hs;
    } else {
      assert (hs + more)[..|hs|] == hs;
    }
  }

  /** Over any run of both cores, any frames in flight, the M4 has made a run of its own. */
  lemma {:induction false} SystemRunsM4(w: World, s: System, acts: seq<Action>)
    requires |s.m4.bank| == BUTTONS && ValidActions(acts)
    ensures AllValid(M4Side(w, s, acts))
    ensures Run(w, s, acts).m4 == HappenAll(w.board, w.toM7, s.m4, M4Side(w, s, acts))
    decreases |acts|
  {
    hide Next, Seen, Happen, ValidAction;
    if |acts| > 0 {
      var init := acts[..|acts| - 1];
      SystemRunsM4(w, s, init);
      var before := Run(w, s, init);
      SeenStep(w, before, Last(acts));
      HappenMore(w.board, w.toM7, s.m4, M4Side(w, s, init), Seen(before, Last(acts)));
    }
  }

  /** The cached image describes the M4 at the end of one of its iterations `n`. */
  ghost predicate CacheDescribes(w: World, motor: M.Motor, online: bool, s: System, hs: seq<Happening>, n: nat)
    requires AllValid(hs) && s.cache.Cached?
  {
    && n < |hs| && hs[n].Iteration?
    && M4Run.Describes(s.cache.words,
                       HappenAll(w.board, w.toM7, PowerUp(motor, online), M4Run.Prefix(hs, n + 1)).node.core,
                       M4Run.Prefix(hs, n + 1), hs[n].input.tPublish)
  }

  /** Whatever the two cores and the channels do, any image the M7 serves describes, word by word, the
      M4 at the end of one of its iterations, and no later state has reached the M7. */
  lemma ServedWords(w: World, motor: M.Motor, online: bool, acts: seq<Action>, base: nat) returns (n: nat)
    requires M.Safe(w.board, motor, base) && motor.accel == M.RUN_RAMP && motor.decel == M.STOP_RAMP
    requires motor.lastError == 0 && M4Snapshot.SmallErrors(w.board) && ValidActions(acts)
    requires Run(w, Startup(motor, online), acts).cache.Cached?
    ensures AllValid(M4Side(w, Startup(motor, online), acts))
    ensures CacheDescribes(w, motor, online, Run(w, Startup(motor, online), acts),
                           M4Side(w, Startup(motor, online), acts), n)
    ensures var s := Run(w, Startup(motor, online), acts);
            && s.cache.at < s.seen <= |s.m4.node.sent| && s.m4.node.sent[s.cache.at].StateFrame?
            && forall i :: s.cache.at < i < s.seen ==> !s.m4.node.sent[i].StateFrame?
  {
    var s0 := Startup(motor, online);
    StartupIsCoherent(w, motor, online, base);
    assert Sound(w.board, Boot(motor), base);
    RunKeeps(w, s0, acts, base);
    SystemRunsM4(w, s0, acts);
    var s, hs := Run(w, s0, acts), M4Side(w, s0, acts);
    hide Run, M4Side, Sound, G.Healthy, Acknowledged, GoodReports, ReceiveOnM7, HappenAll, M4Run.Describes;
    n := M4Run.PublishedWords(w.board, w.toM7, motor, online, hs, s.cache.at, base);
  }

  // ----- PONGs answer PINGs -----

  /** Every frame that reached the M4 was sent by the M7. */
  lemma {:induction false} ArrivalsWereSent(w: World, motor: M.Motor, online: bool, acts: seq<Action>,
                                            base: nat, i: nat)
    requires M.Safe(w.board, motor, base) && motor.accel == M.RUN_RAMP && motor.decel == M.STOP_RAMP
    requires motor.lastError == 0 && M4Snapshot.SmallErrors(w.board) && ValidActions(acts)
    requires i < |M4Side(w, Startup(motor, online), acts)|
    requires M4Side(w, Startup(motor, online), acts)[i].Arrival?
    ensures exists j :: 0 <= j < |Run(w, Startup(motor, online), acts).gateway.sent|
                        && Run(w, Startup(motor, online), acts).gateway.sent[j].bytes
                           == M4Side(w, Startup(motor, online), acts)[i].bytes
    decreases |acts|
  {
    hide Next, ValidAction;
    var s0, init := Startup(motor, online), acts[..|acts| - 1];
    assert |acts| > 0;
    var before := Run(w, s0, init);
    var after := Run(w, s0, acts);
    GatewayGrows(w, motor, online, acts, base);
    if i < |M4Side(w, s0, init)| {
      ArrivalsWereSent(w, motor, online, init, base, i);
      var j :| 0 <= j < |before.gateway.sent| && before.gateway.sent[j].bytes == M4Side(w, s0, init)[i].bytes;
      assert after.gateway.sent[j] == before.gateway.sent[j];
    } else {
      assert after.gateway.sent[before.taken] == before.gateway.sent[before.taken];
    }
  }

  lemma GatewayGrows(w: World, motor: M.Motor, online: bool, acts: seq<Action>, base: nat)
    requires M.Safe(w.board, motor, base) && motor.accel == M.RUN_RAMP && motor.decel == M.STOP_RAMP
    requires motor.lastError == 0 && M4Snapshot.SmallErrors(w.board) && ValidActions(acts) && |acts| > 0
    ensures Run(w, Startup(motor, online), acts[..|acts| - 1]).gateway.sent
            <= Run(w, Startup(motor, online), acts).gateway.sent
  {
    var s0, init, a := Startup(motor, online), acts[..|acts| - 1], Last(acts);
    StartupIsCoherent(w, motor, online, base);
    RunKeeps(w, s0, init, base);
    hide Run, Startup, Coherent, Next;
    NextGrows(w, Run(w, s0, init), a, base);
    assert Run(w, s0, acts) == Next(w, Run(w, s0, init), a) by { RunStep(w, s0, acts); }
  }

  lemma RunStep(w: World, s: System, acts: seq<Action>)
    requires |s.m4.bank| == BUTTONS && ValidActions(acts) && |acts| > 0
    ensures Run(w, s, acts) == Next(w, Run(w, s, acts[..|acts| - 1]), Last(acts))
  {
    hide Next;
  }

  lemma NextGrows(w: World, s: System, a: Action, base: nat)
    requires Coherent(w, s, base) && ValidAction(a)
    ensures s.gateway.sent <= Next(w, s, a).gateway.sent
  {
    if a.OnM7? {
      G.DoKeeps(w.toM4, s.gateway, a.op);
    }
    hide Coherent, G.Do, G.Healthy, Iterate, Receive, ReceiveOnM4, ReceiveOnM7;
  }

  lemma {:induction false} LatestPingArrived(hs: seq<Happening>) returns (k: nat)
    requires M4Run.LatestPing(hs).Some?
    ensures k < |hs| && hs[k].Arrival? && ReceiveOnM4(hs[k].bytes) == PingRequest(M4Run.LatestPing(hs).value)
    decreases |hs|
  {
    hide ReceiveOnM4;
    if Last(hs).Arrival? && ReceiveOnM4(Last(hs).bytes).PingRequest? {
      k := |hs| - 1;
    } else {
      k := LatestPingArrived(hs[..|hs| - 1]);
    }
  }

  /** Every PONG the M4 ever sends carries the sequence of a PING the M7 really sent. */
  lemma PongsAnswerPings(w: World, motor: M.Motor, online: bool, acts: seq<Action>, base: nat, i: nat)
    requires M.Safe(w.board, motor, base) && motor.accel == M.RUN_RAMP && motor.decel == M.STOP_RAMP
    requires motor.lastError == 0 && M4Snapshot.SmallErrors(w.board) && ValidActions(acts)
    requires i < |Run(w, Startup(motor, online), acts).m4.node.sent|
    requires Run(w, Startup(motor, online), acts).m4.node.sent[i].PongFrame?
    ensures var s := Run(w, Startup(motor, online), acts);
            exists j :: 0 <= j < |s.gateway.sent| && s.gateway.sent[j].SentPing?
                        && ReceiveOnM7(s.m4.node.sent[i].bytes) == PongReply(U32(s.gateway.sent[j].number))
  {
    var s0 := Startup(motor, online);
    var s, hs := Run(w, s0, acts), M4Side(w, s0, acts);
    SystemRunsM4(w, s0, acts);
    StartupIsCoherent(w, motor, online, base);
    RunKeeps(w, s0, acts, base);
    var n := M4Run.FramesHaveIterations(w.board, w.toM7, motor, online, hs, i);
    var q := M4Run.LatestPing(hs[..n]).value;
    var k := LatestPingArrived(hs[..n]);
    assert hs[..n][k] == hs[k];
    ArrivalsWereSent(w, motor, online, acts, base, k);
    hide Run, M4Side, HappenAll, Sound, Acknowledged, GoodReports, CacheHonest, M4Run.LatestPing;
    var j :| 0 <= j < |s.gateway.sent| && s.gateway.sent[j].bytes == hs[k].bytes;
    assert G.Faithful(s.gateway.sent[j], s.gateway.counter, s.gateway.pings);
    PingFrame(s.gateway.sent[j], s.gateway.counter, s.gateway.pings, q);
    ReplyRoundTrip(q, seq(STATE_WORDS, _ => 0));
  }

  /** A command frame is never taken for a PING. */
  lemma CommandIsNoPing(f: G.Sent, counter: nat, pings: nat)
    requires f.SentCommand? && G.Faithful(f, counter, pings)
    ensures !ReceiveOnM4(f.bytes).PingRequest?
  {
    CommandRoundTrip(DecodeCommand(f.bytes), U32(f.number));
    hide EncodeCommand, DecodeCommand;
  }

  /** A frame the M4 takes for a PING is a PING of the M7, with this number. */
  lemma PingFrame(f: G.Sent, counter: nat, pings: nat, q: dword)
    requires G.Faithful(f, counter, pings) && ReceiveOnM4(f.bytes) == PingRequest(q)
    ensures f.SentPing? && q == U32(f.number)
  {
    if f.SentCommand? {
      CommandIsNoPing(f, counter, pings);
    } else {
      ReplyRoundTrip(U32(f.number), seq(STATE_WORDS, _ => 0));
    }
  }
}
