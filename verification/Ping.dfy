/** The PING/PONG exchange as interleaved atomic steps of the ping caller, both receive callbacks
    and the M4's main loop. The channels are weaker than the real ones: any frame ever sent may be
    delivered at any time, again and again, or never. */
module Ping {
  import opened Words

  /** The caller's progress inside the ping lock. */
  datatype Caller = Idle | Locked | SemReset | Numbered | Cleared | Waiting | Woken | Succeeded

  /** The M7's receive callback: idle, or between storing a sequence and giving the semaphore. */
  datatype Callback = Quiet | Stored

  /** A PONG and the true number of the PING whose sequence it carries. */
  datatype Pong = Pong(wire: dword, cause: nat)

  datatype Link = Link(
    caller: Caller,
    next: nat,
    received: dword,
    sem: bool,
    callback: Callback,
    pings: seq<nat>,
    pongs: seq<Pong>,
    before: nat,
    sequence: dword,
    sequenceOf: nat,
    flag: bool,
    claimed: bool)

  const START: Link := Link(Idle, 0, 0, false, Quiet, [], [], 0, 0, 0, false, false)

  datatype Step =
    // the caller on the M7
    | Lock
    | ResetSemaphore
    | TakeNumber
    | ClearReceived
    | SendPing(ok: bool)
    | TakeSemaphore
    | TimeOut
    | Check
    | Return
    // the receive callback on the M7
    | StorePong(which: nat)
    | GiveSemaphore
    // the receive callback on the M4
    | StorePing(which: nat)
    | RaiseFlag
    // the main loop on the M4
    | ClaimFlag
    | SendPong(ok: bool)

  /** A step that is not enabled changes nothing. `before` remembers how many PONGs had been sent
      when the current PING was. */
  function Next(l: Link, s: Step): Link {
    match s
    case Lock => if l.caller == Idle then l.(caller := Locked) else l
    case ResetSemaphore => if l.caller == Locked then l.(caller := SemReset, sem := false) else l
    case TakeNumber => if l.caller == SemReset then l.(caller := Numbered, next := l.next + 1) else l
    case ClearReceived => if l.caller == Numbered then l.(caller := Cleared, received := 0) else l
    case SendPing(ok) =>
      if l.caller != Cleared then l
      else if !ok then l.(caller := Idle)
      else l.(caller := Waiting, pings := l.pings + [l.next], before := |l.pongs|)
    case TakeSemaphore =>
      if l.caller == Waiting && l.sem then l.(caller := Woken, sem := false) else l
    case TimeOut => if l.caller == Waiting then l.(caller := Idle) else l
    case Check =>
      if l.caller != Woken then l
      else l.(caller := if l.received == U32(l.next) then Succeeded else Idle)
    case Return => if l.caller == Succeeded then l.(caller := Idle) else l
    case StorePong(which) =>
      if l.callback == Quiet && which < |l.pongs| then
        l.(callback := Stored, received := l.pongs[which].wire)
      else l
    case GiveSemaphore => if l.callback == Stored then l.(callback := Quiet, sem := true) else l
    case StorePing(which) =>
      if which < |l.pings| then l.(sequence := U32(l.pings[which]), sequenceOf := l.pings[which]) else l
    case RaiseFlag => if l.sequenceOf > 0 then l.(flag := true) else l
    case ClaimFlag => if l.flag && !l.claimed then l.(flag := false, claimed := true) else l
    case SendPong(ok) =>
      if !l.claimed then l
      else if !ok then l.(claimed := false, flag := true)
      else l.(claimed := false, pongs := l.pongs + [Pong(l.sequence, l.sequenceOf)])
  }

  function Run(l: Link, steps: seq<Step>): Link
    decreases |steps|
  {
    if |steps| == 0 then l else Next(Run(l, steps[..|steps| - 1]), Last(steps))
  }

  const WRAP := 0x1_0000_0000

  /** The current PING has been sent and its outcome is still open or just known. */
  predicate InFlight(l: Link) {
    l.caller in {Waiting, Woken, Succeeded}
  }

  /** Its number has been taken but it has not been sent. */
  predicate Unsent(l: Link) {
    l.caller in {Numbered, Cleared}
  }

  ghost predicate PingsIssued(l: Link) {
    forall n :: n in l.pings ==> 0 < n <= l.next && (Unsent(l) ==> n < l.next)
  }

  /** The M4 answers only sequences it received. */
  ghost predicate AnswersReceived(l: Link) {
    && l.sequence == U32(l.sequenceOf)
    && (l.sequenceOf > 0 ==> l.sequenceOf in l.pings)
    && (l.flag || l.claimed ==> l.sequenceOf > 0)
    && (forall i :: 0 <= i < |l.pongs| ==>
          l.pongs[i].wire == U32(l.pongs[i].cause) && l.pongs[i].cause in l.pings)
  }

  /** A PONG with this sequence has been sent. */
  ghost predicate Answered(l: Link, wire: dword) {
    exists i :: 0 <= i < |l.pongs| && l.pongs[i].wire == wire
  }

  /** What the M7 last stored came from a PONG. */
  ghost predicate ReceivedIsAnswer(l: Link) {
    && (l.received != 0 ==> Answered(l, l.received))
    && (l.caller == Succeeded && U32(l.next) != 0 ==> Answered(l, U32(l.next)))
  }

  /** The PONGs sent before the current PING answer earlier ones. */
  ghost predicate OldAnswersAreOlder(l: Link) {
    && (Unsent(l) || InFlight(l) ==> l.next > 0)
    && (InFlight(l) ==>
          l.before <= |l.pongs| && forall i :: 0 <= i < l.before ==> l.pongs[i].cause < l.next)
  }

  ghost predicate Sound(l: Link) {
    PingsIssued(l) && AnswersReceived(l) && ReceivedIsAnswer(l) && OldAnswersAreOlder(l)
  }

  lemma IssuedKeeps(l: Link, s: Step)
    requires PingsIssued(l) && OldAnswersAreOlder(l)
    ensures PingsIssued(Next(l, s))
  {
  }

  lemma AnswersKeep(l: Link, s: Step)
    requires AnswersReceived(l) && PingsIssued(l)
    ensures AnswersReceived(Next(l, s))
  {
    var r := Next(l, s);
    assert forall n :: n in l.pings ==> n in r.pings;
  }

  lemma OlderKeeps(l: Link, s: Step)
    requires PingsIssued(l) && AnswersReceived(l) && OldAnswersAreOlder(l)
    ensures OldAnswersAreOlder(Next(l, s))
  {
  }

  lemma AnswerKeeps(l: Link, s: Step)
    requires ReceivedIsAnswer(l)
    ensures ReceivedIsAnswer(Next(l, s))
  {
    var r := Next(l, s);
    forall wire: dword | Answered(l, wire)
      ensures Answered(r, wire)
    {
      var i :| 0 <= i < |l.pongs| && l.pongs[i].wire == wire;
      assert r.pongs[i].wire == wire;
    }
    if s.StorePong? && r != l {
      assert r.pongs[s.which].wire == r.received;
    }
  }

  lemma NextKeeps(l: Link, s: Step)
    requires Sound(l)
    ensures Sound(Next(l, s))
  {
    hide Next, PingsIssued, AnswersReceived, ReceivedIsAnswer, OldAnswersAreOlder;
    IssuedKeeps(l, s);
    AnswersKeep(l, s);
    OlderKeeps(l, s);
    AnswerKeeps(l, s);
  }

  lemma {:induction false} RunKeeps(steps: seq<Step>)
    ensures Sound(Run(START, steps))
    decreases |steps|
  {
    if |steps| > 0 {
      hide Next, Sound;
      RunKeeps(steps[..|steps| - 1]);
      NextKeeps(Run(START, steps[..|steps| - 1]), Last(steps));
    }
  }

  /** Freshness: whatever is lost, delayed, repeated or interleaved, a ping succeeds only if the M4
      sent a PONG for this very PING after the PING was sent, as long as fewer than 2^32 have been
      issued. A stale PONG alone never makes it succeed. */
  lemma PingIsFresh(steps: seq<Step>)
    requires Run(START, steps).caller == Succeeded && Run(START, steps).next < WRAP
    ensures var l := Run(START, steps);
            exists i :: l.before <= i < |l.pongs| && l.pongs[i].cause == l.next
  {
    var l := Run(START, steps);
    RunKeeps(steps);
    hide Run, Next;
    assert U32(l.next) == l.next;
    var i :| 0 <= i < |l.pongs| && l.pongs[i].wire == U32(l.next);
    assert l.pongs[i].cause in l.pings;
    assert l.pongs[i].cause == l.next;
  }

  // ----- The bound is needed -----

  ghost predicate Reachable(l: Link) {
    exists steps :: Run(START, steps) == l
  }

  lemma Reach(l: Link, s: Step) returns (r: Link)
    requires Reachable(l)
    ensures r == Next(l, s) && Reachable(r)
  {
    hide Next;
    var steps :| Run(START, steps) == l;
    var more := steps + [s];
    assert more[..|more| - 1] == steps;
    r := Run(START, more);
  }

  /** One PONG ever sent, for PING 1, and no ping under way. */
  function Calm(next: nat, received: dword): Link {
    Link(Idle, next, received, false, Quiet, [1], [Pong(1, 1)], 0, 1, 1, false, false)
  }

  /** The first PING is out, and nothing else has happened. */
  const ASKED: Link := Link(Waiting, 1, 0, false, Quiet, [1], [], 0, 0, 0, false, false)

  lemma FirstPing()
    ensures Reachable(ASKED)
  {
    assert Reachable(START) by {
      assert Run(START, []) == START;
    }
    hide Reachable;
    var l := Reach(START, Lock);
    l := Reach(l, ResetSemaphore);
    l := Reach(l, TakeNumber);
    l := Reach(l, ClearReceived);
    l := Reach(l, SendPing(true));
    assert l == ASKED;
  }

  lemma FirstPong()
    ensures Reachable(ASKED.(pongs := [Pong(1, 1)], sequence := 1, sequenceOf := 1))
  {
    FirstPing();
    hide Reachable;
    var l := Reach(ASKED, StorePing(0));
    l := Reach(l, RaiseFlag);
    l := Reach(l, ClaimFlag);
    l := Reach(l, SendPong(true));
    assert l == ASKED.(pongs := [Pong(1, 1)], sequence := 1, sequenceOf := 1);
  }

  lemma AnsweredPing()
    ensures Reachable(Calm(1, 1))
  {
    FirstPong();
    hide Reachable;
    var l := Reach(ASKED.(pongs := [Pong(1, 1)], sequence := 1, sequenceOf := 1), StorePong(0));
    l := Reach(l, GiveSemaphore);
    l := Reach(l, TakeSemaphore);
    l := Reach(l, Check);
    l := Reach(l, Return);
    assert l == Calm(1, 1);
  }

  /** A ping whose send fails uses up a number. */
  lemma FailedPing(next: nat, received: dword)
    requires Reachable(Calm(next, received))
    ensures Reachable(Calm(next + 1, 0))
  {
    hide Reachable;
    var l := Reach(Calm(next, received), Lock);
    l := Reach(l, ResetSemaphore);
    l := Reach(l, TakeNumber);
    l := Reach(l, ClearReceived);
    l := Reach(l, SendPing(false));
  }

  lemma {:induction false} ManyFailedPings(n: nat) returns (received: dword)
    requires n >= 1
    ensures Reachable(Calm(n, received))
  {
    if n == 1 {
      AnsweredPing();
      received := 1;
    } else {
      received := ManyFailedPings(n - 1);
      FailedPing(n - 1, received);
      received := 0;
    }
  }

  /** The stale PONG is stored before the clearing, its semaphore still to be given. */
  const HAUNTED: Link := Calm(WRAP, 0).(caller := Cleared, callback := Stored)

  lemma StalePongArrives()
    ensures Reachable(HAUNTED)
  {
    var received := ManyFailedPings(WRAP - 1);
    hide Reachable;
    var l := Reach(Calm(WRAP - 1, received), Lock);
    l := Reach(l, ResetSemaphore);
    l := Reach(l, TakeNumber);
    l := Reach(l, StorePong(0));
    l := Reach(l, ClearReceived);
    assert l == HAUNTED;
  }

  /** The 2^32-th number is 0, the value the caller clears the stored sequence to. A stale PONG that
      arrives across the clearing then wakes the caller and passes for an answer. */
  lemma StalePongPasses() returns (l: Link)
    ensures Reachable(l) && l.caller == Succeeded && l.next == WRAP
    ensures forall i :: 0 <= i < |l.pongs| ==> l.pongs[i].cause != l.next
  {
    StalePongArrives();
    hide Reachable;
    l := Reach(HAUNTED, GiveSemaphore);
    l := Reach(l, SendPing(true));
    assert l == HAUNTED.(caller := Waiting, callback := Quiet, sem := true, pings := [1, WRAP],
                         before := 1);
    l := Reach(l, TakeSemaphore);
    l := Reach(l, Check);
  }
}
