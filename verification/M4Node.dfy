/** The whole M4 on values: mailbox and ping flag filled by the receive callback, the four buttons,
    the potentiometer, the core, and the frames it sends. */
module M4Node {
  import opened Words
  import opened Options
  import opened Contract
  import opened MotorModel
  import opened M4Core
  import M4Snapshot
  import Debounce
  import PotFilter

  const BUTTONS := 4
  const START := 0
  const STOP := 1
  const DIRECTION := 2
  const RESET := 3

  /** A frame the M4 sent, with the true number behind its wrapping sequence. */
  datatype Report = PongFrame(bytes: seq<byte>, number: nat) | StateFrame(bytes: seq<byte>, number: nat)

  datatype Node = Node(
    core: Core,
    mailbox: Option<Command>,
    pingPending: bool,
    pingSequence: dword,
    online: bool,
    published: nat,
    sends: nat,
    sent: seq<Report>)

  /** Node, buttons and potentiometer. */
  datatype M4 = M4(node: Node, bank: seq<Debounce.Button>, pot: PotFilter.Pot)

  /** What one iteration reads from the board and the clock. */
  datatype Input = Input(
    readings: seq<int>,
    adcSetup: int,
    adcRead: int,
    sample: word,
    tCommand: nat,
    tWatchdog: nat,
    tPublish: nat)

  predicate ValidInput(i: Input) {
    |i.readings| == BUTTONS
  }

  // ----- Masks over the four buttons -----

  function Weight(i: nat): word {
    match i case 0 => 1 case 1 => 2 case 2 => 4 case 3 => 8 case _ => 0
  }

  /** The bits of the set buttons. Each is set at most once, so OR-ing them in adds them. */
  function Mask(bits: seq<bool>): (w: word)
    requires |bits| <= BUTTONS
    ensures w < 16
    ensures |bits| < 4 ==> w < Weight(|bits|)
  {
    if |bits| == 0 then 0
    else Mask(bits[..|bits| - 1]) + if Last(bits) then Weight(|bits| - 1) else 0
  }

  lemma MaskBits(bits: seq<bool>)
    requires |bits| == BUTTONS
    ensures var w := Mask(bits);
            && (w % 2 == 1) == bits[START] && (w / 2 % 2 == 1) == bits[STOP]
            && (w / 4 % 2 == 1) == bits[DIRECTION] && (w / 8 % 2 == 1) == bits[RESET]
  {
    var b3, b2, b1 := bits[..3], bits[..3][..2], bits[..3][..2][..1];
    assert Mask(b1[..0]) == 0;
    assert Mask(b1) == if bits[0] then 1 else 0;
    assert Mask(b2) == Mask(b1) + if bits[1] then 2 else 0;
    assert Mask(b3) == Mask(b2) + if bits[2] then 4 else 0;
    assert Mask(bits) == Mask(b3) + if bits[3] then 8 else 0;
  }

  function Presses(bank: seq<Debounce.Button>, readings: seq<int>): (ps: seq<bool>)
    requires |bank| == |readings|
    ensures |ps| == |bank|
  {
    seq(|bank|, i requires 0 <= i < |bank| => Debounce.Press(bank[i], readings[i]))
  }

  function Sampled4(bank: seq<Debounce.Button>, readings: seq<int>): (r: seq<Debounce.Button>)
    requires |bank| == |readings|
    ensures |r| == |bank|
  {
    seq(|bank|, i requires 0 <= i < |bank| => Debounce.Sample(bank[i], readings[i]))
  }

  function Stables(bank: seq<Debounce.Button>): (ss: seq<bool>)
    ensures |ss| == |bank|
  {
    seq(|bank|, i requires 0 <= i < |bank| => bank[i].stable)
  }

  function StableMask(bank: seq<Debounce.Button>): word
    requires |bank| <= BUTTONS
  {
    Mask(Stables(bank))
  }

  // ----- Reception -----

  /** The receive callback: a valid command overwrites the mailbox, a PING the ping flag. */
  function Receive(n: Node, bytes: seq<byte>): Node {
    match ReceiveOnM4(bytes)
    case Ignored => n
    case PingRequest(sequence) => n.(pingSequence := sequence, pingPending := true)
    case CommandRequest(command) => n.(mailbox := Some(command))
  }

  // ----- One iteration -----

  function PollPot(p: PotFilter.Pot, i: Input): (PotFilter.Pot, Reading) {
    if i.adcSetup < 0 then (p, Failed(i.adcSetup))
    else if i.adcRead < 0 then (p, Failed(i.adcRead))
    else
      var p1 := PotFilter.Acquire(p, i.sample);
      (p1, Sampled(p1.duty))
  }

  /** The event this iteration presents to the core. */
  function EventOf(m: M4, i: Input): Event
    requires |m.bank| == BUTTONS && ValidInput(i)
  {
    var p := Presses(m.bank, i.readings);
    Event(m.node.mailbox, PollPot(m.pot, i).1, p[START], p[STOP], p[DIRECTION], p[RESET],
          i.tCommand, i.tWatchdog)
  }

  /** Hand one frame to the transport: `link` gives the return code of the n-th send, and a
      failing send delivers nothing. */
  function Transmit(link: nat -> int, n: Node, frame: Report): (Node, int) {
    var ret := link(n.sends);
    (n.(sends := n.sends + 1,
        sent := if ret < 0 then n.sent else n.sent + [frame]), ret)
  }

  /** Answer the latest PING; a failed send leaves the flag set. */
  function AnswerPing(link: nat -> int, n: Node): Node {
    if !n.online || !n.pingPending then n
    else
      var (n1, ret) := Transmit(link, n, PongFrame(Header(PONG, n.pingSequence, 0), n.pingSequence));
      n1.(pingPending := ret < 0)
  }

  function Publish(link: nat -> int, n: Node, buttons: word, raw: word, now: nat): Node {
    if !n.online then n
    else
      var number := n.published + 1;
      var words := M4Snapshot.StateWords(n.core, buttons, raw, LOOP_MS, now, U16(number));
      Transmit(link, n.(published := number),
               StateFrame(Frame(MOTOR_STATE, U32(number), words), number)).0
  }

  function Iterate(b: Board, link: nat -> int, m: M4, i: Input): (r: M4)
    requires |m.bank| == BUTTONS && ValidInput(i)
    ensures |r.bank| == BUTTONS
  {
    var bank := Sampled4(m.bank, i.readings);
    var pot := PollPot(m.pot, i).0;
    var n1 := AnswerPing(link, m.node);
    var n2 := n1.(core := Step(b, m.node.core, EventOf(m, i)), mailbox := None);
    M4(Publish(link, n2, StableMask(bank), pot.raw, i.tPublish), bank, pot)
  }

  /** A step of the M4 as its surroundings see it. */
  datatype Happening = Arrival(bytes: seq<byte>) | Iteration(input: Input) | Binding(online: bool)

  predicate ValidHappening(h: Happening) {
    h.Iteration? ==> ValidInput(h.input)
  }

  predicate AllValid(hs: seq<Happening>)
    decreases |hs|
  {
    |hs| == 0 || (AllValid(hs[..|hs| - 1]) && ValidHappening(Last(hs)))
  }

  lemma {:induction false} ValidPrefix(hs: seq<Happening>, n: nat)
    requires AllValid(hs) && n <= |hs|
    ensures AllValid(hs[..n])
    ensures n < |hs| ==> ValidHappening(hs[n])
    decreases |hs|
  {
    if n < |hs| {
      var init := hs[..|hs| - 1];
      ValidPrefix(init, n);
      assert init[..n] == hs[..n];
    } else {
      assert hs[..n] == hs;
    }
  }

  function Happen(b: Board, link: nat -> int, m: M4, h: Happening): (r: M4)
    requires |m.bank| == BUTTONS && ValidHappening(h)
    ensures |r.bank| == BUTTONS
  {
    match h
    case Arrival(bytes) => m.(node := Receive(m.node, bytes))
    case Iteration(input) => Iterate(b, link, m, input)
    case Binding(online) => m.(node := m.node.(online := online))
  }

  function HappenAll(b: Board, link: nat -> int, m: M4, hs: seq<Happening>): (r: M4)
    requires |m.bank| == BUTTONS && AllValid(hs)
    ensures |r.bank| == BUTTONS
    decreases |hs|
  {
    if |hs| == 0 then m else Happen(b, link, HappenAll(b, link, m, hs[..|hs| - 1]), Last(hs))
  }

  function PowerUp(motor: Motor, online: bool): M4 {
    M4(Node(Boot(motor), None, false, 0, online, 0, 0, []),
       seq(BUTTONS, _ => Debounce.RELEASED), PotFilter.INITIAL)
  }

  // ----- The run refines a run of the core -----

  /** The events the run's iterations presented to the core. */
  function Events(b: Board, link: nat -> int, m: M4, hs: seq<Happening>): (es: seq<Event>)
    requires |m.bank| == BUTTONS && AllValid(hs)
    decreases |hs|
  {
    if |hs| == 0 then []
    else
      var init := hs[..|hs| - 1];
      var es := Events(b, link, m, init);
      if Last(hs).Iteration? then
        es + [EventOf(HappenAll(b, link, m, init), Last(hs).input)]
      else es
  }

  /** What button `k` read over the run. */
  function Column(hs: seq<Happening>, k: nat): (rs: seq<int>)
    requires k < BUTTONS && AllValid(hs)
    decreases |hs|
  {
    if |hs| == 0 then []
    else
      var rs := Column(hs[..|hs| - 1], k);
      if Last(hs).Iteration? then rs + [Last(hs).input.readings[k]] else rs
  }

  lemma IterateCore(b: Board, link: nat -> int, m: M4, i: Input)
    requires |m.bank| == BUTTONS && ValidInput(i)
    ensures var r := Iterate(b, link, m, i);
            && r.node.core == Step(b, m.node.core, EventOf(m, i)) && r.node.mailbox.None?
            && r.node.online == m.node.online
            && forall k :: 0 <= k < BUTTONS ==> r.bank[k] == Debounce.Sample(m.bank[k], i.readings[k])
  {
  }

  ghost predicate MailboxLegal(n: Node) {
    n.mailbox.Some? ==> Acceptable(n.mailbox.value)
  }

  /** One happening: at an iteration the core steps on the presented event, otherwise it rests. */
  lemma HappenCore(b: Board, link: nat -> int, m: M4, h: Happening)
    requires |m.bank| == BUTTONS && ValidHappening(h) && MailboxLegal(m.node)
    ensures var r := Happen(b, link, m, h);
            && MailboxLegal(r.node)
            && (!h.Iteration? ==> r.node.core == m.node.core && r.bank == m.bank)
            && (h.Iteration? ==>
                  && Legal(EventOf(m, h.input))
                  && r.node.core == Step(b, m.node.core, EventOf(m, h.input))
                  && r.bank == Sampled4(m.bank, h.input.readings))
  {
  }

  /** The buttons of a run are fed with their own columns of readings. */
  ghost predicate Debounced(bank: seq<Debounce.Button>, hs: seq<Happening>)
    requires |bank| == BUTTONS && AllValid(hs)
  {
    forall k :: 0 <= k < BUTTONS ==> bank[k] == Debounce.Feed(Column(hs, k))
  }

  lemma DebouncedStep(bank: seq<Debounce.Button>, hs: seq<Happening>)
    requires |bank| == BUTTONS && |hs| > 0 && AllValid(hs) && Last(hs).Iteration?
    requires Debounced(bank, hs[..|hs| - 1])
    ensures Debounced(Sampled4(bank, Last(hs).input.readings), hs)
  {
  }

  /** The M4's run is a run of the core on legal events, and its buttons are debounced from their
      own raw readings: every property of core runs is a property of the M4. */
  lemma {:induction false} RunRefinesCore(b: Board, link: nat -> int, motor: Motor, online: bool,
                                          hs: seq<Happening>)
    requires AllValid(hs)
    ensures var m, es := HappenAll(b, link, PowerUp(motor, online), hs),
                         Events(b, link, PowerUp(motor, online), hs);
            && m.node.core == Steps(b, Boot(motor), es)
            && MailboxLegal(m.node) && AllLegal(es)
            && Debounced(m.bank, hs)
            && forall k :: 0 <= k < BUTTONS ==> |Column(hs, k)| == |es|
    decreases |hs|
  {
    hide Step, Acceptable, Happen;
    if |hs| > 0 {
      var init, h, m0 := hs[..|hs| - 1], Last(hs), PowerUp(motor, online);
      RunRefinesCore(b, link, motor, online, init);
      var m := HappenAll(b, link, m0, init);
      HappenCore(b, link, m, h);
      if h.Iteration? {
        DebouncedStep(m.bank, hs);
        var es := Events(b, link, m0, hs);
        assert es[..|es| - 1] == Events(b, link, m0, init);
      }
    }
  }

  /** The button flags of the n-th event are presses in the raw readings up to that iteration. */
  lemma {:induction false} EventsAreDebounced(b: Board, link: nat -> int, motor: Motor, online: bool,
                                              hs: seq<Happening>, n: nat)
    requires AllValid(hs)
    requires n < |Events(b, link, PowerUp(motor, online), hs)|
    ensures forall k :: 0 <= k < BUTTONS ==> n < |Column(hs, k)|
    ensures var e := Events(b, link, PowerUp(motor, online), hs)[n];
            && e.start == Debounce.PressAt(Column(hs, START), n)
            && e.stop == Debounce.PressAt(Column(hs, STOP), n)
            && e.toggle == Debounce.PressAt(Column(hs, DIRECTION), n)
            && e.reset == Debounce.PressAt(Column(hs, RESET), n)
    decreases |hs|
  {
    hide Step, Acceptable, Happen, Steps, Debounce.Press, Debounce.Feed;
    RunRefinesCore(b, link, motor, online, hs);
    var init, m0 := hs[..|hs| - 1], PowerUp(motor, online);
    var es := Events(b, link, m0, init);
    RunRefinesCore(b, link, motor, online, init);
    if n < |es| {
      EventsAreDebounced(b, link, motor, online, init, n);
      forall k | 0 <= k < BUTTONS
        ensures Debounce.PressAt(Column(hs, k), n) == Debounce.PressAt(Column(init, k), n)
      {
        assert Column(hs, k)[..n] == Column(init, k)[..n];
        assert Column(hs, k)[n] == Column(init, k)[n];
      }
    } else {
      forall k | 0 <= k < BUTTONS
        ensures Column(hs, k)[..n] == Column(init, k)
      {
      }
    }
  }
}
