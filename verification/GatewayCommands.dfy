/** What each M7 operation on the link puts on the wire, remembers and answers. */
module GatewayCommands {
  import opened Words
  import opened Contract
  import opened GatewayModel

  /** Exactly one frame was sent, under the next number: this command. */
  ghost predicate Delivers(g: Gateway, r: Gateway, cmd: Command) {
    && |r.sent| == |g.sent| + 1 && r.sent[..|g.sent|] == g.sent
    && r.counter == g.counter + 1
    && Last(r.sent).SentCommand? && Last(r.sent).number == r.counter
    && |Last(r.sent).bytes| == 36 && DecodeCommand(Last(r.sent).bytes) == cmd
  }

  /** A send over a link that is down fails with -ENOTCONN and changes nothing; otherwise a number is
      used up, and the command is delivered once exactly when the result is no error. */
  lemma SendOutcome(link: nat -> int, g: Gateway, remote: bool)
    requires Healthy(g)
    ensures var (r, ret) := Send(link, g, remote);
            var s := g.stored;
            && (!g.online ==> r == g && ret == -128)
            && (g.online ==> r.counter == g.counter + 1)
            && r.stored == s && r.armed == g.armed && r.online == g.online
            && (ret < 0 ==> r.sent == g.sent)
            && (ret >= 0 ==>
                  Delivers(g, r, Command(s.control, s.duty, s.accel, s.decel,
                                         if remote then ModeWord(true, s.source) else 0, s.timeout,
                                         U16(U32(r.counter)))))
  {
    hide EncodeCommand, DecodeCommand, Attempts, Healthy, Decides, U16, U32, ModeWord;
    SendKeeps(link, g, remote);
    if g.online {
      var number := g.counter + 1;
      var frame := SentCommand(EncodeCommand(Compose(g.stored, remote, number), U32(number)), number);
      SendDecides(link, g.(counter := number), frame, 0);
      CommandRoundTrip(Compose(g.stored, remote, number), U32(number));
      ComposedMode(g.stored, remote, number);
    }
  }

  lemma ComposedMode(s: Stored, remote: bool, number: nat)
    ensures Compose(s, remote, number).mode == if remote then ModeWord(true, s.source) else 0
  {
  }

  /** Only these errors of the transport are transient. */
  lemma RetriesExactly(link: nat -> int, g: Gateway, frame: Sent)
    ensures var (r, ret) := Attempts(link, g, frame, 0);
            var k := r.tries - 1;
            && g.tries <= k <= g.tries + 20 && ret == link(k)
            && (forall i :: g.tries <= i < k ==> link(i) in {-11, -16, -105})
            && (k < g.tries + 20 ==> link(k) !in {-11, -16, -105})
  {
    SendDecides(link, g, frame, 0);
    hide Attempts;
  }

  /** A submission outside the ranges is refused and changes nothing. Any other is remembered even if
      sending it fails, and delivered word for word exactly on success, which alone schedules or
      cancels the refresh. */
  lemma SubmitOutcome(link: nat -> int, g: Gateway, s: Submission)
    requires Healthy(g)
    ensures var (r, ret) := Submit(link, g, s);
            var legal := && s.source in {1, 2} && 800 <= s.duty <= 1000 && 1 <= s.accel <= 10000
                         && 1 <= s.decel <= 10000 && 100 <= s.timeout <= 10000;
            && (!legal ==> r == g && ret == -22)
            && (legal ==>
                  && r.stored == Stored(s.remote, s.remote, s.control, s.duty, s.accel, s.decel, s.timeout, s.source)
                  && r.armed == (if ret >= 0 then s.remote else g.armed)
                  && (ret < 0 ==> r.sent == g.sent)
                  && (ret >= 0 ==>
                        Delivers(g, r, Command(s.control, s.duty, s.accel, s.decel,
                                               if s.remote then ModeWord(true, s.source) else 0,
                                               s.timeout, U16(U32(r.counter))))))
  {
    if Submittable(s) {
      var stored := Stored(s.remote, s.remote, s.control, s.duty, s.accel, s.decel, s.timeout, s.source);
      SendOutcome(link, g.(stored := stored), s.remote);
    }
    hide Send, ModeWord, U16, U32, FaithfulHistory;
  }

  /** A shell command needs remote mode unless it asks for it; what it gives is what is sent, with the
      stored ramps and the shell's own timeout and source. */
  lemma UpdateOutcome(link: nat -> int, g: Gateway, activate: bool, control: word, duty: word)
    requires Healthy(g) && 800 <= duty <= 1000
    ensures var (r, ret) := Update(link, g, activate, control, duty);
            var refused := !g.stored.enabled && !activate;
            && (refused ==> r == g && ret == -13)
            && (!refused ==>
                  && r.stored == Stored(true, true, control, duty, g.stored.accel, g.stored.decel, 1000, 1)
                  && r.armed == (ret >= 0 || g.armed)
                  && (ret < 0 ==> r.sent == g.sent)
                  && (ret >= 0 ==>
                        Delivers(g, r, Command(control, duty, g.stored.accel, g.stored.decel, 0x0101, 1000,
                                               U16(U32(r.counter))))))
  {
    var stored := g.stored.(enabled := true, remote := true, control := control, duty := duty,
                            timeout := SHELL_TIMEOUT, source := SOURCE_SHELL);
    SendOutcome(link, g.(stored := stored), true);
    hide Send, U16, U32, FaithfulHistory, Delivers;
  }

  /** Returning to local mode sends the stored command as a local one; only its success forgets the
      command and cancels the refresh. */
  lemma DisableOutcome(link: nat -> int, g: Gateway)
    requires Healthy(g)
    ensures var (r, ret) := Disable(link, g);
            && (ret < 0 ==> r.sent == g.sent && r.armed == g.armed && r.stored.enabled == g.stored.enabled
                            && r.stored.control == g.stored.control)
            && (ret >= 0 ==>
                  && !r.stored.enabled && r.stored.control == 0 && !r.armed
                  && Delivers(g, r, Command(g.stored.control, g.stored.duty, g.stored.accel, g.stored.decel, 0,
                                            1000, U16(U32(r.counter)))))
  {
    SendOutcome(link, g.(stored := g.stored.(timeout := SHELL_TIMEOUT, source := SOURCE_SHELL)), false);
    hide Send, U16, U32, FaithfulHistory;
  }

  /** The shell's reset sends control word 9 in the mode held. */
  lemma ResetOutcome(link: nat -> int, g: Gateway)
    requires Healthy(g)
    ensures var (r, ret) := ResetFault(link, g);
            && (ret < 0 ==> r.sent == g.sent && r.armed == g.armed)
            && (ret >= 0 ==>
                  && Delivers(g, r, Command(9, g.stored.duty, g.stored.accel, g.stored.decel,
                                            if g.stored.enabled then 0x0101 else 0, 1000,
                                            U16(U32(r.counter))))
                  && r.armed == (g.stored.enabled || g.armed))
  {
    hide Send, U16, U32, FaithfulHistory, Delivers, ModeWord;
    var stored := g.stored.(timeout := SHELL_TIMEOUT, source := SOURCE_SHELL, control := 9);
    SendOutcome(link, g.(stored := stored), g.stored.enabled);
    ShellMode();
    var (r, ret) := ResetFault(link, g);
    if ret >= 0 {
      var mode: word := if g.stored.enabled then 0x0101 else 0;
      var cmd := Command(9, g.stored.duty, g.stored.accel, g.stored.decel, mode, 1000, U16(U32(r.counter)));
      SameDelivery(g.(stored := stored), g, Send(link, g.(stored := stored), g.stored.enabled).0, r, cmd);
    }
  }

  lemma ShellMode()
    ensures ModeWord(true, SOURCE_SHELL) == 0x0101
  {
  }

  /** What was delivered depends on the frames and the numbers alone. */
  lemma SameDelivery(g: Gateway, g': Gateway, r: Gateway, r': Gateway, cmd: Command)
    requires Delivers(g, r, cmd)
    requires g.sent == g'.sent && g.counter == g'.counter && r.sent == r'.sent && r.counter == r'.counter
    ensures Delivers(g', r', cmd)
  {
  }

  /** Which asks for RESET_FAULT, and for nothing that turns the motor. */
  lemma ShellResetAsksForReset(link: nat -> int, g: Gateway)
    requires Healthy(g) && ResetFault(link, g).1 >= 0
    ensures var r := ResetFault(link, g).0;
            && |r.sent| > 0 && |Last(r.sent).bytes| == 36
            && var cmd := DecodeCommand(Last(r.sent).bytes);
               cmd.ResetFault() && cmd.Enable() && !cmd.Run() && !cmd.QuickStop() && !cmd.Reverse()
  {
    ResetOutcome(link, g);
    hide ResetFault, DecodeCommand, Healthy, Command.ResetFault, Command.Enable, Command.Run;
    hide Command.QuickStop, Command.Reverse;
    ResetWord(DecodeCommand(Last(ResetFault(link, g).0.sent).bytes));
  }

  lemma ResetWord(cmd: Command)
    requires cmd.control == 9
    ensures cmd.ResetFault() && cmd.Enable() && !cmd.Run() && !cmd.QuickStop() && !cmd.Reverse()
  {
  }

  /** The refresh sends the stored command as a remote one while remote mode is enabled, and comes back
      only on success. */
  lemma RefreshOutcome(link: nat -> int, g: Gateway)
    requires Healthy(g)
    ensures var (r, ret) := Refresh(link, g);
            var s := g.stored;
            && r.stored == s && r.armed == (ret >= 0)
            && (!s.enabled ==> ret < 0) && (ret < 0 ==> r.sent == g.sent)
            && (ret >= 0 ==>
                  Delivers(g, r, Command(s.control, s.duty, s.accel, s.decel, ModeWord(true, s.source), s.timeout,
                                         U16(U32(r.counter)))))
  {
    SendOutcome(link, g.(armed := false), true);
    hide Send, U16, U32, FaithfulHistory, ModeWord;
  }
}
