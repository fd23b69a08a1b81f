/** The M7's link module as an object: the stored command under its lock, the send loop with its
    bounded retries, and the cache of the last motor state. Proved against GatewayModel. */
module GatewayIpc {
  import opened Words
  import opened Errno
  import opened Contract
  import G = GatewayModel

  const STALE_MS := 100

  /** What a reader of the cache gets. */
  datatype Image = Image(valid: bool, stale: bool, sequence: dword, age: dword, words: seq<word>)

  class IpcModule {
    /** The return code of the n-th transport call. */
    const link: nat -> int
    var remoteCommand: G.Stored
    var online: bool
    var nextCommandSequence: dword
    var nextPingSequence: dword
    var tries: nat
    var sent: seq<G.Sent>
    var armed: bool
    /** True counts behind the two wrapping sequences. */
    var counter: nat
    var pings: nat

    var cacheValid: bool
    var cacheSequence: dword
    var cacheWords: seq<word>
    var cacheStamp: dword
    /** True time of the cached arrival. */
    ghost var arrival: nat

    ghost predicate Valid()
      reads this
    {
      && nextCommandSequence == U32(counter) && nextPingSequence == U32(pings)
      && (cacheValid ==> |cacheWords| == STATE_WORDS && cacheStamp == U32(arrival))
    }

    function Value(): G.Gateway
      reads this
    {
      G.Gateway(remoteCommand, online, counter, pings, tries, sent, armed)
    }

    constructor (link: nat -> int)
      ensures this.link == link && Valid() && Value() == G.POWER_UP && !cacheValid
    {
      this.link := link;
      remoteCommand := G.Stored(false, false, 0, COMMAND_DUTY_MIN, 1000, 4000, G.SHELL_TIMEOUT,
                                SOURCE_SHELL);
      online, nextCommandSequence, nextPingSequence, tries, sent := false, 0, 0, 0, [];
      armed, counter, pings := false, 0, 0;
      cacheValid, cacheSequence, cacheWords, cacheStamp, arrival := false, 0, [], 0, 0;
    }

    /** Hands one frame to the transport, trying again while it is busy. */
    method Transmit(frame: G.Sent) returns (ret: int)
      modifies this`tries, this`sent
      ensures (Value(), ret) == G.Attempts(link, old(Value()), frame, 0)
    {
      hide G.Attempts;
      ghost var outcome := G.Attempts(link, Value(), frame, 0);
      var attempt := 0;
      while true
        invariant 0 <= attempt <= G.SEND_RETRIES
        invariant G.Attempts(link, Value(), frame, attempt) == outcome
        decreases G.SEND_RETRIES - attempt
      {
        G.OneAttempt(link, Value(), frame, attempt);
        ret := link(tries);
        tries := tries + 1;
        if ret >= 0 {
          sent := sent + [frame];
          break;
        }
        if (ret != -EAGAIN && ret != -EBUSY && ret != -ENOBUFS) || attempt >= G.SEND_RETRIES {
          break;
        }
        attempt := attempt + 1;
      }
    }

    method SendRemoteCommandLocked(asRemote: bool) returns (ret: int)
      requires Valid()
      modifies this`tries, this`sent, this`nextCommandSequence, this`counter
      ensures Valid() && (Value(), ret) == G.Send(link, old(Value()), asRemote)
    {
      hide G.Attempts, EncodeCommand;
      if !online {
        return -ENOTCONN;
      }
      WrappingIncrement(counter);
      counter := counter + 1;
      nextCommandSequence := U32(nextCommandSequence + 1);
      var c := remoteCommand;
      var mode: word := if asRemote then U16(MODE_REMOTE + 256 * c.source) else 0;
      var command := Command(c.control, c.duty, c.accel, c.decel, mode, c.timeout,
                             U16(nextCommandSequence));
      ret := Transmit(G.SentCommand(EncodeCommand(command, nextCommandSequence), counter));
    }

    /** The sending half of a ping. */
    method SendPing() returns (ret: int)
      requires Valid()
      modifies this`tries, this`sent, this`nextPingSequence, this`pings
      ensures Valid() && (Value(), ret) == G.SendPing(link, old(Value()))
    {
      hide G.Attempts, Header;
      if !online {
        return -ENOTCONN;
      }
      WrappingIncrement(pings);
      pings := pings + 1;
      nextPingSequence := U32(nextPingSequence + 1);
      ret := Transmit(G.SentPing(Header(PING, nextPingSequence, 0), pings));
    }

    method MotorSubmit(s: G.Submission) returns (ret: int)
      requires Valid()
      modifies this`remoteCommand, this`armed
      modifies this`tries, this`sent, this`nextCommandSequence, this`counter
      ensures Valid() && (Value(), ret) == G.Submit(link, old(Value()), s)
    {
      hide G.Send, G.Submittable;
      if !G.Submittable(s) {
        return -EINVAL;
      }
      remoteCommand := G.Stored(s.remote, s.remote, s.control, s.duty, s.accel, s.decel, s.timeout,
                                s.source);
      ret := SendRemoteCommandLocked(s.remote);
      if ret >= 0 && s.remote {
        armed := true;
      } else if ret >= 0 && !s.remote {
        armed := false;
      }
    }

    method RemoteCommandUpdate(activate: bool, newControl: word, newDuty: word) returns (ret: int)
      requires Valid()
      modifies this`remoteCommand, this`armed
      modifies this`tries, this`sent, this`nextCommandSequence, this`counter
      ensures Valid() && (Value(), ret) == G.Update(link, old(Value()), activate, newControl, newDuty)
    {
      hide G.Send;
      if !remoteCommand.enabled && !activate {
        return -EACCES;
      }
      remoteCommand := remoteCommand.(enabled := true, remote := true, control := newControl,
                                      duty := newDuty, timeout := G.SHELL_TIMEOUT,
                                      source := SOURCE_SHELL);
      ret := SendRemoteCommandLocked(true);
      if ret >= 0 {
        armed := true;
      }
    }

    method RemoteCommandReset() returns (ret: int)
      requires Valid()
      modifies this`remoteCommand, this`armed
      modifies this`tries, this`sent, this`nextCommandSequence, this`counter
      ensures Valid() && (Value(), ret) == G.ResetFault(link, old(Value()))
    {
      hide G.Send;
      remoteCommand := remoteCommand.(source := SOURCE_SHELL, timeout := G.SHELL_TIMEOUT,
                                      control := 1 + 8);
      ret := SendRemoteCommandLocked(remoteCommand.enabled);
      if ret >= 0 && remoteCommand.enabled {
        armed := true;
      }
    }

    method PauseRefresh()
      requires Valid()
      modifies this`remoteCommand, this`armed
      ensures Valid() && Value() == G.Pause(old(Value()))
    {
      remoteCommand := remoteCommand.(enabled := false);
      armed := false;
    }

    // ----- The state cache -----

    method Received(bytes: seq<byte>, now: nat)
      requires Valid()
      modifies this`cacheValid, this`cacheSequence, this`cacheWords, this`cacheStamp, this`arrival
      ensures Valid()
      ensures match ReceiveOnM7(bytes)
              case StateReport(sequence, words) =>
                cacheValid && cacheSequence == sequence && cacheWords == words && arrival == now
              case _ =>
                cacheValid == old(cacheValid) && cacheSequence == old(cacheSequence)
                && cacheWords == old(cacheWords) && arrival == old(arrival)
    {
      if !HasFrame(bytes) || Kind(bytes) != MOTOR_STATE {
        return;
      }
      if |bytes| != FRAME_BYTES + 2 * STATE_WORDS || Length(bytes) != 2 * STATE_WORDS {
        return;
      }
      cacheWords := Payload(bytes);
      cacheSequence := Sequence(bytes);
      cacheStamp := U32(now);
      arrival := now;
      cacheValid := true;
    }

    /** An image is stale exactly when it arrived more than 100 ms ago, up to the clock's period. */
    method GetMotorState(now: nat) returns (image: Image)
      requires Valid()
      ensures image.valid == cacheValid
      ensures !cacheValid ==> image.stale && image.age == 0
      ensures cacheValid ==>
                && image.words == cacheWords && image.sequence == cacheSequence
                && image.age == (now - arrival) % 0x1_0000_0000
                && (0 <= now - arrival < 0x1_0000_0000 ==> (image.stale <==> now - arrival > STALE_MS))
    {
      if !cacheValid {
        return Image(false, true, cacheSequence, 0, cacheWords);
      }
      var age := U32(U32(now) - cacheStamp);
      WrappingDifference(now, arrival);
      image := Image(true, age > STALE_MS, cacheSequence, age, cacheWords);
    }
  }
}
