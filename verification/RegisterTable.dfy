/** The register map in numbers, and what a client is told about the commands it submits. */
module RegisterTable {
  import opened Words
  import opened Options
  import opened RegisterModel
  import opened ScannerModel
  import opened Fc23Model
  import G = GatewayModel

  // ----- The map -----

  /** Start-up: the saved configuration, the default duty, ramps and timeout, and the default tables. */
  lemma StartupTable(saved: TenWords, k: nat)
    requires k < 60
    ensures Startup(saved).regs[k] ==
            if k < 10 then saved[k]
            else if k == 13 then 800 else if k == 14 then 1000 else if k == 15 then 4000
            else if k == 16 then 1000
            else if k == 40 then 24 else if k == 41 then 21
            else if k == 45 then 11 else if k == 46 then 13 else if k == 47 then 12
            else if 40 <= k < 50 then 0xffff
            else 0
    ensures Startup(saved).report.None? && Startup(saved).attempts == []
  {
    DefaultTableAt(PowerUp(saved), k);
    hide WithDefaultTables;
  }

  /** Registers 20 to 31 are the motor state, unreadable before the first report; the others below 60
      read what they hold; there are no more. */
  lemma ReadTable(m: M7, addr: word)
    ensures Read(m, addr) ==
            if addr >= 60 then Error(-134)
            else if 20 <= addr < 32 then
              (match m.report case None => Error(-11) case Some(image) => Value(image[addr - 20]))
            else Value(m.regs[addr])
  {
  }

  /** What a mapping slot may hold: nothing, or a register; an Output slot no read-only register and no
      mapping slot. */
  predicate MayMap(addr: word, target: word) {
    target == 0xffff
    || (target < 60 && (addr < 45 || (!(17 <= target < 32) && !(40 <= target < 50))))
  }

  /** Every write but the two that start something, 1 to APPLY and 1 to the configuration command: which
      are stored, and what the others are answered and leave behind. */
  lemma WriteTable(env: Env, m: M7, addr: word, reg: word)
    requires !(addr == 12 && reg == 1) && !(addr == 8 && reg == 1)
    ensures var (r, ret) := Write(env, m, addr, reg);
            if addr >= 60 then r == m && ret == -134
            else if 17 <= addr < 32 then r == m && ret == -13
            else if 40 <= addr < 50 && !MayMap(addr, reg) then
              r == m && ret == (if addr >= 45 && reg < 60 then -13 else -22)
            else if addr == 10 && reg > 1 then r == m && ret == -22
            else if addr == 12 then r == m.(regs := m.regs[17 := 65514]) && ret == -22
            else if addr == 8 then r == m.(regs := m.regs[8 := 0][9 := 65514]) && ret == -22
            else r == m.(regs := m.regs[addr := reg]) && ret == 0
  {
    hide Apply;
  }

  /** Saving the configuration is asked for once, answers what saving answered, and touches no
      register from 10 on, nor the link. */
  lemma SaveOutcome(env: Env, m: M7, k: nat)
    requires 10 <= k < 60
    ensures var (r, ret) := Write(env, m, 8, 1);
            && ret == env.save(m.saves).ret && r.saves == m.saves + 1
            && r.regs[k] == m.regs[k] && r.gateway == m.gateway && r.attempts == m.attempts
  {
  }

  // ----- What the client is told -----

  /** A client that applies is told exactly what the link answered: success if and only if the
      submission succeeded, and otherwise its error, which register 17 then shows too. */
  lemma ApplyResult(env: Env, m: M7)
    ensures var (r, ret) := Write(env, m, 12, 1);
            && |r.attempts| == |m.attempts| + 1 && r.attempts[..|m.attempts|] == m.attempts
            && (ret == 0 <==> Last(r.attempts).ret >= 0)
            && (ret != 0 ==> ret == Last(r.attempts).ret < 0)
            && r.regs[17] == U16(ret)
            && r.regs[18] == (if ret == 0 then U16((m.regs[18] as int) + 1) else m.regs[18])
            && r.regs[12] == 0
  {
    hide G.Submit, Staged;
  }

  /** The attempts after the first `from` all succeeded, but perhaps the last. */
  ghost predicate Succeeded(attempts: seq<Attempt>, from: nat, all: bool) {
    forall i :: from <= i < (if all then |attempts| else |attempts| - 1) ==> attempts[i].ret >= 0
  }

  /** One write, mapped or not: it makes no attempt, or one whose success it reports. */
  ghost predicate Reported(m: M7, r: M7, ok: bool) {
    || r.attempts == m.attempts
    || (|r.attempts| == |m.attempts| + 1 && r.attempts[..|m.attempts|] == m.attempts
        && (ok <==> Last(r.attempts).ret >= 0))
  }

  lemma WriteReports(env: Env, m: M7, addr: word, reg: word)
    ensures var (r, ret) := Write(env, m, addr, reg);
            && Reported(m, r, ret == 0)
            && (r.attempts != m.attempts ==> ret <= 0)
  {
    if addr == MOTOR_APPLY && reg == 1 {
      ApplyResult(env, m);
      hide Write;
    }
    hide Apply, U16;
  }

  lemma OutputWriteReports(env: Env, s: Server, addr: word, reg: word)
    requires |s.scanner.outputs| == SLOTS
    ensures var (r, ret) := OutputWrite(env, s, addr, reg);
            && Reported(s.m, r.m, ret == 0)
            && (r.m.attempts != s.m.attempts ==> ret <= 0)
  {
    hide Write;
    if addr < SLOTS && s.scanner.attached {
      var target := s.m.regs[OUTPUT_MAP + addr];
      WriteReports(env, s.m, target, reg);
      if target == MOTOR_APPLY && reg != 0 {
        var m1 := Write(env, s.m, MOTOR_MODE, 1).0;
        WriteTable(env, s.m, MOTOR_MODE, 1);
        WriteReports(env, m1, MOTOR_APPLY, reg);
      }
    }
    hide Reported;
  }

  lemma ReportedChain(a: M7, b: M7, c: M7, ok: bool)
    requires a.attempts <= b.attempts && Succeeded(b.attempts, |a.attempts|, true) && Reported(b, c, ok)
    ensures a.attempts <= c.attempts && Succeeded(c.attempts, |a.attempts|, ok)
  {
  }

  lemma {:induction false} WriteAllReports(env: Env, unit: byte, s: Server, addr: word, ws: seq<word>)
    requires Shaped(s)
    ensures var (r, _, ok) := WriteAll(env, unit, s, addr, ws);
            s.m.attempts <= r.m.attempts && Succeeded(r.m.attempts, |s.m.attempts|, ok)
    decreases |ws|
  {
    hide RoutedWrite, Succeeded, Reported;
    if |ws| == 0 {
      NothingAttempted(s.m);
    } else {
      var i := |ws| - 1;
      WriteAllReports(env, unit, s, addr, ws[..i]);
      var (s1, k, ok) := WriteAll(env, unit, s, addr, ws[..i]);
      if ok {
        var (s2, ret) := RoutedWrite(env, unit, s1, U16(addr + i), ws[i]);
        RoutedWriteReports(env, unit, s1, U16(addr + i), ws[i]);
        ReportedChain(s.m, s1.m, s2.m, ret == 0);
      }
    }
  }

  lemma NothingAttempted(m: M7)
    ensures Succeeded(m.attempts, |m.attempts|, true)
  {
  }

  lemma RoutedWriteReports(env: Env, unit: byte, s: Server, addr: word, reg: word)
    requires |s.scanner.outputs| == SLOTS
    ensures Reported(s.m, RoutedWrite(env, unit, s, addr, reg).0.m, RoutedWrite(env, unit, s, addr, reg).1 == 0)
  {
    hide OutputWrite, Write, Reported;
    if unit == SCANNER_UNIT {
      OutputWriteReports(env, s, addr, reg);
    } else {
      WriteReports(env, s.m, addr, reg);
    }
  }

  /** A function code 23 reply means that every command the request submitted succeeded; and whatever
      the answer, only the last one submitted can have failed. */
  lemma ReplyMeansSuccess(env: Env, unit: byte, s: Server, data: seq<byte>)
    requires Shaped(s)
    ensures var (r, response) := Execute(env, unit, s, data);
            && s.m.attempts <= r.m.attempts
            && Succeeded(r.m.attempts, |s.m.attempts|, response.Reply?)
            && Succeeded(r.m.attempts, |s.m.attempts|, false)
  {
    hide WriteAll, ReadAll;
    if WellFormed(data) {
      WellFormedIsEncoded(data);
      WriteAllReports(env, unit, s, Parse(data).writeAddr, Parse(data).words);
    }
  }

  /** An assembly that is accepted means the same, and one that is not, too. */
  lemma {:induction false} AssemblyMeansSuccess(env: Env, s: Server, image: seq<word>, n: nat)
    requires Shaped(s) && n <= |image| <= SLOTS
    ensures var (r, _, ok) := Receive(env, s, image, n);
            && s.m.attempts <= r.m.attempts
            && Succeeded(r.m.attempts, |s.m.attempts|, ok)
            && Succeeded(r.m.attempts, |s.m.attempts|, false)
  {
    hide OutputWrite, Reported;
    if n > 0 {
      AssemblyMeansSuccess(env, s, image, n - 1);
      var (s1, k, ok) := Receive(env, s, image, n - 1);
      if ok {
        var (s2, ret) := OutputWrite(env, s1, n - 1, image[n - 1]);
        OutputWriteReports(env, s1, n - 1, image[n - 1]);
        ReportedChain(s.m, s1.m, s2.m, ret == 0);
        ReportedSign(s1.m, s2.m, ret);
      }
    }
  }

  lemma ReportedSign(m: M7, r: M7, ret: int)
    requires Reported(m, r, ret == 0) && (r.attempts != m.attempts ==> ret <= 0)
    ensures Reported(m, r, ret >= 0)
  {
  }

  /** A request within the limits is answered with ILLEGAL DATA ADDRESS exactly when one of its writes
      fails or, after them, one of its reads; never with another exception. */
  lemma FailureIsIllegalAddress(env: Env, unit: byte, s: Server, r: Request)
    requires Shaped(s) && InLimits(r)
    ensures var (s1, _, ok) := WriteAll(env, unit, s, r.writeAddr, r.words);
            var response := Perform(env, unit, s, r).1;
            && (response == Exception(2) <==> !ok || ReadAll(unit, s1, r.readAddr, r.readQty).None?)
            && (response.Exception? ==> response == Exception(2))
  {
    hide WriteAll, ReadAll;
  }

  /** The request's bytes: both addresses and quantities with the most significant byte first, the byte
      count, and the words; within 1 to 125 reads and 1 to 121 writes. */
  lemma RequestBytes(r: Request)
    ensures InLimits(r) <==> 1 <= r.readQty <= 125 && 1 <= |r.words| <= 121
    ensures InLimits(r) ==>
              && Encode(r)[..9] ==
                 [r.readAddr / 256, r.readAddr % 256, r.readQty / 256, r.readQty % 256,
                  r.writeAddr / 256, r.writeAddr % 256, |r.words| / 256, |r.words| % 256, 2 * |r.words|]
              && forall i :: 0 <= i < |r.words| ==>
                   Encode(r)[9 + 2 * i] == r.words[i] / 256 && Encode(r)[10 + 2 * i] == r.words[i] % 256
  {
    if InLimits(r) {
      var d := Encode(r);
      forall i | 0 <= i < |r.words|
        ensures d[9 + 2 * i] == r.words[i] / 256 && d[10 + 2 * i] == r.words[i] % 256
      {
        PutBeWordsAt(r.words, i);
      }
    }
  }

  // ----- The scanner's slots -----

  /** A FREE Output slot keeps its own word and reads it back; one mapped to a plain register stores it
      there and reads it back from there; no other slot's own word changes. */
  lemma OutputReadsBack(env: Env, s: Server, addr: word, reg: word)
    requires Shaped(s) && Sound(s.m) && SmallErrors(env) && s.scanner.attached && addr < SLOTS
    requires OutputWrite(env, s, addr, reg).1 == 0
    ensures var r := OutputWrite(env, s, addr, reg).0;
            var target := s.m.regs[OUTPUT_MAP + addr];
            && (target == 0xffff ==> r == s.(scanner := s.scanner.(outputs := s.scanner.outputs[addr := reg])))
            && (target == 0xffff || IsPlain(target) ==> OutputRead(r, addr) == Value(reg))
            && (target != 0xffff ==> r.scanner == s.scanner)
            && forall k :: 0 <= k < SLOTS && k != addr ==> r.scanner.outputs[k] == s.scanner.outputs[k]
  {
    OutputWriteKeeps(env, s, addr, reg);
    var slot: word := OUTPUT_MAP + addr;
    var target := s.m.regs[slot];
    hide Sound, MappedWrite;
    if target != FREE && IsPlain(target) {
      MappedPlainWrite(env, s.m, target, reg, target);
    }
  }

  /** Without the registers attached no slot can be read or written. */
  lemma DetachedSlots(env: Env, s: Server, addr: word, reg: word)
    requires Shaped(s) && !s.scanner.attached && addr < SLOTS
    ensures InputRead(s, addr) == OutputRead(s, addr) == Error(-19)
    ensures OutputWrite(env, s, addr, reg) == (s, -19)
  {
  }

  /** Before the M4's first report a slot mapped to the motor state is sent as 0. */
  lemma UnreadableIsZero(s: Server, slot: word)
    requires Shaped(s) && s.scanner.attached && slot < SLOTS && s.m.report.None?
    requires 20 <= s.m.regs[INPUT_MAP + slot] < 32
    ensures InputImage(s)[slot] == 0
  {
  }
}
