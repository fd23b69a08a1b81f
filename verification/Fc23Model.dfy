/** Function code 23 (Read/Write Multiple Registers, section 6.17 of the MODBUS Application Protocol
    Specification V1.1b3) on values: a left fold of routed writes, then routed reads. */
module Fc23Model {
  import opened Words
  import opened Errno
  import opened Options
  import opened RegisterModel
  import opened ScannerModel

  const SCANNER_UNIT: byte := 2
  const ILLEGAL_DATA_ADDRESS: byte := 2
  const ILLEGAL_DATA_VALUE: byte := 3
  const HEADER := 9
  const MAX_READ := 125
  const MAX_WRITE := 121

  datatype Request = Request(readAddr: word, readQty: word, writeAddr: word, words: seq<word>)

  datatype Response = Reply(bytes: seq<byte>) | Exception(code: byte)

  // ----- Routing by unit -----

  function Limit(unit: byte): nat {
    if unit == SCANNER_UNIT then SLOTS else COUNT
  }

  function RoutedRead(unit: byte, s: Server, addr: word): Reading
    requires |s.scanner.inputs| == SLOTS
  {
    if unit == SCANNER_UNIT then InputRead(s, addr) else Read(s.m, addr)
  }

  function RoutedWrite(env: Env, unit: byte, s: Server, addr: word, reg: word): (r: (Server, int))
    requires |s.scanner.outputs| == SLOTS
    ensures |r.0.scanner.outputs| == SLOTS && r.0.scanner.inputs == s.scanner.inputs
  {
    if unit == SCANNER_UNIT then OutputWrite(env, s, addr, reg)
    else
      var (m, ret) := Write(env, s.m, addr, reg);
      (s.(m := m), ret)
  }

  // ----- The request -----

  predicate WellFormed(data: seq<byte>) {
    && |data| >= HEADER
    && 1 <= GetBe16(data, 2) <= MAX_READ
    && 1 <= GetBe16(data, 6) <= MAX_WRITE
    && data[8] == 2 * GetBe16(data, 6)
    && |data| == HEADER + data[8]
  }

  function Parse(data: seq<byte>): Request
    requires |data| >= HEADER
  {
    Request(GetBe16(data, 0), GetBe16(data, 2), GetBe16(data, 4), BeWords(data[HEADER..]))
  }

  predicate InLimits(r: Request) {
    1 <= r.readQty <= MAX_READ && 1 <= |r.words| <= MAX_WRITE
  }

  function Encode(r: Request): seq<byte>
    requires InLimits(r)
  {
    PutBe16(r.readAddr) + PutBe16(r.readQty) + PutBe16(r.writeAddr) + PutBe16(|r.words|)
    + [2 * |r.words|] + PutBeWords(r.words)
  }

  // ----- The transaction -----

  /** The writes in order, up to the first that fails: the state, how many were attempted, and
      whether all succeeded. Addresses are computed in 16 bits. */
  function WriteAll(env: Env, unit: byte, s: Server, addr: word, ws: seq<word>): (r: (Server, nat, bool))
    requires |s.scanner.outputs| == SLOTS
    ensures |r.0.scanner.outputs| == SLOTS && r.0.scanner.inputs == s.scanner.inputs
    ensures r.1 <= |ws| && (r.2 ==> r.1 == |ws|) && (!r.2 ==> r.1 > 0)
    decreases |ws|
  {
    if |ws| == 0 then (s, 0, true)
    else
      var i := |ws| - 1;
      var (s1, k, ok) := WriteAll(env, unit, s, addr, ws[..i]);
      if !ok then (s1, k, false)
      else
        var (s2, ret) := RoutedWrite(env, unit, s1, U16(addr + i), ws[i]);
        (s2, |ws|, ret == 0)
  }

  function ReadAll(unit: byte, s: Server, addr: word, qty: nat): (r: Option<seq<word>>)
    requires |s.scanner.inputs| == SLOTS
    ensures r.Some? ==> |r.value| == qty
  {
    if qty == 0 then Some([])
    else
      match ReadAll(unit, s, addr, qty - 1)
      case None => None
      case Some(ws) =>
        match RoutedRead(unit, s, U16(addr + qty - 1))
        case Error(_) => None
        case Value(w) => Some(ws + [w])
  }

  function Perform(env: Env, unit: byte, s: Server, r: Request): (Server, Response)
    requires InLimits(r) && |s.scanner.inputs| == |s.scanner.outputs| == SLOTS
  {
    var (s1, _, ok) := WriteAll(env, unit, s, r.writeAddr, r.words);
    if !ok then (s1, Exception(ILLEGAL_DATA_ADDRESS))
    else
      match ReadAll(unit, s1, r.readAddr, r.readQty)
      case None => (s1, Exception(ILLEGAL_DATA_ADDRESS))
      case Some(ws) => (s1, Reply([2 * r.readQty] + PutBeWords(ws)))
  }

  function Execute(env: Env, unit: byte, s: Server, data: seq<byte>): (Server, Response)
    requires |s.scanner.inputs| == |s.scanner.outputs| == SLOTS
  {
    if !WellFormed(data) then (s, Exception(ILLEGAL_DATA_VALUE))
    else
      Perform(env, unit, s, Parse(data))
  }

  // ----- Requests and their bytes -----

  lemma EncodeIsWellFormed(r: Request)
    requires InLimits(r)
    ensures WellFormed(Encode(r)) && Parse(Encode(r)) == r
  {
    var d := Encode(r);
    assert d[HEADER..] == PutBeWords(r.words);
    BeWordsRoundTrip(r.words);
  }

  lemma WellFormedIsEncoded(data: seq<byte>)
    requires WellFormed(data)
    ensures InLimits(Parse(data)) && data == Encode(Parse(data))
  {
    BeBytesRoundTrip(data[HEADER..]);
    assert data == data[..HEADER] + data[HEADER..];
  }

  /** Exactly the encodings of requests within the standard's quantities are performed; anything
      else is answered with ILLEGAL DATA VALUE and changes nothing. */
  lemma PerformsExactlyRequests(env: Env, unit: byte, s: Server, data: seq<byte>)
    requires Shaped(s)
    ensures forall r: Request :: InLimits(r) && data == Encode(r) ==>
              Execute(env, unit, s, data) == Perform(env, unit, s, r)
    ensures (forall r: Request :: InLimits(r) ==> data != Encode(r)) ==>
              Execute(env, unit, s, data) == (s, Exception(ILLEGAL_DATA_VALUE))
    ensures Execute(env, unit, s, data).1 == Exception(ILLEGAL_DATA_VALUE) <==>
              forall r: Request :: InLimits(r) ==> data != Encode(r)
  {
    hide WriteAll, ReadAll, Encode, Parse;
    forall r: Request | InLimits(r) && data == Encode(r)
      ensures Execute(env, unit, s, data) == Perform(env, unit, s, r) && WellFormed(data)
    {
      EncodeIsWellFormed(r);
    }
    if WellFormed(data) {
      WellFormedIsEncoded(data);
    }
  }

  // ----- Addresses never wrap -----

  lemma WriteNeedsAddress(env: Env, unit: byte, s: Server, addr: word, reg: word)
    requires |s.scanner.outputs| == SLOTS && addr >= Limit(unit)
    ensures RoutedWrite(env, unit, s, addr, reg) == (s, -ENOTSUP)
  {
  }

  /** Every attempted write goes to its true address: the sum leaves the map, and stops the
      request, before it could wrap round to a low register. */
  lemma {:induction false} WritesDoNotWrap(env: Env, unit: byte, s: Server, addr: word, ws: seq<word>)
    requires |s.scanner.outputs| == SLOTS
    ensures var (r, k, ok) := WriteAll(env, unit, s, addr, ws);
            && (k > 0 ==> addr + k - 1 < 0x1_0000)
            && (k > 1 ==> addr + k - 1 <= Limit(unit))
            && (ok && |ws| > 0 ==> addr + |ws| <= Limit(unit))
    decreases |ws|
  {
    hide RoutedWrite;
    if |ws| > 0 {
      var i := |ws| - 1;
      WritesDoNotWrap(env, unit, s, addr, ws[..i]);
      var (s1, k, ok) := WriteAll(env, unit, s, addr, ws[..i]);
      if ok && addr + i >= Limit(unit) {
        WriteNeedsAddress(env, unit, s1, U16(addr + i), ws[i]);
      }
    }
  }

  lemma {:induction false} ReadsDoNotWrap(unit: byte, s: Server, addr: word, qty: nat, j: nat)
    requires |s.scanner.inputs| == SLOTS
    requires ReadAll(unit, s, addr, qty).Some? && j < qty
    ensures addr + qty <= Limit(unit)
    ensures RoutedRead(unit, s, addr + j) == Value(ReadAll(unit, s, addr, qty).value[j])
  {
    hide Read, ReadSlot;
    if qty > 1 {
      ReadsDoNotWrap(unit, s, addr, qty - 1, if j < qty - 1 then j else 0);
    } else {
      assert ReadAll(unit, s, addr, 0).Some?;
    }
    ReadNeedsAddress(unit, s, U16(addr + qty - 1));
  }

  lemma ReadNeedsAddress(unit: byte, s: Server, addr: word)
    requires |s.scanner.inputs| == SLOTS && RoutedRead(unit, s, addr).Value?
    ensures addr < Limit(unit)
  {
  }

  // ----- A failing write -----

  /** A request whose writes fail stops at one of them: the writes before it took effect exactly as
      a shorter request, then the failing one's own effects, and no later word matters. */
  lemma {:induction false} FailureStops(env: Env, unit: byte, s: Server, addr: word, ws: seq<word>)
    requires |s.scanner.outputs| == SLOTS
    requires !WriteAll(env, unit, s, addr, ws).2
    ensures var (r, k, _) := WriteAll(env, unit, s, addr, ws);
            var (before, _, ok) := WriteAll(env, unit, s, addr, ws[..k - 1]);
            && ok
            && RoutedWrite(env, unit, before, U16(addr + k - 1), ws[k - 1]).0 == r
            && RoutedWrite(env, unit, before, U16(addr + k - 1), ws[k - 1]).1 != 0
    decreases |ws|
  {
    hide RoutedWrite;
    var i := |ws| - 1;
    var (s1, k, ok) := WriteAll(env, unit, s, addr, ws[..i]);
    if !ok {
      FailureStops(env, unit, s, addr, ws[..i]);
      assert ws[..i][..k - 1] == ws[..k - 1];
    }
  }

  /** What a failing write may leave behind: the command status and a cleared APPLY, remote mode if
      it came through the scanner, and the configuration registers if it was a configuration
      command. Nothing is submitted unless it wrote 1 to APPLY. */
  lemma FailedWriteFrame(env: Env, unit: byte, s: Server, addr: word, reg: word)
    requires Shaped(s) && RoutedWrite(env, unit, s, addr, reg).1 != 0
    ensures var r := RoutedWrite(env, unit, s, addr, reg).0;
            && r.scanner == s.scanner && r.m.report == s.m.report
            && (forall k :: 10 <= k < COUNT && k !in {MOTOR_APPLY, COMMAND_STATUS, MOTOR_MODE} ==>
                  r.m.regs[k] == s.m.regs[k])
            && (r.m.regs[MOTOR_MODE] == s.m.regs[MOTOR_MODE]
                || (unit == SCANNER_UNIT && r.m.regs[MOTOR_MODE] == 1))
            && (r.m.regs[MOTOR_APPLY] in {0, s.m.regs[MOTOR_APPLY]})
            && (reg != 1 ==> r.m.attempts == s.m.attempts)
  {
    hide G.Submit;
  }

  // ----- Invariants of a transaction -----

  lemma RoutedWriteKeeps(env: Env, unit: byte, s: Server, addr: word, reg: word)
    requires Shaped(s) && Sound(s.m) && SmallErrors(env)
    ensures var r := RoutedWrite(env, unit, s, addr, reg).0;
            Sound(r.m) && (unit == SCANNER_UNIT ==> SameTables(r.m, s.m))
  {
    hide Sound, Write, OutputWrite;
    if unit == SCANNER_UNIT {
      OutputWriteKeeps(env, s, addr, reg);
    } else {
      WriteKeeps(env, s.m, addr, reg);
    }
  }

  lemma {:induction false} WriteAllKeeps(env: Env, unit: byte, s: Server, addr: word, ws: seq<word>)
    requires Shaped(s) && Sound(s.m) && SmallErrors(env)
    ensures var r := WriteAll(env, unit, s, addr, ws).0;
            Shaped(r) && Sound(r.m) && (unit == SCANNER_UNIT ==> SameTables(r.m, s.m))
    decreases |ws|
  {
    hide Sound, RoutedWrite;
    if |ws| > 0 {
      var i := |ws| - 1;
      WriteAllKeeps(env, unit, s, addr, ws[..i]);
      RoutedWriteKeeps(env, unit, WriteAll(env, unit, s, addr, ws[..i]).0, U16(addr + i), ws[i]);
    }
  }

  /** Whatever the bytes, a transaction keeps the register invariant; one sent to Unit-ID 2 changes
      no mapping table and not the reserved register. */
  lemma TransactionKeeps(env: Env, unit: byte, s: Server, data: seq<byte>)
    requires Shaped(s) && Sound(s.m) && SmallErrors(env)
    ensures var r := Execute(env, unit, s, data).0;
            Shaped(r) && Sound(r.m) && (unit == SCANNER_UNIT ==> SameTables(r.m, s.m))
  {
    hide Sound, WriteAll, ReadAll;
    if WellFormed(data) {
      WellFormedIsEncoded(data);
      WriteAllKeeps(env, unit, s, Parse(data).writeAddr, Parse(data).words);
    }
  }

  // ----- A transaction reads its own writes -----

  /** A register that simply holds what was last written to it. */
  predicate IsPlain(addr: word) {
    10 <= addr < COUNT && !IsReadOnly(addr) && addr != MOTOR_APPLY
  }

  lemma PlainWrite(env: Env, m: M7, addr: word, reg: word, a: word)
    requires IsPlain(a) && Write(env, m, addr, reg).1 == 0
    ensures Write(env, m, addr, reg).0.regs[a] == if addr == a then reg else m.regs[a]
  {
  }

  lemma {:induction false} WrittenValue(env: Env, s: Server, unit: byte, addr: word, ws: seq<word>, a: word)
    requires |s.scanner.outputs| == SLOTS && unit != SCANNER_UNIT && IsPlain(a)
    requires WriteAll(env, unit, s, addr, ws).2
    ensures WriteAll(env, unit, s, addr, ws).0.m.regs[a] ==
              if addr <= a < addr + |ws| then ws[a - addr] else s.m.regs[a]
    decreases |ws|
  {
    hide Write;
    if |ws| > 0 {
      var i := |ws| - 1;
      WrittenValue(env, s, unit, addr, ws[..i], a);
      WritesDoNotWrap(env, unit, s, addr, ws);
      PlainWrite(env, WriteAll(env, unit, s, addr, ws[..i]).0.m, U16(addr + i), ws[i], a);
    }
  }

  /** A successful request to Unit-ID 1 stays inside the sixty registers, and its reply is the byte
      count followed by one big-endian word for each register read: for a plain register the word
      the same request wrote to it, or what it held before. */
  lemma ReplyReadsWrites(env: Env, s: Server, unit: byte, r: Request, j: nat)
    requires Shaped(s) && InLimits(r) && unit != SCANNER_UNIT && j < r.readQty
    requires Perform(env, unit, s, r).1.Reply?
    ensures r.writeAddr + |r.words| <= COUNT && r.readAddr + r.readQty <= COUNT
    ensures var bytes := Perform(env, unit, s, r).1.bytes;
            && |bytes| == 1 + 2 * r.readQty && bytes[0] == 2 * r.readQty
            && (IsPlain(r.readAddr + j) ==>
                  var a := r.readAddr + j;
                  GetBe16(bytes, 1 + 2 * j) ==
                    if r.writeAddr <= a < r.writeAddr + |r.words| then r.words[a - r.writeAddr]
                    else s.m.regs[a])
  {
    hide WriteAll, ReadAll, RoutedWrite;
    WritesDoNotWrap(env, unit, s, r.writeAddr, r.words);
    var s1 := WriteAll(env, unit, s, r.writeAddr, r.words).0;
    ReadsDoNotWrap(unit, s1, r.readAddr, r.readQty, j);
    ReplyWord(r.readQty, ReadAll(unit, s1, r.readAddr, r.readQty).value, j);
    if IsPlain(r.readAddr + j) {
      WrittenValue(env, s, unit, r.writeAddr, r.words, r.readAddr + j);
    }
  }

  lemma ReplyWord(qty: word, ws: seq<word>, j: nat)
    requires qty <= MAX_READ && |ws| == qty && j < qty
    ensures GetBe16([2 * qty as byte] + PutBeWords(ws), 1 + 2 * j) == ws[j]
  {
  }

  // ----- Unit-ID 2 and EtherNet/IP are the same interface -----

  /** A FREE Input slot reads 0 in every reply, whatever the same request wrote. */
  lemma ScannerReplyFreeIsZero(env: Env, s: Server, r: Request, j: nat)
    requires Shaped(s) && Sound(s.m) && SmallErrors(env) && InLimits(r)
    requires s.scanner.attached && s.scanner.inputs == ATTACHED.inputs
    requires Perform(env, SCANNER_UNIT, s, r).1.Reply? && j < r.readQty
    ensures r.writeAddr + |r.words| <= SLOTS && r.readAddr + r.readQty <= SLOTS
    ensures s.m.regs[INPUT_MAP + r.readAddr + j] == FREE ==>
              GetBe16(Perform(env, SCANNER_UNIT, s, r).1.bytes, 1 + 2 * j) == 0
  {
    hide WriteAll, ReadAll, RoutedWrite, Sound;
    WritesDoNotWrap(env, SCANNER_UNIT, s, r.writeAddr, r.words);
    WriteAllKeeps(env, SCANNER_UNIT, s, r.writeAddr, r.words);
    var s1 := WriteAll(env, SCANNER_UNIT, s, r.writeAddr, r.words).0;
    ReadsDoNotWrap(SCANNER_UNIT, s1, r.readAddr, r.readQty, j);
    ReplyWord(r.readQty, ReadAll(SCANNER_UNIT, s1, r.readAddr, r.readQty).value, j);
  }

  /** The value of a plain register once these words have been written to consecutive slots: that of the
      last slot mapped to it, or what it held before; a nonzero word in a slot mapped to APPLY claims
      remote mode. */
  function SlotsLeave(t: seq<word>, addr: nat, ws: seq<word>, k: word, before: word): word
    requires addr + |ws| <= |t|
    decreases |ws|
  {
    if |ws| == 0 then before
    else
      var last := t[addr + |ws| - 1];
      if last == k then Last(ws)
      else if last == MOTOR_APPLY && k == MOTOR_MODE && Last(ws) != 0 then 1
      else SlotsLeave(t, addr, ws[..|ws| - 1], k, before)
  }

  lemma MappedPlainWrite(env: Env, m: M7, target: word, reg: word, k: word)
    requires IsPlain(k) && target < COUNT && MappedWrite(env, m, target, reg).1 == 0
    ensures MappedWrite(env, m, target, reg).0.regs[k] ==
            if target == k then reg
            else if target == MOTOR_APPLY && k == MOTOR_MODE && reg != 0 then 1
            else m.regs[k]
  {
    hide Write;
    if target == MOTOR_APPLY && reg != 0 {
      var (m1, e1) := Write(env, m, MOTOR_MODE, 1);
      ModeWrite(env, m);
      PlainWrite(env, m1, MOTOR_APPLY, reg, k);
      PlainWrite(env, m, MOTOR_MODE, 1, k);
    } else if target != MOTOR_APPLY {
      PlainWrite(env, m, target, reg, k);
    }
  }

  lemma ModeWrite(env: Env, m: M7)
    ensures Write(env, m, MOTOR_MODE, 1).1 == 0
  {
  }

  lemma SlotWritten(env: Env, s: Server, addr: word, reg: word, k: word)
    requires Shaped(s) && Sound(s.m) && s.scanner.attached && IsPlain(k) && addr < SLOTS
    requires OutputWrite(env, s, addr, reg).1 == 0
    ensures var r := OutputWrite(env, s, addr, reg).0;
            && r.scanner.attached
            && r.m.regs[k] == SlotsLeave(Table(s.m), addr, [reg], k, s.m.regs[k])
  {
    var slot: word := OUTPUT_MAP + addr;
    TargetIsMapped(s, slot);
    assert Table(s.m)[addr] == s.m.regs[slot];
    hide Sound, MappedWrite;
    if s.m.regs[slot] != FREE {
      MappedPlainWrite(env, s.m, s.m.regs[slot], reg, k);
    }
    assert SlotsLeave(Table(s.m), addr, [reg][..0], k, s.m.regs[k]) == s.m.regs[k];
  }

  lemma SlotsAppend(t: seq<word>, addr: nat, ws: seq<word>, k: word, before: word)
    requires |ws| > 0 && addr + |ws| <= |t|
    ensures var i := |ws| - 1;
            SlotsLeave(t, addr, ws, k, before)
            == SlotsLeave(t, addr + i, [ws[i]], k, SlotsLeave(t, addr, ws[..i], k, before))
  {
    var i := |ws| - 1;
    var inner := SlotsLeave(t, addr, ws[..i], k, before);
    assert SlotsLeave(t, addr + i, [ws[i]][..0], k, inner) == inner;
  }

  lemma {:induction false} SlotsWritten(env: Env, s: Server, addr: word, ws: seq<word>, k: word)
    requires Shaped(s) && Sound(s.m) && SmallErrors(env) && s.scanner.attached && IsPlain(k)
    requires WriteAll(env, SCANNER_UNIT, s, addr, ws).2 && addr + |ws| <= SLOTS
    ensures var r := WriteAll(env, SCANNER_UNIT, s, addr, ws).0;
            && r.scanner.attached
            && r.m.regs[k] == SlotsLeave(Table(s.m), addr, ws, k, s.m.regs[k])
    decreases |ws|
  {
    hide Sound, OutputWrite, Table;
    if |ws| > 0 {
      var i := |ws| - 1;
      SlotsAppend(Table(s.m), addr, ws, k, s.m.regs[k]);
      SlotsWritten(env, s, addr, ws[..i], k);
      WriteAllKeeps(env, SCANNER_UNIT, s, addr, ws[..i]);
      var s1 := WriteAll(env, SCANNER_UNIT, s, addr, ws[..i]).0;
      SameTable(s1.m, s.m);
      hide SlotsLeave, SameTables;
      SlotWritten(env, s1, addr + i, ws[i], k);
    }
  }

  lemma SameTable(r: M7, m: M7)
    requires SameTables(r, m)
    ensures Table(r) == Table(m)
  {
  }

  lemma TargetIsMapped(s: Server, slot: word)
    requires Sound(s.m) && IsOutputMapping(slot)
    ensures s.m.regs[slot] == FREE || s.m.regs[slot] < COUNT
  {
  }

  /** A request to Unit-ID 2 reads its own writes too: an Input slot mapped to a plain register reads
      what the Output slots of the same request left in it. */
  lemma ScannerReplyReadsWrites(env: Env, s: Server, r: Request, j: nat)
    requires Shaped(s) && Sound(s.m) && SmallErrors(env) && InLimits(r) && s.scanner.attached
    requires Perform(env, SCANNER_UNIT, s, r).1.Reply? && j < r.readQty
    ensures r.writeAddr + |r.words| <= SLOTS && r.readAddr + r.readQty <= SLOTS
    ensures var bytes := Perform(env, SCANNER_UNIT, s, r).1.bytes;
            var k := s.m.regs[INPUT_MAP + r.readAddr + j];
            && |bytes| == 1 + 2 * r.readQty && bytes[0] == 2 * r.readQty
            && (IsPlain(k) ==>
                  GetBe16(bytes, 1 + 2 * j)
                  == SlotsLeave(Table(s.m), r.writeAddr, r.words, k, s.m.regs[k]))
  {
    hide WriteAll, ReadAll, RoutedWrite, Sound, Table, SlotsLeave;
    WritesDoNotWrap(env, SCANNER_UNIT, s, r.writeAddr, r.words);
    WriteAllKeeps(env, SCANNER_UNIT, s, r.writeAddr, r.words);
    var s1 := WriteAll(env, SCANNER_UNIT, s, r.writeAddr, r.words).0;
    ReadsDoNotWrap(SCANNER_UNIT, s1, r.readAddr, r.readQty, j);
    ReplyWord(r.readQty, ReadAll(SCANNER_UNIT, s1, r.readAddr, r.readQty).value, j);
    var k := s.m.regs[INPUT_MAP + r.readAddr + j];
    if IsPlain(k) {
      SlotsWritten(env, s, r.writeAddr, r.words, k);
    }
  }

  /** No register write has a positive result, provided saving has none. */
  ghost predicate NoPositive(env: Env) {
    forall i: nat :: env.save(i).ret <= 0
  }

  lemma OutputWriteResult(env: Env, s: Server, addr: word, reg: word)
    requires |s.scanner.outputs| == SLOTS && NoPositive(env)
    ensures OutputWrite(env, s, addr, reg).1 <= 0
  {
  }

  /** Five words written by function code 23 to Unit-ID 2 and the same five words received as an
      EtherNet/IP assembly do exactly the same. */
  lemma {:induction false} ScannerAgreesWithAssembly(env: Env, s: Server, ws: seq<word>)
    requires Shaped(s) && NoPositive(env) && |ws| <= SLOTS
    ensures WriteAll(env, SCANNER_UNIT, s, 0, ws) == Receive(env, s, ws, |ws|)
    decreases |ws|
  {
    hide OutputWrite;
    if |ws| > 0 {
      var i := |ws| - 1;
      ScannerAgreesWithAssembly(env, s, ws[..i]);
      ReceivePrefix(env, s, ws, i);
      var (s1, k, ok) := WriteAll(env, SCANNER_UNIT, s, 0, ws[..i]);
      OutputWriteResult(env, s1, i, ws[i]);
    }
  }

  lemma {:induction false} ReceivePrefix(env: Env, s: Server, ws: seq<word>, n: nat)
    requires |s.scanner.outputs| == SLOTS && n <= |ws| <= SLOTS
    ensures Receive(env, s, ws, n) == Receive(env, s, ws[..n], n)
    decreases n
  {
    hide OutputWrite;
    if n > 0 {
      ReceivePrefix(env, s, ws, n - 1);
      ReceivePrefix(env, s, ws[..n], n - 1);
      assert ws[..n][..n - 1] == ws[..n - 1];
    }
  }
}
