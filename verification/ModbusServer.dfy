/** Function code 23 as its handler runs it: two loops over byte buffers. Proved against Fc23Model. */
module ModbusServer {
  import opened Words
  import opened Options
  import opened R = RegisterModel
  import opened F = Fc23Model
  import S = ScannerModel
  import W = Scanner

  /** Once a write has failed, the rest of the request makes no difference. */
  lemma {:induction false} WriteStops(env: Env, unit: byte, s: S.Server, addr: word, ws: seq<word>, n: nat)
    requires |s.scanner.outputs| == SLOTS && n <= |ws|
    requires !WriteAll(env, unit, s, addr, ws[..n]).2
    ensures WriteAll(env, unit, s, addr, ws) == WriteAll(env, unit, s, addr, ws[..n])
    decreases |ws|
  {
    hide RoutedWrite;
    if n < |ws| {
      assert ws[..|ws| - 1][..n] == ws[..n];
      WriteStops(env, unit, s, addr, ws[..|ws| - 1], n);
    } else {
      assert ws[..n] == ws;
    }
  }

  lemma WriteNothing(env: Env, unit: byte, s: S.Server, addr: word, ws: seq<word>)
    requires |s.scanner.outputs| == SLOTS
    ensures WriteAll(env, unit, s, addr, ws[..0]) == (s, 0, true)
  {
  }

  /** One write of the loop. */
  lemma WriteStep(env: Env, unit: byte, start: S.Server, addr: word, ws: seq<word>, i: nat, s: S.Server)
    requires |start.scanner.outputs| == SLOTS && i < |ws| && |s.scanner.outputs| == SLOTS
    requires WriteAll(env, unit, start, addr, ws[..i]) == (s, i, true)
    ensures var (r, ret) := RoutedWrite(env, unit, s, U16(addr + i), ws[i]);
            if ret == 0 then WriteAll(env, unit, start, addr, ws[..i + 1]) == (r, i + 1, true)
            else WriteAll(env, unit, start, addr, ws) == (r, i + 1, false)
  {
    hide RoutedWrite;
    assert ws[..i + 1][..i] == ws[..i];
    if RoutedWrite(env, unit, s, U16(addr + i), ws[i]).1 != 0 {
      WriteStops(env, unit, start, addr, ws, i + 1);
    }
  }

  lemma {:induction false} ReadStops(unit: byte, s: S.Server, addr: word, n: nat, qty: nat)
    requires |s.scanner.inputs| == SLOTS && n <= qty
    requires ReadAll(unit, s, addr, n).None?
    ensures ReadAll(unit, s, addr, qty).None?
    decreases qty
  {
    if n < qty {
      ReadStops(unit, s, addr, n, qty - 1);
    }
  }

  /** One read of the loop. */
  lemma ReadStep(unit: byte, s: S.Server, addr: word, i: nat, qty: nat)
    requires |s.scanner.inputs| == SLOTS && i < qty && ReadAll(unit, s, addr, i).Some?
    ensures match RoutedRead(unit, s, U16(addr + i))
            case Error(_) => ReadAll(unit, s, addr, qty).None?
            case Value(w) =>
              && ReadAll(unit, s, addr, i + 1).Some?
              && PutBeWords(ReadAll(unit, s, addr, i + 1).value)
                 == PutBeWords(ReadAll(unit, s, addr, i).value) + PutBe16(w)
  {
    hide RoutedRead;
    match RoutedRead(unit, s, U16(addr + i))
    case Error(_) => ReadStops(unit, s, addr, i + 1, qty);
    case Value(w) => PutAppend(ReadAll(unit, s, addr, i).value, w);
  }

  lemma PutAppend(ws: seq<word>, w: word)
    ensures PutBeWords(ws + [w]) == PutBeWords(ws) + PutBe16(w)
  {
  }

  class Server {
    const window: W.Window
    var activeUnit: byte

    ghost predicate Valid()
      reads this, window, window.inputs, window.outputs
      reads window.bank, window.bank.regs, window.bank.ipc
    {
      window.Valid()
    }

    constructor (window: W.Window)
      requires window.Valid()
      ensures this.window == window && Valid()
    {
      this.window, activeUnit := window, 1;
    }

    method RoutedHoldingRead(addr: word, now: nat) returns (r: Reading)
      requires Valid()
      ensures r == RoutedRead(activeUnit, window.Value(), addr)
    {
      hide S.InputRead, R.Read;
      if activeUnit == SCANNER_UNIT {
        r := window.InputRead(addr, now);
      } else {
        r := window.bank.HoldingRead(addr, now);
      }
    }

    method RoutedHoldingWrite(addr: word, reg: word, now: nat) returns (ret: int)
      requires Valid()
      modifies window.outputs, window.bank, window.bank.regs, window.bank.ipc
      ensures Valid()
      ensures (window.Value(), ret) == RoutedWrite(window.bank.env, activeUnit, old(window.Value()), addr, reg)
    {
      hide S.OutputWrite, R.Write;
      if activeUnit == SCANNER_UNIT {
        ret := window.OutputWrite(addr, reg, now);
      } else {
        ret := window.bank.HoldingWrite(addr, reg);
      }
    }

    /** The writes of a request, in order, until one fails. */
    method WriteHoldingRegs(rx: seq<byte>, now: nat) returns (ok: bool)
      requires Valid() && WellFormed(rx)
      modifies window.outputs, window.bank, window.bank.regs, window.bank.ipc
      ensures Valid()
      ensures var (s, _, all) :=
                WriteAll(window.bank.env, activeUnit, old(window.Value()), Parse(rx).writeAddr, Parse(rx).words);
              window.Value() == s && ok == all
    {
      var writeAddr, writeQty := GetBe16(rx, 4), GetBe16(rx, 6);
      ghost var ws := Parse(rx).words;
      ghost var start := window.Value();
      hide RoutedWrite, WriteAll;
      WriteNothing(window.bank.env, activeUnit, start, writeAddr, ws);
      for i := 0 to writeQty
        invariant Valid()
        invariant WriteAll(window.bank.env, activeUnit, start, writeAddr, ws[..i]) == (window.Value(), i, true)
      {
        var reg := GetBe16(rx, HEADER + 2 * i);
        assert reg == ws[i];
        WriteStep(window.bank.env, activeUnit, start, writeAddr, ws, i, window.Value());
        var ret := RoutedHoldingWrite(U16(writeAddr + i), reg, now);
        if ret != 0 {
          return false;
        }
      }
      assert ws[..writeQty] == ws;
      ok := true;
    }

    /** The reads of a request, each put into the response as it is made. */
    method ReadHoldingRegs(readAddr: word, readQty: word, tx: array<byte>, now: nat) returns (ok: bool)
      requires Valid() && readQty <= MAX_READ && 1 + 2 * readQty <= tx.Length
      requires tx as object !in {window.inputs as object, window.outputs, window.bank.regs}
      modifies tx
      ensures Valid() && window.Value() == old(window.Value()) && tx[0] == old(tx[0])
      ensures var ws := ReadAll(activeUnit, window.Value(), readAddr, readQty);
              && ok == ws.Some?
              && (ok ==> tx[1..1 + 2 * readQty] == PutBeWords(ws.value))
    {
      ghost var s := window.Value();
      assert tx[1..1] == PutBeWords(ReadAll(activeUnit, s, readAddr, 0).value);
      hide RoutedRead, ReadAll, PutBeWords;
      for i := 0 to readQty
        invariant Valid() && window.Value() == s && tx[0] == old(tx[0])
        invariant ReadAll(activeUnit, s, readAddr, i).Some?
        invariant tx[1..1 + 2 * i] == PutBeWords(ReadAll(activeUnit, s, readAddr, i).value)
      {
        ReadStep(activeUnit, s, readAddr, i, readQty);
        var r := RoutedHoldingRead(U16(readAddr + i), now);
        if r.Error? {
          return false;
        }
        var bytes := PutBe16(r.reg);
        tx[1 + 2 * i], tx[2 + 2 * i] := bytes[0], bytes[1];
        assert tx[1..1 + 2 * (i + 1)] == tx[1..1 + 2 * i] + bytes;
      }
      ok := true;
    }

    /** One request: `length` bytes of response in `tx`, or an exception code. */
    method ReadWriteHoldingRegs(rx: seq<byte>, tx: array<byte>, now: nat) returns (exception: byte, length: nat)
      requires Valid() && 1 + 2 * MAX_READ <= tx.Length
      requires tx as object !in {window.inputs as object, window.outputs, window.bank.regs}
      modifies tx, window.outputs, window.bank, window.bank.regs, window.bank.ipc
      ensures Valid() && length <= tx.Length
      ensures var (s, response) := Execute(window.bank.env, activeUnit, old(window.Value()), rx);
              && window.Value() == s
              && response == if exception != 0 then Exception(exception) else Reply(tx[..length])
    {
      length := 0;
      if |rx| < HEADER {
        return ILLEGAL_DATA_VALUE, 0;
      }
      var readAddr, readQty := GetBe16(rx, 0), GetBe16(rx, 2);
      var writeQty, writeBytes := GetBe16(rx, 6), rx[8];
      if readQty == 0 || readQty > 125 || writeQty == 0 || writeQty > 121
         || writeBytes != writeQty * 2 || |rx| != HEADER + writeBytes
      {
        return ILLEGAL_DATA_VALUE, 0;
      }
      hide WriteAll, ReadAll;
      var ok := WriteHoldingRegs(rx, now);
      if !ok {
        return ILLEGAL_DATA_ADDRESS, 0;
      }
      tx[0] := 2 * readQty;
      length := 2 * readQty + 1;
      ok := ReadHoldingRegs(readAddr, readQty, tx, now);
      if !ok {
        return ILLEGAL_DATA_ADDRESS, length;
      }
      exception := 0;
      assert tx[..length] == [tx[0]] + tx[1..length];
    }
  }
}
