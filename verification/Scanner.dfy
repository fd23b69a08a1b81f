/** The scanner window and the EtherNet/IP assembly callbacks as objects over the register module.
    Proved against ScannerModel. */
module Scanner {
  import opened Words
  import opened Errno
  import opened R = RegisterModel
  import S = ScannerModel
  import H = HoldingRegisters

  class Window {
    /** Unit-ID 1, reached only through its accessors once they are registered. */
    const bank: H.Bank
    var attached: bool
    const inputs: array<word>
    const outputs: array<word>

    ghost predicate Valid()
      reads this, inputs, outputs, bank, bank.regs, bank.ipc
    {
      && bank.Valid() && inputs.Length == outputs.Length == SLOTS
      && inputs != outputs && inputs != bank.regs && outputs != bank.regs
    }

    ghost function Value(): (s: S.Server)
      requires Valid()
      reads this, inputs, outputs, bank, bank.regs, bank.ipc
      ensures |s.scanner.inputs| == |s.scanner.outputs| == SLOTS
    {
      S.Server(bank.Value(), S.Scanner(attached, inputs[..], outputs[..]))
    }

    constructor (bank: H.Bank)
      requires bank.Valid()
      ensures this.bank == bank && fresh(inputs) && fresh(outputs)
      ensures Valid() && !attached && inputs[..] == outputs[..] == [0, 0, 0, 0, 0]
    {
      this.bank, attached := bank, false;
      inputs := new word[SLOTS](_ => 0);
      outputs := new word[SLOTS](_ => 0);
    }

    method Init()
      requires Valid()
      modifies this`attached
      ensures Valid() && Value() == old(Value()).(scanner := old(Value()).scanner.(attached := true))
    {
      attached := true;
    }

    method MapRead(base: word, addr: word, now: nat) returns (r: Reading)
      requires Valid() && base + SLOTS <= COUNT && addr < SLOTS
      ensures r == if attached then R.Read(bank.Value(), base + addr) else Error(-ENODEV)
    {
      if !attached {
        return Error(-ENODEV);
      }
      r := bank.HoldingRead(base + addr, now);
    }

    method InputRead(addr: word, now: nat) returns (r: Reading)
      requires Valid()
      ensures r == S.InputRead(Value(), addr)
    {
      hide R.Read;
      if addr >= SLOTS {
        return Error(-ENOTSUP);
      }
      r := MapRead(INPUT_MAP, addr, now);
      if r.Error? {
        return;
      }
      if r.reg == FREE {
        return R.Value(inputs[addr]);
      }
      r := bank.HoldingRead(r.reg, now);
    }

    method OutputRead(addr: word, now: nat) returns (r: Reading)
      requires Valid()
      ensures r == S.OutputRead(Value(), addr)
    {
      hide R.Read;
      if addr >= SLOTS {
        return Error(-ENOTSUP);
      }
      r := MapRead(OUTPUT_MAP, addr, now);
      if r.Error? {
        return;
      }
      if r.reg == FREE {
        return R.Value(outputs[addr]);
      }
      r := bank.HoldingRead(r.reg, now);
    }

    method OutputWrite(addr: word, reg: word, now: nat) returns (ret: int)
      requires Valid()
      modifies outputs, bank, bank.regs, bank.ipc
      ensures Valid() && (Value(), ret) == S.OutputWrite(bank.env, old(Value()), addr, reg)
    {
      if addr >= SLOTS {
        return -ENOTSUP;
      }
      var target := MapRead(OUTPUT_MAP, addr, now);
      if target.Error? {
        return target.code;
      }
      hide R.Write;
      if target.reg == FREE {
        outputs[addr] := reg;
        return 0;
      }
      if target.reg == MOTOR_APPLY && reg == 0 {
        ret := 0;
      } else if target.reg == MOTOR_APPLY {
        ret := bank.HoldingWrite(MOTOR_MODE, 1);
        if ret >= 0 {
          ret := bank.HoldingWrite(MOTOR_APPLY, reg);
        }
      } else {
        ret := bank.HoldingWrite(target.reg, reg);
      }
    }
  }

  // ----- EtherNet/IP -----

  const OUTPUT_ASSEMBLY := 100
  const INPUT_ASSEMBLY := 101

  /** Once a slot has failed, the rest of the image makes no difference. */
  lemma {:induction false} ReceiveStops(env: Env, s: S.Server, image: seq<word>, n: nat, m: nat)
    requires |s.scanner.outputs| == SLOTS && n <= m <= |image| <= SLOTS
    requires !S.Receive(env, s, image, n).2
    ensures S.Receive(env, s, image, m) == S.Receive(env, s, image, n)
    decreases m
  {
    hide S.OutputWrite;
    if n < m {
      ReceiveStops(env, s, image, n, m - 1);
    }
  }

  /** Writes a received Output assembly to the window, word by word, until one fails. */
  method AfterDataReceived(window: Window, instance: nat, assembly: array<byte>, now: nat) returns (ok: bool)
    requires window.Valid() && assembly.Length == 2 * SLOTS
    requires assembly as object !in {window.outputs as object, window.bank.regs}
    modifies window.outputs, window.bank, window.bank.regs, window.bank.ipc
    ensures window.Valid()
    ensures if instance != OUTPUT_ASSEMBLY then ok && window.Value() == old(window.Value())
            else
              var (s, _, all) := S.Receive(window.bank.env, old(window.Value()), LeWords(assembly[..]), SLOTS);
              window.Value() == s && ok == all
  {
    if instance != OUTPUT_ASSEMBLY {
      return true;
    }
    ghost var image := LeWords(assembly[..]);
    ghost var start := window.Value();
    hide S.OutputWrite;
    for i := 0 to SLOTS
      invariant window.Valid()
      invariant assembly[..] == old(assembly[..])
      invariant S.Receive(window.bank.env, start, image, i) == (window.Value(), i, true)
    {
      var reg := GetLe16(assembly[..], 2 * i);
      var ret := window.OutputWrite(i, reg, now);
      if ret < 0 {
        ReceiveStops(window.bank.env, start, image, i + 1, SLOTS);
        return false;
      }
    }
    ok := true;
  }

  /** Fills the Input assembly with the window's Input image. */
  method BeforeDataSend(window: Window, instance: nat, assembly: array<byte>, now: nat)
    requires window.Valid() && assembly.Length == 2 * SLOTS
    requires assembly as object !in
             {window.inputs as object, window.outputs, window.bank.regs}
    modifies assembly
    ensures window.Valid() && window.Value() == old(window.Value())
    ensures if instance != INPUT_ASSEMBLY then assembly[..] == old(assembly[..])
            else LeWords(assembly[..]) == S.InputImage(window.Value())
  {
    if instance != INPUT_ASSEMBLY {
      return;
    }
    ghost var image := S.InputImage(window.Value());
    for i := 0 to SLOTS
      invariant window.Valid() && window.Value() == old(window.Value())
      invariant forall k :: 0 <= k < i ==> GetLe16(assembly[..], 2 * k) == image[k]
    {
      var r := window.InputRead(i, now);
      var value: word := match r case Value(w) => w case Error(_) => 0;
      var bytes := PutLe16(value);
      assembly[2 * i], assembly[2 * i + 1] := bytes[0], bytes[1];
    }
  }
}
