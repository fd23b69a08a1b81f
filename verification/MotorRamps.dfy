/** Closed forms of the ramps at the main loop's 10 ms period, when no write fails. */
module MotorRamps {
  import opened Words
  import opened MotorModel

  /** `n` consecutive process calls of the main loop and nothing else. */
  function Loops(b: Board, m: Motor, n: nat): Motor {
    if n == 0 then m else Process(b, Loops(b, m, n - 1), LOOP_MS).0
  }

  ghost predicate NoFailure(b: Board) {
    forall i: nat :: b.rc(i) >= 0
  }

  /** The point at distance `dist` from `from` on the way to `to`, or `to` when that is nearer. */
  function Toward(from: int, to: int, dist: nat): int {
    if from <= to then
      if from + dist <= to then from + dist else to
    else
      if from - dist >= to then from - dist else to
  }

  /** `n` steps of size `step`; kept recursive so that the proofs below stay linear. */
  function Distance(step: nat, n: nat): nat {
    if n == 0 then 0 else Distance(step, n - 1) + step
  }

  lemma {:induction false} DistanceIsProduct(step: nat, n: nat)
    ensures Distance(step, n) == n * step
  {
    if n > 0 {
      DistanceIsProduct(step, n - 1);
      assert n * step == (n - 1) * step + step;
    }
  }

  /** The 10 ms step in closed form: no overflow for any 16-bit rate, and never zero. */
  lemma LoopStep(rate: word)
    ensures RampStep(rate, LOOP_MS) == if rate < 100 then 1 else rate / 100
    ensures 1 <= RampStep(rate, LOOP_MS) <= 655
  {
  }

  lemma RunningStep(b: Board, m: Motor)
    requires NoFailure(b) && Consistent(m) && m.state == Running && m.boost == 0
    ensures var r := Process(b, m, LOOP_MS).0;
            && r.duty == Approach(m.duty, m.target, RampStep(m.accel, LOOP_MS))
            && r == m.(duty := r.duty, wire := r.wire)
            && Consistent(r)
  {
  }

  lemma TowardStep(from: word, to: word, dist: nat, step: word)
    ensures 0 <= Toward(from, to, dist) < 0x1_0000
    ensures Approach(Toward(from, to, dist), to, step) == Toward(from, to, dist + step)
  {
  }

  lemma {:induction false} RunningProgress(b: Board, m: Motor, n: nat)
    requires NoFailure(b) && Consistent(m) && m.state == Running && m.boost == 0
    ensures var r := Loops(b, m, n);
            && r.duty == Toward(m.duty, m.target, Distance(RampStep(m.accel, LOOP_MS), n))
            && r == m.(duty := r.duty, wire := r.wire)
            && Consistent(r)
  {
    if n > 0 {
      RunningProgress(b, m, n - 1);
      RunningStep(b, Loops(b, m, n - 1));
      var step := RampStep(m.accel, LOOP_MS);
      TowardStep(m.duty, m.target, Distance(step, n - 1), step);
    }
  }

  /** After the boost, `n` iterations move the duty exactly `n` steps toward the target,
      and hold it there once reached. */
  lemma RunningRamp(b: Board, m: Motor, n: nat)
    requires NoFailure(b) && Consistent(m) && m.state == Running && m.boost == 0
    ensures var r := Loops(b, m, n);
            && r.state == Running
            && r.duty == Toward(m.duty, m.target, n * RampStep(m.accel, LOOP_MS))
  {
    RunningProgress(b, m, n);
    DistanceIsProduct(RampStep(m.accel, LOOP_MS), n);
  }

  lemma BoostStep(b: Board, m: Motor)
    requires m.state == Running && m.boost >= LOOP_MS
    ensures Process(b, m, LOOP_MS).0 == m.(boost := m.boost - LOOP_MS)
  {
  }

  /** The start boost lasts exactly 25 iterations at full duty. */
  lemma {:induction false} BoostPhase(b: Board, m: Motor, n: nat)
    requires NoFailure(b) && m.state == Ready && n <= 25
    ensures var r := Loops(b, Start(b, m).0, n);
            && r.state == Running && r.duty == BOOST_DUTY && r.target == m.target
            && r.accel == m.accel && r.boost == BOOST_MS - n * LOOP_MS
  {
    hide Process, Start;
    StartEffect(b, m);
    if n > 0 {
      BoostPhase(b, m, n - 1);
      BoostStep(b, Loops(b, Start(b, m).0, n - 1));
    }
  }

  /** From standstill to any later iteration: full duty during the boost, then the ramp. */
  lemma StartProfile(b: Board, m: Motor, base: nat, n: nat)
    requires NoFailure(b) && Safe(b, m, base) && m.state == Ready
    ensures var r := Loops(b, Start(b, m).0, n);
            && r.state == Running
            && r.duty == if n <= 25 then 1000
                         else Toward(1000, m.target, (n - 25) * RampStep(m.accel, LOOP_MS))
  {
    hide Process, LaneSince, Start, RampStep;
    if n <= 25 {
      BoostPhase(b, m, n);
    } else {
      BoostPhase(b, m, 25);
      var started := Start(b, m).0;
      StartKeeps(b, m, base);
      LoopsKeep(b, started, 25, base);
      RunningRamp(b, Loops(b, started, 25), n - 25);
      LoopsCompose(b, started, 25, n - 25);
    }
  }

  lemma {:induction false} LoopsKeep(b: Board, m: Motor, n: nat, base: nat)
    requires Safe(b, m, base)
    ensures Safe(b, Loops(b, m, n), base)
  {
    if n > 0 {
      LoopsKeep(b, m, n - 1, base);
      ProcessKeeps(b, Loops(b, m, n - 1), LOOP_MS, base);
    }
  }

  lemma {:induction false} LoopsCompose(b: Board, m: Motor, i: nat, j: nat)
    ensures Loops(b, Loops(b, m, i), j) == Loops(b, m, i + j)
  {
    hide Process;
    if j > 0 {
      LoopsCompose(b, m, i, j - 1);
    }
  }

  lemma StoppingStep(b: Board, m: Motor)
    requires NoFailure(b) && m.state == Stopping && 0 < m.duty <= 1000
    ensures var step := RampStep(m.decel, LOOP_MS);
            var r := Process(b, m, LOOP_MS).0;
            && (m.duty > step ==> r.state == Stopping && r.duty == m.duty - step && r.decel == m.decel)
            && (m.duty <= step ==> r.state == Ready && r.duty == 0 && Released(Outputs(r)))
  {
  }

  lemma {:induction false} StoppingProgress(b: Board, m: Motor, n: nat)
    requires NoFailure(b) && m.state == Stopping && 0 < m.duty <= 1000
    ensures var left := m.duty - Distance(RampStep(m.decel, LOOP_MS), n);
            var r := Loops(b, m, n);
            && (left > 0 ==> r.state == Stopping && r.duty == left && r.decel == m.decel)
            && (left <= 0 ==> r.state == Ready && r.duty == 0 && Released(Outputs(r)))
  {
    if n > 0 {
      StoppingProgress(b, m, n - 1);
      var before := Loops(b, m, n - 1);
      if before.state == Stopping {
        StoppingStep(b, before);
      } else {
        assert Process(b, before, LOOP_MS).0 == before;
      }
    }
  }

  /** Stopping ramps down one step an iteration and is READY, with the bridge released, at the
      first iteration count whose steps cover the duty: neither one earlier nor one later. */
  lemma StoppingRamp(b: Board, m: Motor, n: nat)
    requires NoFailure(b) && Consistent(m) && m.state == Stopping
    ensures var step := RampStep(m.decel, LOOP_MS);
            var r := Loops(b, m, n);
            && 1 <= step
            && (r.state == Stopping <==> n * step < m.duty)
            && (r.state == Ready <==> m.duty <= n * step)
            && (r.state == Stopping ==> r.duty == m.duty - n * step)
            && (r.state == Ready ==> r.duty == 0 && Released(Outputs(r)))
  {
    LoopStep(m.decel);
    StoppingProgress(b, m, n);
    DistanceIsProduct(RampStep(m.decel, LOOP_MS), n);
  }

  /** The ramp step for any elapsed time: rate times time over 1000, rounded down, but at least 1 unless
      no time has passed - exactly as long as that fits 16 bits. */
  lemma StepForElapsed(rate: word, elapsed: dword)
    ensures var exact := rate * elapsed / 1000;
            var step := if exact == 0 && elapsed != 0 then 1 else exact;
            RampStep(rate, elapsed) == step <==> rate * elapsed < 65_536_000
  {
    var product: nat := rate * elapsed;
    assert product < 0x1_0000_0000 ==> U32(product) == product;
  }

  /** One call of the periodic processing, for any elapsed time. */
  lemma ProcessElapsed(b: Board, m: Motor, elapsed: dword)
    requires NoFailure(b) && Consistent(m)
    ensures var (r, ret) := Process(b, m, elapsed);
            && ret == 0 && r == m.(state := r.state, duty := r.duty, boost := r.boost, wire := r.wire)
            && r.boost == (if elapsed >= m.boost then 0 else m.boost - elapsed)
            && r.duty == (if m.boost > 0 then m.duty
                          else if m.state == Running then Toward(m.duty, m.target, RampStep(m.accel, elapsed))
                          else if m.state == Stopping then Toward(m.duty, 0, RampStep(m.decel, elapsed))
                          else 0)
            && r.state == if m.state == Stopping && r.duty == 0 then Ready else m.state
  {
    hide RampStep;
  }

  /** A failing PWM write of the ramp ends in FAULT with the driver's own error. */
  lemma RampFails(b: Board, m: Motor, elapsed: dword)
    requires Consistent(m) && b.rc(|m.wire|) < 0
    requires m.state == Stopping || (m.state == Running && m.boost == 0)
    ensures var (r, ret) := Process(b, m, elapsed);
            r.state == Fault && r.lastError == ret == b.rc(|m.wire|) && r.duty == 0
  {
    hide RampStep;
  }

  /** The documented stop time: with the default ramp, 250 ms are enough from any duty. */
  lemma DefaultStopTime(b: Board, m: Motor, n: nat)
    requires NoFailure(b) && Consistent(m) && m.state == Stopping && m.decel == STOP_RAMP && n >= 25
    ensures Loops(b, m, n).state == Ready && Released(Outputs(Loops(b, m, n)))
  {
    StoppingRamp(b, m, n);
    LoopStep(m.decel);
    assert n * 40 >= 1000;
  }
}
