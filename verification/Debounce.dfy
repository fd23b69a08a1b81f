/** Three-sample debouncing of one push button, against a specification on its whole history. */
module Debounce {
  import opened Words

  const DEBOUNCE_SAMPLES := 3

  datatype Button = Button(candidate: bool, stable: bool, samples: byte)
  const RELEASED := Button(false, false, 0)

  /** One reading; a negative value is a failed read and is skipped. */
  function Sample(b: Button, value: int): Button {
    if value < 0 then b
    else if (value != 0) != b.candidate then
      b.(candidate := value != 0, samples := 1)
    else
      var samples: byte := if b.samples < DEBOUNCE_SAMPLES then b.samples + 1 else b.samples;
      b.(samples := samples,
         stable := if samples == DEBOUNCE_SAMPLES then b.candidate else b.stable)
  }

  /** Whether this reading reports a press. */
  predicate Press(b: Button, value: int) {
    Sample(b, value).stable && !b.stable
  }

  function Feed(readings: seq<int>): Button
    decreases |readings|
  {
    if |readings| == 0 then RELEASED
    else Sample(Feed(readings[..|readings| - 1]), Last(readings))
  }

  // ----- Specification on histories -----

  /** The successful readings. */
  function Levels(readings: seq<int>): (h: seq<bool>)
    ensures |h| <= |readings|
    decreases |readings|
  {
    if |readings| == 0 then []
    else
      var h := Levels(readings[..|readings| - 1]);
      if Last(readings) < 0 then h else h + [Last(readings) != 0]
  }

  /** Three equal levels end at position `n` of the history. */
  predicate WindowAt(h: seq<bool>, n: int, level: bool) {
    3 <= n <= |h| && h[n - 1] == h[n - 2] == h[n - 3] == level
  }

  /** `v` is the level of the most recent window of three equal levels, false if there is none. */
  ghost predicate MostRecentWindow(h: seq<bool>, v: bool) {
    || (exists n :: WindowAt(h, n, v) && forall k, level :: WindowAt(h, k, level) ==> k <= n)
    || (!v && forall k, level :: !WindowAt(h, k, level))
  }

  /** The same value by recursion. */
  function Settled(h: seq<bool>): bool
    decreases |h|
  {
    if |h| < 3 then false
    else if WindowAt(h, |h|, true) then true
    else if WindowAt(h, |h|, false) then false
    else Settled(h[..|h| - 1])
  }

  function RunLength(h: seq<bool>): nat
    decreases |h|
  {
    if |h| == 0 then 0
    else if |h| >= 2 && h[|h| - 2] == h[|h| - 1] then RunLength(h[..|h| - 1]) + 1
    else 1
  }

  lemma {:induction false} SettledIsMostRecentWindow(h: seq<bool>)
    ensures MostRecentWindow(h, Settled(h))
    decreases |h|
  {
    if |h| >= 3 {
      if WindowAt(h, |h|, true) || WindowAt(h, |h|, false) {
        assert WindowAt(h, |h|, Settled(h));
      } else {
        var init := h[..|h| - 1];
        SettledIsMostRecentWindow(init);
        forall k, level
          ensures WindowAt(init, k, level) <==> WindowAt(h, k, level)
        {
        }
      }
    }
  }

  lemma {:induction false} RunLengthWindow(h: seq<bool>)
    ensures |h| >= 1 ==> RunLength(h) >= 1
    ensures RunLength(h) >= 2 <==> |h| >= 2 && h[|h| - 1] == h[|h| - 2]
    ensures RunLength(h) >= 3 <==> |h| >= 3 && WindowAt(h, |h|, h[|h| - 1])
    decreases |h|
  {
    if |h| > 0 {
      var init := h[..|h| - 1];
      RunLengthWindow(init);
      if |h| >= 3 {
        assert init[|init| - 1] == h[|h| - 2] && init[|init| - 2] == h[|h| - 3];
      }
    }
  }

  /** The stored fields are functions of the successful readings alone. */
  ghost predicate Tracks(b: Button, h: seq<bool>) {
    && b.candidate == (|h| > 0 && Last(h))
    && b.samples == (if RunLength(h) < 3 then RunLength(h) else 3)
    && b.stable == Settled(h)
  }

  lemma SampleTracks(b: Button, h: seq<bool>, level: bool, value: int)
    requires Tracks(b, h) && value >= 0 && level == (value != 0)
    ensures Tracks(Sample(b, value), h + [level])
  {
    var h' := h + [level];
    assert h'[..|h|] == h;
    RunLengthWindow(h);
    RunLengthWindow(h');
    if |h'| >= 3 {
      assert h'[|h'| - 2] == h[|h| - 1] && h'[|h'| - 3] == h[|h| - 2];
    }
  }

  /** Debouncing refines the history specification, for every sequence of readings. */
  lemma {:induction false} FeedTracks(readings: seq<int>)
    ensures Tracks(Feed(readings), Levels(readings))
    ensures MostRecentWindow(Levels(readings), Feed(readings).stable)
    decreases |readings|
  {
    if |readings| > 0 {
      var init := readings[..|readings| - 1];
      FeedTracks(init);
      if Last(readings) >= 0 {
        SampleTracks(Feed(init), Levels(init), Last(readings) != 0, Last(readings));
      }
    }
    SettledIsMostRecentWindow(Levels(readings));
  }

  // ----- Events -----

  /** Reading number `k` reports a press. */
  predicate PressAt(readings: seq<int>, k: nat)
    requires k < |readings|
  {
    Press(Feed(readings[..k]), readings[k])
  }

  /** A press is reported exactly when the settled level rises. */
  lemma PressIsRisingEdge(readings: seq<int>, k: nat)
    requires k < |readings|
    ensures PressAt(readings, k) <==>
            !Settled(Levels(readings[..k])) && Settled(Levels(readings[..k + 1]))
  {
    assert readings[..k + 1][..k] == readings[..k];
    FeedTracks(readings[..k]);
    FeedTracks(readings[..k + 1]);
  }

  lemma {:induction false} LevelsPrefix(readings: seq<int>, k: nat)
    requires k <= |readings|
    ensures Levels(readings[..k]) <= Levels(readings)
    decreases |readings|
  {
    if k < |readings| {
      var init := readings[..|readings| - 1];
      LevelsPrefix(init, k);
      assert init[..k] == readings[..k];
    } else {
      assert readings[..k] == readings;
    }
  }

  /** Once the level has settled high, it is low again only after a window of three lows. */
  lemma {:induction false} FallNeedsWindow(h: seq<bool>, p: nat)
    requires p < |h| && Settled(h[..p]) && !Settled(h)
    ensures exists n :: p < n && WindowAt(h, n, false)
    decreases |h|
  {
    var init := h[..|h| - 1];
    assert init[..p] == h[..p];
    assert init[..|init|] == init;
    if WindowAt(h, |h|, false) {
    } else if p < |init| {
      FallNeedsWindow(init, p);
      var n :| p < n && WindowAt(init, n, false);
      assert WindowAt(h, n, false);
    }
  }

  lemma RiseHasWindow(h: seq<bool>)
    requires |h| > 0 && Settled(h) && !Settled(h[..|h| - 1])
    ensures WindowAt(h, |h|, true)
  {
  }

  /** Rising edges of the settled level at lengths `p` and `|h|` of one history. */
  lemma EdgesAreSpaced(h: seq<bool>, p: nat)
    requires 0 < p < |h|
    requires Settled(h[..p]) && !Settled(h[..p][..p - 1])
    requires Settled(h) && !Settled(h[..|h| - 1])
    ensures |h| - p >= 6
  {
    var before := h[..|h| - 1];
    RiseHasWindow(h[..p]);
    RiseHasWindow(h);
    assert before[..p] == h[..p];
    assert p < |before|;
    FallNeedsWindow(before, p);
    var n :| p < n && WindowAt(before, n, false);
    assert h[p - 1] == h[..p][p - 1];
    assert h[n - 1] == before[n - 1] && h[n - 2] == before[n - 2] && h[n - 3] == before[n - 3];
  }

  /** The reading that reports a press is a successful one, and ends the history so far. */
  lemma PressExtendsHistory(readings: seq<int>, k: nat)
    requires k < |readings| && PressAt(readings, k)
    ensures var h := Levels(readings[..k + 1]);
            && |h| > 0 && h[..|h| - 1] == Levels(readings[..k])
            && Settled(h) && !Settled(h[..|h| - 1])
  {
    PressIsRisingEdge(readings, k);
    assert readings[..k + 1][..k] == readings[..k];
    var h := Levels(readings[..k + 1]);
    assert h == Levels(readings[..k]) + [Last(h)];
  }

  /** Two presses of one button are at least six successful readings apart. */
  lemma PressesAreSpaced(readings: seq<int>, i: nat, j: nat)
    requires i < j < |readings| && PressAt(readings, i) && PressAt(readings, j)
    ensures |Levels(readings[..j + 1])| - |Levels(readings[..i + 1])| >= 6
  {
    PressExtendsHistory(readings, i);
    PressExtendsHistory(readings, j);
    assert readings[..j][..i + 1] == readings[..i + 1];
    LevelsPrefix(readings[..j], i + 1);
    var h, p := Levels(readings[..j + 1]), Levels(readings[..i + 1]);
    assert h[..|p|] == p;
    EdgesAreSpaced(h, |p|);
  }
}
