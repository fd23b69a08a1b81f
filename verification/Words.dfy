/** Fixed-width unsigned words, C arithmetic and the byte orders used on the two wires. */
module Words {

  type byte = x: int | 0 <= x < 0x100
  type word = x: int | 0 <= x < 0x1_0000
  type dword = x: int | 0 <= x < 0x1_0000_0000

  /** Conversion to `uint16_t`: two's complement truncation. */
  function U16(x: int): word {
    x % 0x1_0000
  }

  /** Conversion to `uint32_t`. */
  function U32(x: int): dword {
    x % 0x1_0000_0000
  }

  /** A counter kept in a fixed-width word is the true counter modulo the width. */
  lemma WrappingIncrement(n: nat)
    ensures U32(U32(n) + 1) == U32(n + 1)
    ensures U16(U16(n) + 1) == U16(n + 1)
    ensures U16(U32(n)) == U16(n)
  {
    SameRemainder(U32(n) + 1, n + 1, 0x1_0000_0000, -(n / 0x1_0000_0000));
    SameRemainder(U16(n) + 1, n + 1, 0x1_0000, -(n / 0x1_0000));
    SameRemainder(U32(n), n, 0x1_0000, -0x1_0000 * (n / 0x1_0000_0000));
  }

  /** The difference of two wrapped clocks, wrapped, is the wrapped true difference. */
  lemma WrappingDifference(a: nat, b: nat)
    ensures U32(U32(a) - U32(b)) == U32(a - b)
  {
    SameRemainder(U32(a) - U32(b), a - b, 0x1_0000_0000, b / 0x1_0000_0000 - a / 0x1_0000_0000);
  }

  /** Numbers that differ by a multiple of the width wrap alike. */
  lemma SameRemainder(a: int, b: int, width: nat, k: int)
    requires width in {0x1_0000, 0x1_0000_0000} && a == b + width * k
    ensures a % width == b % width
  {
    if width == 0x1_0000 {
      assert a == 0x1_0000 * (b / 0x1_0000 + k) + b % 0x1_0000;
    } else {
      assert a == 0x1_0000_0000 * (b / 0x1_0000_0000 + k) + b % 0x1_0000_0000;
    }
  }

  /** C division of a signed integer by a positive divisor: truncates toward zero. */
  function TruncDiv(a: int, d: int): (q: int)
    requires d > 0
    ensures a >= 0 ==> 0 <= a - q * d < d
    ensures a <= 0 ==> -d < a - q * d <= 0
  {
    if a >= 0 then a / d else -((-a) / d)
  }

  // Little-endian (inter-core frames, EtherNet/IP assemblies).

  function PutLe16(w: word): seq<byte> {
    [w % 256, w / 256]
  }

  function PutLe32(d: dword): seq<byte> {
    PutLe16(d % 0x1_0000) + PutLe16(d / 0x1_0000)
  }

  function GetLe16(s: seq<byte>, at: nat): word
    requires at + 2 <= |s|
  {
    (s[at] as int) + 256 * (s[at + 1] as int)
  }

  function GetLe32(s: seq<byte>, at: nat): dword
    requires at + 4 <= |s|
  {
    GetLe16(s, at) + 0x1_0000 * GetLe16(s, at + 2)
  }

  // Big-endian (Modbus).

  function GetBe16(s: seq<byte>, at: nat): word
    requires at + 2 <= |s|
  {
    256 * (s[at] as int) + (s[at + 1] as int)
  }

  function PutBe16(w: word): seq<byte> {
    [w / 256, w % 256]
  }

  /** The words of a buffer in big-endian order. */
  function BeWords(s: seq<byte>): (ws: seq<word>)
    ensures |ws| == |s| / 2
  {
    seq(|s| / 2, i requires 0 <= i < |s| / 2 => GetBe16(s, 2 * i))
  }

  function PutBeWords(ws: seq<word>): (s: seq<byte>)
    ensures |s| == 2 * |ws|
  {
    seq(2 * |ws|, i requires 0 <= i < 2 * |ws| => PutBe16(ws[i / 2])[i % 2])
  }

  lemma PutBeWordsAt(ws: seq<word>, i: nat)
    requires i < |ws|
    ensures PutBeWords(ws)[2 * i] == ws[i] / 256 && PutBeWords(ws)[2 * i + 1] == ws[i] % 256
  {
    assert 2 * i / 2 == i && (2 * i + 1) / 2 == i;
  }

  lemma BeWordsRoundTrip(ws: seq<word>)
    ensures BeWords(PutBeWords(ws)) == ws
  {
  }

  lemma BeBytesRoundTrip(s: seq<byte>)
    requires |s| % 2 == 0
    ensures PutBeWords(BeWords(s)) == s
  {
  }

  /** The words of a buffer in little-endian order. */
  function LeWords(s: seq<byte>): (ws: seq<word>)
    ensures |ws| == |s| / 2
  {
    seq(|s| / 2, i requires 0 <= i < |s| / 2 => GetLe16(s, 2 * i))
  }

  function PutLeWords(ws: seq<word>): (s: seq<byte>)
    ensures |s| == 2 * |ws|
  {
    if |ws| == 0 then [] else PutLeWords(ws[..|ws| - 1]) + PutLe16(ws[|ws| - 1])
  }

  lemma {:induction false} LeWordsRoundTrip(ws: seq<word>)
    ensures LeWords(PutLeWords(ws)) == ws
  {
    if |ws| > 0 {
      var init, last := ws[..|ws| - 1], ws[|ws| - 1];
      LeWordsRoundTrip(init);
      var s := PutLeWords(ws);
      forall i | 0 <= i < |ws|
        ensures LeWords(s)[i] == ws[i]
      {
        if i < |ws| - 1 {
          assert LeWords(PutLeWords(init))[i] == init[i];
        }
      }
    }
  }

  lemma {:induction false} LeBytesRoundTrip(s: seq<byte>)
    requires |s| % 2 == 0
    ensures PutLeWords(LeWords(s)) == s
  {
    if |s| > 0 {
      var init := s[..|s| - 2];
      LeBytesRoundTrip(init);
      assert LeWords(s)[..|s| / 2 - 1] == LeWords(init);
      assert PutLe16(GetLe16(s, |s| - 2)) == s[|s| - 2..];
    }
  }

  lemma Le32BytesRoundTrip(s: seq<byte>, at: nat)
    requires at + 4 <= |s|
    ensures PutLe16(GetLe16(s, at)) == s[at..at + 2]
    ensures PutLe32(GetLe32(s, at)) == s[at..at + 4]
  {
    var low, high := GetLe16(s, at), GetLe16(s, at + 2);
    assert PutLe16(high) == s[at + 2..at + 4];
    var d: int := (low as int) + 0x1_0000 * (high as int);
    assert d % 0x1_0000 == low && d / 0x1_0000 == high;
  }

  /** The last element of a nonempty sequence. */
  function Last<T>(s: seq<T>): T
    requires |s| > 0
  {
    s[|s| - 1]
  }
}

/** Error numbers of the embedded C library, used negated as in the source. */
module Errno {
  const EIO := 5
  const EAGAIN := 11
  const EACCES := 13
  const EBUSY := 16
  const ENODEV := 19
  const EINVAL := 22
  const ERANGE := 34
  const ENOBUFS := 105
  const ENOTCONN := 128
  const ENOTSUP := 134
  const ECANCELED := 140
}

module Options {
  datatype Option<+T> = None | Some(value: T)
}
