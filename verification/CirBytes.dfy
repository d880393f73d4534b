/** Byte-level primitives of the CIR file format: little-endian integers, UTF-8
    text, hexadecimal blobs and decimal `i64` text. */
module CirBytes {
  import opened Wrappers

  type Byte = b: int | 0 <= b < 256

  const U32_LIMIT: int := 0x1_0000_0000
  const U64_LIMIT: int := 0x1_0000_0000_0000_0000
  const I64_MIN: int := -0x8000_0000_0000_0000
  const I64_LIMIT: int := 0x8000_0000_0000_0000

  // ---------------------------------------------------------------- text

  predicate IsContinuation(b: Byte) { 0x80 <= b < 0xC0 }

  /** Well-formed UTF-8 in the sense of section 3.9 of the Unicode Standard. */
  predicate ValidUtf8(s: seq<Byte>)
    decreases |s|
  {
    if s == [] then true
    else if s[0] < 0x80 then ValidUtf8(s[1..])
    else if 0xC2 <= s[0] <= 0xDF then
      |s| >= 2 && IsContinuation(s[1]) && ValidUtf8(s[2..])
    else if 0xE0 <= s[0] <= 0xEF then
      && |s| >= 3 && IsContinuation(s[1]) && IsContinuation(s[2])
      && (s[0] == 0xE0 ==> s[1] >= 0xA0)
      && (s[0] == 0xED ==> s[1] < 0xA0)
      && ValidUtf8(s[3..])
    else if 0xF0 <= s[0] <= 0xF4 then
      && |s| >= 4 && IsContinuation(s[1]) && IsContinuation(s[2]) && IsContinuation(s[3])
      && (s[0] == 0xF0 ==> s[1] >= 0x90)
      && (s[0] == 0xF4 ==> s[1] < 0x90)
      && ValidUtf8(s[4..])
    else false
  }

  /** A string of the original: a byte sequence known to be UTF-8. */
  type Text = t: seq<Byte> | ValidUtf8(t) witness []

  lemma {:induction false} AsciiIsUtf8(s: seq<Byte>)
    requires forall i :: 0 <= i < |s| ==> s[i] < 0x80
    ensures ValidUtf8(s)
    decreases |s|
  {
    if s != [] {
      AsciiIsUtf8(s[1..]);
    }
  }

  /** The text of an ASCII literal. */
  function Ascii(s: string): (t: Text)
    requires forall i :: 0 <= i < |s| ==> s[i] < 128 as char
    ensures |t| == |s|
    ensures forall i :: 0 <= i < |s| ==> t[i] == s[i] as int
  {
    var t: seq<Byte> := seq(|s|, i requires 0 <= i < |s| => s[i] as int);
    AsciiIsUtf8(t);
    t
  }

  // ---------------------------------------------------------------- integers

  /** The `k` low bytes of `n`, least significant first. */
  function Le(n: nat, k: nat): (r: seq<Byte>)
    ensures |r| == k
  {
    if k == 0 then [] else [n % 256] + Le(n / 256, k - 1)
  }

  function FromLe(s: seq<Byte>): nat {
    if s == [] then 0 else s[0] + 256 * FromLe(s[1..])
  }

  function Pow256(k: nat): (p: nat)
    ensures p >= 1
  {
    if k == 0 then 1 else 256 * Pow256(k - 1)
  }

  lemma {:induction false} FromLeInvertsLe(n: nat, k: nat)
    requires n < Pow256(k)
    ensures FromLe(Le(n, k)) == n
  {
    if k > 0 {
      FromLeInvertsLe(n / 256, k - 1);
      assert Le(n, k)[1..] == Le(n / 256, k - 1);
    }
  }

  lemma Widths()
    ensures Pow256(1) == 256 && Pow256(4) == U32_LIMIT && Pow256(8) == U64_LIMIT
  {
    assert Pow256(2) == 0x1_0000 && Pow256(3) == 0x100_0000;
    assert Pow256(5) == 0x100_0000_0000 && Pow256(6) == 0x1_0000_0000_0000;
    assert Pow256(7) == 0x100_0000_0000_0000;
  }

  /** Two's-complement image of an `i64` in 64 bits, and back. */
  function I64Bits(i: int): (n: nat)
    requires I64_MIN <= i < I64_LIMIT
    ensures n < U64_LIMIT
    ensures I64Value(n) == i
  {
    if i < 0 then i + U64_LIMIT else i
  }

  function I64Value(n: nat): (i: int)
    requires n < U64_LIMIT
    ensures I64_MIN <= i < I64_LIMIT
  {
    if n < I64_LIMIT then n else n - U64_LIMIT
  }

  // ---------------------------------------------------------------- readers

  /** Outcome of reading one item from the front of a byte sequence. */
  datatype Dec<+T> = Fail | Got(value: T, rest: seq<Byte>) {
    predicate IsFailure() { Fail? }

    function PropagateFailure<U>(): Dec<U>
      requires Fail?
    {
      Fail
    }

    function Extract(): (T, seq<Byte>)
      requires Got?
    {
      (value, rest)
    }
  }

  function ReadLe(k: nat, s: seq<Byte>): (r: Dec<nat>)
    ensures r.Got? ==> |r.rest| + k == |s|
  {
    if |s| < k then Fail else Got(FromLe(s[..k]), s[k..])
  }

  function ReadBytes(k: nat, s: seq<Byte>): (r: Dec<seq<Byte>>)
    ensures r.Got? ==> |r.value| == k && r.value + r.rest == s
  {
    if |s| < k then Fail else Got(s[..k], s[k..])
  }

  lemma ReadLeInverts(n: nat, k: nat, rest: seq<Byte>)
    requires n < Pow256(k)
    ensures ReadLe(k, Le(n, k) + rest) == Got(n, rest)
  {
    FromLeInvertsLe(n, k);
    assert (Le(n, k) + rest)[..k] == Le(n, k);
    assert (Le(n, k) + rest)[k..] == rest;
  }

  lemma FromLeBound(s: seq<Byte>)
    ensures FromLe(s) < Pow256(|s|)
  {
    if s != [] {
      FromLeBound(s[1..]);
    }
  }

  // ---------------------------------------------------------------- hexadecimal

  function HexDigit(n: nat): (b: Byte)
    requires n < 16
    ensures b < 0x80
  {
    if n < 10 then 48 + n else 87 + n
  }

  function HexValue(b: Byte): Option<nat> {
    if 48 <= b <= 57 then Some(b - 48)
    else if 97 <= b <= 102 then Some(b - 87)
    else None
  }

  /** Lower-case hexadecimal rendering, high nibble first. */
  function BytesToHex(bytes: seq<Byte>): (t: Text)
    ensures |t| == 2 * |bytes|
    ensures forall i :: 0 <= i < |t| ==> t[i] < 0x80
  {
    if bytes == [] then []
    else
      var t: seq<Byte> := [HexDigit(bytes[0] / 16), HexDigit(bytes[0] % 16)] + BytesToHex(bytes[1..]);
      AsciiIsUtf8(t);
      t
  }

  function HexToBytes(t: seq<Byte>): Option<seq<Byte>>
    decreases |t|
  {
    if t == [] then Some([])
    else if |t| == 1 then None
    else
      var hi :- HexValue(t[0]);
      var lo :- HexValue(t[1]);
      var tail :- HexToBytes(t[2..]);
      if hi < 16 && lo < 16 then Some([16 * hi + lo] + tail) else None
  }

  // ---------------------------------------------------------------- decimal

  function Digits(n: nat): (t: seq<Byte>)
    ensures |t| >= 1
    ensures forall i :: 0 <= i < |t| ==> t[i] < 0x80
  {
    if n < 10 then [48 + n] else Digits(n / 10) + [48 + n % 10]
  }

  /** Canonical decimal text of an integer. */
  function Decimal(i: int): (t: Text) {
    var t: seq<Byte> := if i < 0 then [45] + Digits(-i) else Digits(i);
    AsciiIsUtf8(t);
    t
  }

  function ParseDigits(t: seq<Byte>): Option<nat> {
    if |t| == 0 then None
    else if t[|t| - 1] < 48 || t[|t| - 1] > 57 then None
    else if |t| == 1 then Some(t[0] - 48)
    else
      var high :- ParseDigits(t[..|t| - 1]);
      Some(10 * high + (t[|t| - 1] - 48))
  }

  /** Accepts an optional sign and decimal digits; out-of-range values are refused. */
  function ParseI64(t: Text): (r: Option<int>)
    ensures r.Some? ==> I64_MIN <= r.value < I64_LIMIT
  {
    var negative := |t| > 0 && t[0] == 45;
    var digits: seq<Byte> := if |t| > 0 && (t[0] == 45 || t[0] == 43) then t[1..] else t;
    var n :- ParseDigits(digits);
    var i: int := if negative then 0 - (n as int) else n as int;
    if I64_MIN <= i < I64_LIMIT then Some(i) else None
  }
}
