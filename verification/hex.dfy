/** Python's `hex()` on non-negative integers and Python's ordering of `str`
    values. The chain builders compare FAT entries as hex strings, so the
    model does the same and proves when that agrees with numeric order. */
module HexText {

  function Digit(d: nat): (c: char)
    requires d < 16
    ensures '0' <= c <= '9' || 'a' <= c <= 'f'
  {
    if d < 10 then (48 + d) as char else (87 + d) as char
  }

  /** The lower-case hexadecimal digits of v, without leading zeros. */
  function Digits(v: nat): string
    decreases v
  {
    if v < 16 then [Digit(v)] else Digits(v / 16) + [Digit(v % 16)]
  }

  /** `hex(v)` for v >= 0. */
  function Hex(v: nat): string {
    "0x" + Digits(v)
  }

  function DigitValue(c: char): nat {
    if '0' <= c <= '9' then c as int - 48
    else if 'a' <= c <= 'f' then c as int - 87
    else 0
  }

  function ParseDigits(s: string): nat {
    if |s| == 0 then 0 else ParseDigits(s[..|s| - 1]) * 16 + DigitValue(s[|s| - 1])
  }

  /** `int(s, 16)` on a string of the form `hex()` produces. */
  function Unhex(s: string): nat {
    if |s| < 2 then 0 else ParseDigits(s[2..])
  }

  /** Python's `a <= b` on strings: lexicographic by code point, with a
      prefix ordered before any longer string. */
  predicate LexLe(a: string, b: string) {
    if |a| == 0 then true
    else if |b| == 0 then false
    else if a[0] != b[0] then a[0] < b[0]
    else LexLe(a[1..], b[1..])
  }

  lemma {:induction false} DigitsRoundTrip(v: nat)
    ensures ParseDigits(Digits(v)) == v
    decreases v
  {
    if v >= 16 {
      DigitsRoundTrip(v / 16);
      var s := Digits(v);
      assert s[..|s| - 1] == Digits(v / 16);
    }
  }

  /** Reading back what `hex()` wrote gives the number again. */
  lemma HexRoundTrip(v: nat)
    ensures Unhex(Hex(v)) == v
  {
    assert Hex(v)[2..] == Digits(v);
    DigitsRoundTrip(v);
  }

  /** Two hex strings are equal exactly when the numbers are. */
  lemma HexInjective(v: nat, w: nat)
    ensures Hex(v) == Hex(w) <==> v == w
  {
    if Hex(v) == Hex(w) {
      HexRoundTrip(v);
      HexRoundTrip(w);
    }
  }

  /** The four-digit form of hex() for values from 0x1000 up. */
  lemma FourDigits(v: nat)
    requires 0x1000 <= v < 0x1_0000
    ensures Digits(v) == [Digit(v / 4096), Digit(v / 256 % 16), Digit(v / 16 % 16), Digit(v % 16)]
  {
    assert Digits(v / 4096) == [Digit(v / 4096)];
    assert v / 256 / 16 == v / 4096;
    assert v / 16 / 16 == v / 256;
    assert Digits(v / 256) == [Digit(v / 4096), Digit(v / 256 % 16)];
    assert Digits(v / 16) == [Digit(v / 4096), Digit(v / 256 % 16), Digit(v / 16 % 16)];
  }

  lemma {:induction false} ShortDigitsLength(v: nat)
    ensures v < 0x1000 ==> |Digits(v)| <= 3
    ensures forall k :: 0 <= k < |Digits(v)| ==> Digits(v)[k] <= 'f'
    decreases v
  {
    if v >= 16 {
      ShortDigitsLength(v / 16);
    }
  }

  /** A string no longer than b whose every character is at most b's
      character at the same place is ordered at or before b. */
  lemma {:induction false} LexLePointwise(a: string, b: string)
    requires |a| <= |b|
    requires forall k :: 0 <= k < |a| ==> a[k] <= b[k]
    ensures LexLe(a, b)
    decreases |a|
  {
    if |a| > 0 && a[0] == b[0] {
      LexLePointwise(a[1..], b[1..]);
    }
  }

  lemma DigitOrder(x: nat, y: nat)
    requires x < 16 && y < 16
    ensures Digit(x) < Digit(y) <==> x < y
    ensures Digit(x) == Digit(y) <==> x == y
  {
  }

  lemma LexLeFour(a: char, b: char, c: char, e: char)
    ensures LexLe([a, b, c, e], "fff8") <==>
      a < 'f' || (a == 'f' && (b < 'f' || (b == 'f' && (c < 'f' || (c == 'f' && e <= '8')))))
  {
    var s, t := [a, b, c, e], "fff8";
    assert s[1..] == [b, c, e] && t[1..] == "ff8";
    assert s[1..][1..] == [c, e] && t[1..][1..] == "f8";
    assert s[1..][1..][1..] == [e] && t[1..][1..][1..] == "8";
    assert [e][1..] == [] && "8"[1..] == [];
    assert LexLe([e], "8") <==> e <= '8';
    assert LexLe([c, e], "f8") <==> c < 'f' || (c == 'f' && e <= '8');
    assert LexLe([b, c, e], "ff8") <==> b < 'f' || (b == 'f' && LexLe([c, e], "f8"));
    assert LexLe(s, t) <==> a < 'f' || (a == 'f' && LexLe([b, c, e], "ff8"));
  }

  /** Digit-wise comparison of a four-digit number with 0xFFF8. */
  lemma FourDigitCompare(v: nat, a: nat, b: nat, c: nat, e: nat)
    requires a < 16 && b < 16 && c < 16 && e < 16
    requires v == a * 4096 + b * 256 + c * 16 + e
    ensures v <= 0xFFF8 <==> a < 15 || (a == 15 && (b < 15 || (b == 15 && (c < 15 || (c == 15 && e <= 8)))))
  {
  }

  /** The chain builders' test `hex(v) <= '0xfff8'` compares strings, yet for
      every 16-bit value it agrees with the numeric test v <= 0xFFF8. */
  lemma HexLexOrder(v: nat)
    requires v < 0x1_0000
    ensures LexLe(Hex(v), "0xfff8") <==> v <= 0xFFF8
  {
    var h := Hex(v);
    assert h[1..][1..] == Digits(v);
    assert LexLe(h, "0xfff8") == LexLe(Digits(v), "fff8");
    if v < 0x1000 {
      ShortDigitsOrder(v);
    } else {
      FourDigitsOrder(v);
    }
  }

  /** Fewer than four digits compare below "fff8". */
  lemma ShortDigitsOrder(v: nat)
    requires v < 0x1000
    ensures LexLe(Digits(v), "fff8")
  {
    ShortDigitsLength(v);
    LexLePointwise(Digits(v), "fff8");
  }

  /** Four digits compare with "fff8" as the number they spell compares
      with 0xFFF8. */
  lemma FourDigitsOrderOf(a: nat, b: nat, c: nat, e: nat)
    requires a < 16 && b < 16 && c < 16 && e < 16
    ensures LexLe([Digit(a), Digit(b), Digit(c), Digit(e)], "fff8") <==> a * 4096 + b * 256 + c * 16 + e <= 0xFFF8
  {
    assert Digit(15) == 'f' && Digit(8) == '8';
    DigitOrder(a, 15);
    DigitOrder(b, 15);
    DigitOrder(c, 15);
    DigitOrder(e, 8);
    LexLeFour(Digit(a), Digit(b), Digit(c), Digit(e));
    FourDigitCompare(a * 4096 + b * 256 + c * 16 + e, a, b, c, e);
  }

  /** A 16-bit value is the number its four hex digits spell. */
  lemma FourDigitSplit(v: nat)
    requires v < 0x1_0000
    ensures v == v / 4096 * 4096 + v / 256 % 16 * 256 + v / 16 % 16 * 16 + v % 16
  {
    assert v == v / 16 * 16 + v % 16;
    assert v / 16 / 16 == v / 256;
    assert v / 16 == v / 256 * 16 + v / 16 % 16;
    assert v / 256 / 16 == v / 4096;
    assert v / 256 == v / 4096 * 16 + v / 256 % 16;
  }

  /** Four digits compare as the numbers they spell. */
  lemma FourDigitsOrder(v: nat)
    requires 0x1000 <= v < 0x1_0000
    ensures LexLe(Digits(v), "fff8") <==> v <= 0xFFF8
  {
    FourDigits(v);
    FourDigitSplit(v);
    FourDigitsOrderOf(v / 4096, v / 256 % 16, v / 16 % 16, v % 16);
  }

  /** The sentinel strings the source compares against are hex() of the
      sentinel values and of nothing else. */
  lemma HexSentinel(v: nat)
    ensures Hex(v) == "0xffff" <==> v == 0xFFFF
    ensures Hex(v) == "0xfff7" <==> v == 0xFFF7
  {
    FourDigits(0xFFFF);
    FourDigits(0xFFF7);
    assert Digit(15) == 'f' && Digit(7) == '7';
    assert Hex(0xFFFF) == "0xffff";
    assert Hex(0xFFF7) == "0xfff7";
    HexInjective(v, 0xFFFF);
    HexInjective(v, 0xFFF7);
  }
}
