/**
 * The string conversions the heap records go through: Python's `hex()` and
 * `str()` on integers when records are built, and the browser's `hInt`
 * (JavaScript `parseInt(s.replace("0x", ""), 16)`) when they are read back.
 */
module Text {
  import opened Wrappers

  predicate IsHexDigit(c: char) {
    ('0' <= c <= '9') || ('a' <= c <= 'f') || ('A' <= c <= 'F')
  }

  function DigitValue(c: char): (v: nat)
    requires IsHexDigit(c)
    ensures v < 16
    ensures ('0' <= c <= '9') <==> v < 10
  {
    if '0' <= c <= '9' then (c - '0') as nat
    else if 'a' <= c <= 'f' then (c - 'a') as nat + 10
    else (c - 'A') as nat + 10
  }

  /** The lower-case digit Python and JavaScript print for `d`. */
  function DigitChar(d: nat): (c: char)
    requires d < 16
    ensures IsHexDigit(c) && DigitValue(c) == d
    ensures c != 'x' && c != '-'
  {
    if d < 10 then ('0' as int + d) as char else ('a' as int + d - 10) as char
  }

  predicate AllDigits(s: string, base: nat) {
    forall i :: 0 <= i < |s| ==> IsHexDigit(s[i]) && DigitValue(s[i]) < base
  }

  /** The digits of `n` in `base`, most significant first, with no leading zeros. */
  function Digits(n: nat, base: nat): (s: string)
    requires 2 <= base <= 16
    ensures 1 <= |s| && AllDigits(s, base)
    decreases n
  {
    if n < base then [DigitChar(n)]
    else
      DivMod(n, base);
      var front, last := Digits(n / base, base), DigitChar(n % base);
      AllDigitsSnoc(front, last, base);
      front + [last]
  }

  lemma {:induction false} AllDigitsSnoc(s: string, c: char, base: nat)
    requires AllDigits(s, base) && IsHexDigit(c) && DigitValue(c) < base
    ensures AllDigits(s + [c], base)
  {
    forall i | 0 <= i < |s + [c]|
      ensures IsHexDigit((s + [c])[i]) && DigitValue((s + [c])[i]) < base
    {
      if i < |s| {
        assert (s + [c])[i] == s[i];
      }
    }
  }

  /** The value of a digit string, read most significant digit first. */
  function ParseDigits(s: string, base: nat): nat
    requires 2 <= base <= 16
    requires AllDigits(s, base)
  {
    if |s| == 0 then 0
    else
      AllDigitsFront(s, base);
      MulAdd(ParseDigits(s[..|s| - 1], base), base, DigitValue(s[|s| - 1]))
  }

  /** `a * b + c`, kept apart so that the product's sign is settled once. */
  function MulAdd(a: nat, b: nat, c: nat): nat {
    a * b + c
  }

  lemma {:induction false} AllDigitsFront(s: string, base: nat)
    requires AllDigits(s, base) && |s| > 0
    ensures AllDigits(s[..|s| - 1], base)
  {
    var front := s[..|s| - 1];
    forall i | 0 <= i < |front| ensures IsHexDigit(front[i]) && DigitValue(front[i]) < base {
      assert front[i] == s[i];
    }
  }

  lemma {:induction false} ParseDigitsSnoc(s: string, c: char, base: nat)
    requires 2 <= base <= 16
    requires AllDigits(s, base) && IsHexDigit(c) && DigitValue(c) < base
    ensures AllDigits(s + [c], base)
    ensures ParseDigits(s + [c], base) == ParseDigits(s, base) * base + DigitValue(c)
  {
    AllDigitsSnoc(s, c, base);
    assert (s + [c])[..|s|] == s;
  }

  lemma {:induction false} DivMod(n: nat, base: nat)
    requires 2 <= base <= n
    ensures n / base < n && n == (n / base) * base + n % base && 0 <= n % base < base
  {
    assert n == (n / base) * base + n % base;
    assert n / base >= 1;
    assert (n / base) * base >= (n / base) * 2;
  }

  lemma {:induction false} ParseDigitsInverse(n: nat, base: nat)
    requires 2 <= base <= 16
    ensures ParseDigits(Digits(n, base), base) == n
    decreases n
  {
    if n >= base {
      var q, d := n / base, n % base;
      DivMod(n, base);
      assert Digits(n, base) == Digits(q, base) + [DigitChar(d)];
      ParseDigitsInverse(q, base);
      ParseDigitsSnoc(Digits(q, base), DigitChar(d), base);
      calc {
        ParseDigits(Digits(n, base), base);
        ParseDigits(Digits(q, base), base) * base + d;
        q * base + d;
        n;
      }
    }
  }

  /** Python's `hex(n)` for a non-negative integer: `0x` and lower-case digits. */
  function Hex(n: nat): string {
    "0x" + Digits(n, 16)
  }

  /** Python's `str(i)` and JavaScript's `${i}` for an integer. */
  function DecStr(i: int): (s: string)
    ensures |s| >= 1
    ensures i >= 0 <==> s[0] != '-'
  {
    if i < 0 then "-" + Digits(-i, 10) else Digits(i, 10)
  }

  /** JavaScript's `s.replace("0x", "")`: only the first occurrence goes. */
  function RemoveFirst0x(s: string): (r: string)
    ensures |r| == |s| || |r| == |s| - 2
  {
    if |s| < 2 then s
    else if s[0] == '0' && s[1] == 'x' then s[2..]
    else [s[0]] + RemoveFirst0x(s[1..])
  }

  /** The white space `parseInt` strips before a number (the ASCII part of it). */
  predicate IsJsSpace(c: char) {
    c == ' ' || c == '\t' || c == '\n' || c == '\r' || c == '\U{B}' || c == '\U{C}'
    || c == '\U{A0}' || c == '\U{FEFF}' || c == '\U{2028}' || c == '\U{2029}'
  }

  function TrimStart(s: string): (r: string)
    ensures |r| == 0 || !IsJsSpace(r[0])
    ensures |r| <= |s| && r == s[|s| - |r|..]
  {
    if |s| > 0 && IsJsSpace(s[0]) then TrimStart(s[1..]) else s
  }

  /** The longest prefix of `s` made of hexadecimal digits. */
  function HexPrefix(s: string): (z: string)
    ensures |z| <= |s| && z == s[..|z|] && AllDigits(z, 16)
    ensures |z| == |s| || !IsHexDigit(s[|z|])
  {
    if |s| == 0 || !IsHexDigit(s[0]) then [] else [s[0]] + HexPrefix(s[1..])
  }

  /** A leading `-` or `+` removed. */
  function StripSign(t: string): string {
    if |t| > 0 && (t[0] == '-' || t[0] == '+') then t[1..] else t
  }

  /** A leading `0x` or `0X` removed. */
  function Strip0x(u: string): string {
    if |u| >= 2 && u[0] == '0' && (u[1] == 'x' || u[1] == 'X') then u[2..] else u
  }

  /** What `parseInt` reads digits from: after the white space, the sign and the `0x` prefix. */
  function DigitText(s: string): string {
    Strip0x(StripSign(TrimStart(s)))
  }

  /**
   * JavaScript's `parseInt(s, 16)` on integers; `None` stands for `NaN`.
   * A sign is accepted, then an optional `0x`/`0X` prefix, then the longest
   * run of hexadecimal digits.
   */
  function ParseInt16(s: string): (r: Option<int>)
  {
    var t := TrimStart(s);
    var z := HexPrefix(DigitText(s));
    if |z| == 0 then None
    else
      var m: int := ParseDigits(z, 16);
      if |t| > 0 && t[0] == '-' then Some(-m) else Some(m)
  }

  /**
   * `parseInt` gives `NaN` exactly when, after the white space, the sign and
   * the `0x` prefix, no hexadecimal digit follows.
   */
  lemma {:induction false} ParseInt16NaN(s: string)
    ensures ParseInt16(s).None? <==> var v := DigitText(s); |v| == 0 || !IsHexDigit(v[0])
  {
    var v := DigitText(s);
    if |v| > 0 && IsHexDigit(v[0]) {
      assert HexPrefix(v) == [v[0]] + HexPrefix(v[1..]);
    }
  }

  /** `hInt` of the browser scripts. */
  function HInt(s: string): Option<int> {
    ParseInt16(RemoveFirst0x(s))
  }

  lemma {:induction false} HexPrefixOfDigits(s: string)
    requires AllDigits(s, 16)
    ensures HexPrefix(s) == s
  {
    if |s| > 0 {
      HexPrefixOfDigits(s[1..]);
      assert s == [s[0]] + s[1..];
    }
  }

  /** `parseInt(d, 16)` of a non-empty digit string is its value. */
  lemma {:induction false} ParseInt16Digits(d: string)
    requires |d| >= 1 && AllDigits(d, 16)
    ensures ParseInt16(d) == Some(ParseDigits(d, 16))
  {
    assert IsHexDigit(d[0]) && !IsJsSpace(d[0]);
    assert TrimStart(d) == d;
    assert StripSign(d) == d;
    assert |d| >= 2 ==> IsHexDigit(d[1]);
    assert Strip0x(d) == d;
    HexPrefixOfDigits(d);
  }

  /** The browser reads back exactly the integer the recorder wrote with `hex`. */
  lemma {:induction false} HIntHex(n: nat)
    ensures HInt(Hex(n)) == Some(n)
  {
    var d := Digits(n, 16);
    var h := Hex(n);
    assert h[0] == '0' && h[1] == 'x' && h[2..] == d;
    assert RemoveFirst0x(h) == d;
    ParseInt16Digits(d);
    ParseDigitsInverse(n, 16);
  }

  /** `hex` never maps two addresses to one string. */
  lemma {:induction false} HexInjective(a: nat, b: nat)
    ensures Hex(a) == Hex(b) <==> a == b
  {
    if Hex(a) == Hex(b) {
      HIntHex(a);
      HIntHex(b);
    }
  }

  /** `str` never maps two non-negative integers to one string. */
  lemma {:induction false} DecStrInjective(a: nat, b: nat)
    ensures DecStr(a) == DecStr(b) <==> a == b
  {
    ParseDigitsInverse(a, 10);
    ParseDigitsInverse(b, 10);
  }

  lemma {:induction false} RemoveFirst0xNoX(s: string)
    requires forall i :: 0 <= i < |s| ==> s[i] != 'x'
    ensures RemoveFirst0x(s) == s
  {
    if |s| >= 2 {
      assert s[1] != 'x';
      RemoveFirst0xNoX(s[1..]);
      assert s == [s[0]] + s[1..];
    }
  }

  /** A `"None"` pointer string reads back as `NaN`. */
  lemma {:induction false} HIntNone()
    ensures HInt("None").None?
  {
    var s := "None";
    RemoveFirst0xNoX(s);
    assert !IsJsSpace(s[0]) && !IsHexDigit(s[0]);
    assert TrimStart(s) == s;
    assert DigitText(s) == s;
    assert HexPrefix(s) == [];
  }

  /** JavaScript's `s.includes(sub)`. */
  predicate Contains(s: string, sub: string)
    decreases |s|
  {
    (|sub| <= |s| && s[..|sub|] == sub) || (|s| > 0 && Contains(s[1..], sub))
  }
}
