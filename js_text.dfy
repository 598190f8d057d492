/** The JavaScript string operations the chat code relies on:
    `String#trim`, `String#includes`, `Number#toString` on integers and
    `String#padStart`, with a decimal reader that is the inverse of
    `toString` on naturals. */
module JsText {

  /** The characters `String#trim` strips: ECMAScript WhiteSpace
      (tab, vertical tab, form feed, space, no-break space, the byte order
      mark and the Unicode space separators) and LineTerminator
      (line feed, carriage return, line and paragraph separators). */
  predicate IsWhiteSpace(c: char)
  {
    var k := c as int;
    || k == 0x09 || k == 0x0A || k == 0x0B || k == 0x0C || k == 0x0D || k == 0x20
    || k == 0xA0 || k == 0x1680 || (0x2000 <= k <= 0x200A)
    || k == 0x2028 || k == 0x2029 || k == 0x202F || k == 0x205F
    || k == 0x3000 || k == 0xFEFF
  }

  predicate AllWhiteSpace(s: string)
  {
    forall i :: 0 <= i < |s| ==> IsWhiteSpace(s[i])
  }

  /** The index of the first character at or after `i` that is not white
      space, or `|s|` when there is none. */
  function ContentStart(s: string, i: nat): (k: nat)
    requires i <= |s|
    ensures i <= k <= |s|
    ensures k < |s| ==> !IsWhiteSpace(s[k])
    ensures forall j :: i <= j < k ==> IsWhiteSpace(s[j])
    decreases |s| - i
  {
    if i < |s| && IsWhiteSpace(s[i]) then ContentStart(s, i + 1) else i
  }

  /** The index just past the last character before `j` and not before `lo`
      that is not white space, or `lo` when there is none. */
  function ContentEnd(s: string, lo: nat, j: nat): (k: nat)
    requires lo <= j <= |s|
    ensures lo <= k <= j
    ensures k > lo ==> !IsWhiteSpace(s[k - 1])
    ensures forall m :: k <= m < j ==> IsWhiteSpace(s[m])
  {
    if j > lo && IsWhiteSpace(s[j - 1]) then ContentEnd(s, lo, j - 1) else j
  }

  /** `String#trim`: white space removed from both ends. The result is `s`
      with a white-space prefix and a white-space suffix cut off and
      nothing else removed; it neither starts nor ends with white space, and
      it is empty (falsy) exactly when `s` holds nothing but white space. */
  function Trim(s: string): (r: string)
    ensures Includes(s, r)
    ensures exists a | 0 <= a && a + |r| <= |s| ::
      s[a..a + |r|] == r && AllWhiteSpace(s[..a]) && AllWhiteSpace(s[a + |r|..])
    ensures r == [] || (!IsWhiteSpace(r[0]) && !IsWhiteSpace(r[|r| - 1]))
    ensures r == [] <==> AllWhiteSpace(s)
  {
    var a := ContentStart(s, 0);
    var b := ContentEnd(s, a, |s|);
    assert OccursAt(s, s[a..b], a);
    assert s[a..a + |s[a..b]|] == s[a..b] && AllWhiteSpace(s[..a]) && AllWhiteSpace(s[a + |s[a..b]|..]);
    s[a..b]
  }

  /** `t` occurs in `s` starting at index `i`. */
  predicate OccursAt(s: string, t: string, i: int)
  {
    0 <= i && i + |t| <= |s| && s[i..i + |t|] == t
  }

  /** `String#includes`: the empty string occurs in every string, a string
      in itself, and nothing longer than `s` occurs in `s`. */
  predicate Includes(s: string, t: string): (b: bool)
    ensures t == [] ==> b
    ensures t == s ==> b
    ensures b ==> |t| <= |s|
  {
    assert OccursAt(s, [], 0) && OccursAt(s, s, 0);
    exists i | 0 <= i <= |s| :: OccursAt(s, t, i)
  }

  predicate IsDigit(c: char)
  {
    '0' <= c <= '9'
  }

  function DigitChar(d: nat): (c: char)
    requires d < 10
    ensures IsDigit(c) && c as int - '0' as int == d
  {
    ['0', '1', '2', '3', '4', '5', '6', '7', '8', '9'][d]
  }

  function DigitValue(c: char): nat
    requires IsDigit(c)
  {
    c as int - '0' as int
  }

  predicate AllDigits(s: string)
  {
    forall i :: 0 <= i < |s| ==> IsDigit(s[i])
  }

  /** The number a string of decimal digits denotes, most significant first. */
  function DecimalValue(s: string): nat
    requires AllDigits(s)
  {
    if s == [] then 0 else DecimalValue(s[..|s| - 1]) * 10 + DigitValue(s[|s| - 1])
  }

  /** `Number#toString()` of a non-negative integer: decimal digits, no
      leading zero. */
  function NatToString(n: nat): (r: string)
    ensures |r| >= 1 && AllDigits(r)
    ensures r[0] == '0' ==> n == 0
    ensures n < 10 <==> |r| == 1
  {
    if n < 10 then [DigitChar(n)] else NatToString(n / 10) + [DigitChar(n % 10)]
  }

  /** Reading back what `NatToString` wrote gives the number again. */
  lemma {:induction false} NatToStringRoundTrip(n: nat)
    ensures DecimalValue(NatToString(n)) == n
  {
    var s := NatToString(n);
    if n < 10 {
      assert s[..|s| - 1] == [];
    } else {
      NatToStringRoundTrip(n / 10);
      assert s[..|s| - 1] == NatToString(n / 10);
    }
  }

  lemma NatToStringInjective(a: nat, b: nat)
    ensures NatToString(a) == NatToString(b) <==> a == b
  {
    if NatToString(a) == NatToString(b) {
      NatToStringRoundTrip(a);
      NatToStringRoundTrip(b);
    }
  }

  /** `Number#toString()` of an integer: a minus sign before the digits of a
      negative number. */
  function IntToString(n: int): (r: string)
    ensures |r| >= 1
    ensures r[0] == '-' <==> n < 0
  {
    if n < 0 then "-" + NatToString(-n) else NatToString(n)
  }

  lemma IntToStringInjective(a: int, b: int)
    ensures IntToString(a) == IntToString(b) <==> a == b
  {
    if IntToString(a) == IntToString(b) {
      if a < 0 {
        assert IntToString(a)[1..] == NatToString(-a);
        assert IntToString(b)[1..] == NatToString(-b);
        NatToStringInjective(-a, -b);
      } else {
        NatToStringInjective(a, b);
      }
    }
  }

  /** `String#padStart(n, c)`: `s` with copies of `c` put in front until it
      is `n` long; a string already that long is returned unchanged. */
  function PadStart(s: string, n: nat, c: char): (r: string)
    ensures |s| >= n ==> r == s
    ensures |s| < n ==> |r| == n && r[n - |s|..] == s
    ensures forall i :: 0 <= i < |r| - |s| ==> r[i] == c
  {
    if |s| >= n then s else seq(n - |s|, _ => c) + s
  }

  /** Zeros put in front of digits do not change the number they denote. */
  lemma {:induction false} LeadingZeroValue(s: string)
    requires AllDigits(s)
    ensures AllDigits("0" + s) && DecimalValue("0" + s) == DecimalValue(s)
  {
    if s != [] {
      LeadingZeroValue(s[..|s| - 1]);
      assert ("0" + s)[..|s|] == "0" + s[..|s| - 1];
    }
  }

  /** `String(v).padStart(2, '0')` for 1 <= v <= 99 is two digits that read
      back as `v`. */
  lemma TwoDigitsRoundTrip(v: nat)
    requires 1 <= v <= 99
    ensures var r := PadStart(NatToString(v), 2, '0');
      |r| == 2 && AllDigits(r) && DecimalValue(r) == v
  {
    var s := NatToString(v);
    NatToStringRoundTrip(v);
    if v < 10 {
      assert PadStart(s, 2, '0') == "0" + s;
      LeadingZeroValue(s);
    }
  }
}
